/** What every history of contract calls keeps. */
module ContractSafety {
  import opened Bytes
  import opened Options
  import opened Contracts
  import Arithmetic
  import E = Epochs
  import T = EpochTraffic
  import P = Settlement

  // ------------------------------------------------------------ invariant

  /** The two result lists agree entry by entry, with periods 1, 2, ... */
  ghost predicate Lockstep(id: ContractId, c: Contract) {
    && |c.reports| == |c.results|
    && forall i :: 0 <= i < |c.results| ==>
         c.reports[i] == Report(id, c.provider, i + 1, c.results[i].challenge, c.results[i].succeeded)
  }

  ghost predicate RecordedOnce(c: Contract) {
    && (forall i, j :: 0 <= i < j < |c.results| ==> c.results[i].challenge != c.results[j].challenge)
    && (forall i :: 0 <= i < |c.results| ==> c.results[i].challenge in c.challenges)
  }

  /** Only fully funded contracts get past the agreement. */
  ghost predicate FundedWell(c: Contract) {
    && c.payment > 0
    && (c.state.Agreed? || c.state.Active? || c.state.Completed? || c.state.Expired? ==> c.funded == c.payment)
    && (c.state.Proposed? ==> c.funded == 0)
    && (c.funded == 0 || c.funded == c.payment)
  }

  ghost predicate Resting(p: Phase) {
    !p.Transferring? && !p.Ready? && !p.Disputed?
  }

  /** A completed contract carries the settlement of its results. */
  ghost predicate SettledWell(c: Contract) {
    c.state.Completed? ==>
      && c.results != []
      && c.settlement.(finalized := None) == P.Outcome(c.funded, P.Passes(Bits(c.results)), |c.results|)
  }

  ghost predicate GoodContract(id: ContractId, c: Contract) {
    && c.provider != "" && c.file != "" && c.total > 0
    && Resting(c.state) && FundedWell(c) && Lockstep(id, c) && RecordedOnce(c) && SettledWell(c)
  }

  ghost predicate Owned(s: Store, challenge: ChallengeId) {
    challenge in s.owners ==>
      s.owners[challenge] in s.contracts && challenge in s.contracts[s.owners[challenge]].challenges
  }

  /** A contract draws from an epoch of its own provider and file. */
  ghost predicate Tracks(s: Store, id: ContractId) {
    id in s.tracked ==>
      && id in s.contracts && s.tracked[id].epoch in s.epochs.epochs
      && OfContract(s.contracts[id], s.epochs, s.tracked[id].epoch)
  }

  predicate OfContract(c: Contract, es: E.Store, epoch: E.EpochId)
    requires epoch in es.epochs
  {
    es.epochs[epoch].provider == c.provider && es.epochs[epoch].file == c.file
  }

  ghost predicate Inv(s: Store) {
    && E.Inv(s.epochs)
    && (forall id :: id in s.contracts ==> GoodContract(id, s.contracts[id]))
    && (forall challenge :: Owned(s, challenge))
    && (forall id :: Tracks(s, id))
  }

  // ---------------------------------------------------------------- steps

  /** Replacing one record by a good one that keeps its challenges. */
  lemma PutInv(s: Store, id: ContractId, c: Contract)
    requires Inv(s) && GoodContract(id, c)
    requires id in s.contracts ==>
      s.contracts[id].challenges <= c.challenges &&
      c.provider == s.contracts[id].provider && c.file == s.contracts[id].file
    ensures Inv(Put(s, id, c))
  {
    forall challenge
      ensures Owned(Put(s, id, c), challenge)
    {
      assert Owned(s, challenge);
    }
    forall other
      ensures Tracks(Put(s, id, c), other)
    {
      assert Tracks(s, other);
    }
  }

  lemma GenerateInv(es: E.Store, epoch: E.EpochId, counter: nat, d: Draw, g: Gaps)
    requires E.Inv(es) && E.Feasible(es, g.compare) && E.Feasible(E.After(es, g.compare), g.select)
    ensures E.Inv(Generate(es, epoch, counter, d, g).epochs) && T.AllAge(es, Generate(es, epoch, counter, d, g).epochs)
  {
    var es1 := E.After(es, g.compare);
    var es2 := E.After(es1, g.select);
    E.InvRun(es, g.compare);
    E.InvRun(es1, g.select);
    E.InvStep(es2, E.Select(epoch, d.hash));
    T.AllAgeRun(es, g.compare);
    T.AllAgeRun(es1, g.select);
    T.AllAgeTrans(es, es1, es2);
    T.AllAgeStep(es2, E.Select(epoch, d.hash));
    T.AllAgeTrans(es, es2, E.Step(es2, E.Select(epoch, d.hash)));
  }

  /** Opening an epoch, when one has to be opened. */
  lemma OpenedInv(s: Store, id: ContractId, d: Draw, g: Gaps)
    requires Inv(s) && id in s.contracts && d.epoch != "" && GapsFit(s, id, d, g)
    ensures E.Inv(Opened(s, id, d, g)) && T.AllAge(s.epochs, Opened(s, id, d, g))
    ensures Continues(s, id) || d.idOk ==>
      DrawnFrom(s, id, d) in Opened(s, id, d, g).epochs &&
      OfContract(s.contracts[id], Opened(s, id, d, g), DrawnFrom(s, id, d))
  {
    assert Tracks(s, id) && GoodContract(id, s.contracts[id]);
    if !Continues(s, id) {
      var es, e := E.After(s.epochs, g.create), NewEpochFor(s.contracts[id], d);
      E.InvRun(s.epochs, g.create);
      E.InvStep(es, e);
      T.AllAgeRun(s.epochs, g.create);
      T.AllAgeStep(es, e);
      T.AllAgeTrans(s.epochs, es, E.Step(es, e));
    }
  }

  /** Starting a challenge is drawing from the opened epoch, unless none could be opened. */
  lemma ChallengeIsGenerate(s: Store, id: ContractId, d: Draw, g: Gaps)
    requires Inv(s) && id in s.contracts
    ensures
      Challenge(s, id, d, g) ==
        if Continues(s, id) || d.idOk then
          Generate(Opened(s, id, d, g), DrawnFrom(s, id, d),
                   if Continues(s, id) then s.epochs.epochs[s.tracked[id].epoch].counter else 0, d, g)
        else Generated(Opened(s, id, d, g), Some(Epoch(E.NoRandomness)))
  {
    assert Tracks(s, id) && GoodContract(id, s.contracts[id]);
  }

  lemma ChallengeInv(s: Store, id: ContractId, d: Draw, g: Gaps)
    requires Inv(s) && id in s.contracts && d.epoch != "" && GapsFit(s, id, d, g)
    ensures
      var es := Challenge(s, id, d, g).epochs;
      && E.Inv(es) && T.AllAge(s.epochs, es)
      && (Challenge(s, id, d, g).error.None? ==>
            DrawnFrom(s, id, d) in es.epochs && OfContract(s.contracts[id], es, DrawnFrom(s, id, d)))
  {
    var es, epoch := Opened(s, id, d, g), DrawnFrom(s, id, d);
    OpenedInv(s, id, d, g);
    ChallengeIsGenerate(s, id, d, g);
    if Continues(s, id) || d.idOk {
      GenerateInv(es, epoch, if Continues(s, id) then s.epochs.epochs[s.tracked[id].epoch].counter else 0, d, g);
      T.AllAgeTrans(s.epochs, es, Challenge(s, id, d, g).epochs);
      assert T.Ages(es, Challenge(s, id, d, g).epochs, epoch);
    }
  }

  lemma EpochsInv(s: Store, es: E.Store)
    requires Inv(s) && E.Inv(es) && T.AllAge(s.epochs, es)
    ensures Inv(s.(epochs := es))
  {
    forall challenge
      ensures Owned(s.(epochs := es), challenge)
    {
      assert Owned(s, challenge);
    }
    forall id
      ensures Tracks(s.(epochs := es), id)
    {
      assert Tracks(s, id);
      if id in s.tracked {
        assert T.Ages(s.epochs, es, s.tracked[id].epoch);
      }
    }
  }

  lemma ExpireInv(s: Store, id: ContractId)
    requires Inv(s) && id in s.contracts && s.contracts[id].funded == s.contracts[id].payment
    ensures Inv(Put(s, id, s.contracts[id].(state := Expired)))
  {
    assert GoodContract(id, s.contracts[id]);
    PutInv(s, id, s.contracts[id].(state := Expired));
  }

  /** The record of a contract whose challenge has started. */
  function Started(s: Store, id: ContractId, d: Draw, epoch: E.EpochId): Store
    requires id in s.contracts
  {
    var c := s.contracts[id];
    Store(s.contracts[id := c.(state := Active, challenges := c.challenges + [d.challenge])],
          s.owners[d.challenge := id], s.tracked[id := Tracked(epoch, d.trigger)], s.epochs)
  }

  ghost predicate Payable(c: Contract) {
    (c.state.Agreed? || c.state.Active?) && c.funded == c.payment
  }

  lemma DrawnInv(s: Store, id: ContractId, d: Draw, g: Gaps)
    requires Inv(s) && id in s.contracts && d.epoch != "" && GapsFit(s, id, d, g) && Payable(s.contracts[id])
    ensures
      var s' := s.(epochs := Challenge(s, id, d, g).epochs);
      && Inv(s')
      && (Challenge(s, id, d, g).error.None? ==> Inv(Started(s', id, d, DrawnFrom(s, id, d))))
  {
    ChallengeInv(s, id, d, g);
    EpochsInv(s, Challenge(s, id, d, g).epochs);
    if Challenge(s, id, d, g).error.None? {
      StartedInv(s.(epochs := Challenge(s, id, d, g).epochs), id, d, DrawnFrom(s, id, d));
    }
  }

  lemma InitiateInv(s: Store, id: ContractId, now: int, d: Draw, g: Gaps)
    requires Inv(s) && Enabled(s, Initiate(id, now, d, g))
    ensures Inv(InitiateChallenge(s, id, now, d, g).store)
  {
    if id in s.contracts && Payable(s.contracts[id]) {
      if now >= s.contracts[id].endsAt {
        ExpireInv(s, id);
      } else {
        DrawnInv(s, id, d, g);
      }
    }
  }

  lemma StartedInv(s: Store, id: ContractId, d: Draw, epoch: E.EpochId)
    requires Inv(s) && id in s.contracts && Payable(s.contracts[id])
    requires epoch in s.epochs.epochs && OfContract(s.contracts[id], s.epochs, epoch)
    ensures Inv(Started(s, id, d, epoch))
  {
    var c := s.contracts[id];
    var c' := c.(state := Active, challenges := c.challenges + [d.challenge]);
    assert GoodContract(id, c);
    assert GoodContract(id, c');
    PutInv(s, id, c');
    var s1, s' := Put(s, id, c'), Started(s, id, d, epoch);
    forall challenge
      ensures Owned(s', challenge)
    {
      assert Owned(s1, challenge);
    }
    forall other
      ensures Tracks(s', other)
    {
      assert Tracks(s1, other);
    }
  }

  lemma RecordInv(s: Store, id: ContractId, challenge: ChallengeId, named: ChallengeId, succeeded: bool)
    requires Inv(s)
    ensures Inv(RecordResult(s, id, challenge, named, succeeded).store)
  {
    var o := RecordResult(s, id, challenge, named, succeeded);
    if o.error.None? {
      var c, c' := s.contracts[id], o.store.contracts[id];
      assert GoodContract(id, c) && Owned(s, challenge);
      assert RecordedOnce(c') by {
        assert forall i :: 0 <= i < |c.results| ==> c.results[i].challenge != challenge;
      }
      assert Lockstep(id, c');
      PutInv(s, id, c');
    }
  }

  lemma SettledGood(id: ContractId, c: Contract, next: Phase, finalized: Option<int>)
    requires GoodContract(id, c) && (c.state.Active? || c.state.Expired?) && c.results != []
    requires next == c.state || next.Expired? || next.Completed?
    ensures
      var settled := P.Outcome(c.funded, P.Passes(Bits(c.results)), |c.results|);
      GoodContract(id, c.(state := next, settlement := settled.(finalized := finalized)))
  {}

  lemma SettleInv(s: Store, id: ContractId, now: int, later: int)
    requires Inv(s)
    ensures Inv(SettleContract(s, id, now, later).store)
  {
    var o := SettleContract(s, id, now, later);
    if o.store != s {
      var c := s.contracts[id];
      var next := if now >= c.endsAt then Expired else Phase.Completed;
      SettledGood(id, c, c.state, None);
      SettledGood(id, c, next, Some(later));
      PutInv(s, id, o.store.contracts[id]);
    }
  }

  /** Creating, funding and terminating replace one record by a good one. */
  lemma RecordStepInv(s: Store, e: Event)
    requires Inv(s) && Enabled(s, e) && (e.Create? || e.Fund? || e.Terminate?)
    ensures Inv(Apply(s, e).store)
  {
    var o := Apply(s, e);
    if o.error.None? {
      if e.id in s.contracts {
        assert GoodContract(e.id, s.contracts[e.id]);
      }
      PutInv(s, e.id, o.store.contracts[e.id]);
    }
  }

  lemma InvStep(s: Store, e: Event)
    requires Inv(s) && Enabled(s, e)
    ensures Inv(Apply(s, e).store)
  {
    match e
    case Initiate(id, now, d, g) => InitiateInv(s, id, now, d, g);
    case Record(id, challenge, named, succeeded) => RecordInv(s, id, challenge, named, succeeded);
    case Settle(id, now, later) => SettleInv(s, id, now, later);
    case Others(event) =>
      E.InvStep(s.epochs, event);
      T.AllAgeStep(s.epochs, event);
      EpochsInv(s, E.Step(s.epochs, event));
    case _ => RecordStepInv(s, e);
  }

  lemma {:induction false} InvRun(s: Store, es: seq<Event>)
    requires Inv(s) && Feasible(s, es)
    ensures Inv(After(s, es))
    decreases |es|
  {
    if es != [] {
      InvStep(s, es[0]);
      InvRun(Apply(s, es[0]).store, es[1..]);
    }
  }

  ghost predicate Reached(s: Store) {
    exists es :: Feasible(EMPTY, es) && s == After(EMPTY, es)
  }

  lemma ReachedInv(s: Store)
    requires Reached(s)
    ensures Inv(s)
  {
    var es :| Feasible(EMPTY, es) && s == After(EMPTY, es);
    InvRun(EMPTY, es);
  }

  // -------------------------------------------------------------- results

  /** What every reachable contract satisfies. */
  lemma ContractsStayGood(s: Store, id: ContractId)
    requires Reached(s) && id in s.contracts
    ensures Resting(s.contracts[id].state) && FundedWell(s.contracts[id])
    ensures Lockstep(id, s.contracts[id]) && RecordedOnce(s.contracts[id])
  {
    ReachedInv(s);
    assert GoodContract(id, s.contracts[id]);
  }

  /** Later versions of a record: a terminal state stays, results only grow, and not at
      all once the state is terminal. */
  ghost predicate Evolves(c: Contract, c': Contract) {
    && (c.state.Terminal() ==> c'.state == c.state && c'.results == c.results && c'.reports == c.reports)
    && c.results <= c'.results && c.reports <= c'.reports
    && (c'.payment, c'.provider, c'.file, c'.total, c'.endsAt) == (c.payment, c.provider, c.file, c.total, c.endsAt)
  }

  lemma EvolveInitiate(s: Store, e: Event, id: ContractId)
    requires e.Initiate? && id in s.contracts
    ensures id in Apply(s, e).store.contracts && Evolves(s.contracts[id], Apply(s, e).store.contracts[id])
  {}

  lemma EvolveRecord(s: Store, e: Event, id: ContractId)
    requires e.Record? && id in s.contracts
    ensures id in Apply(s, e).store.contracts && Evolves(s.contracts[id], Apply(s, e).store.contracts[id])
  {}

  lemma EvolveSettle(s: Store, e: Event, id: ContractId)
    requires e.Settle? && id in s.contracts
    ensures id in Apply(s, e).store.contracts && Evolves(s.contracts[id], Apply(s, e).store.contracts[id])
  {}

  lemma EvolveStep(s: Store, e: Event, id: ContractId)
    requires Enabled(s, e) && id in s.contracts
    ensures id in Apply(s, e).store.contracts && Evolves(s.contracts[id], Apply(s, e).store.contracts[id])
  {
    match e
    case Initiate(_, _, _, _) => EvolveInitiate(s, e, id);
    case Record(_, _, _, _) => EvolveRecord(s, e, id);
    case Settle(_, _, _) => EvolveSettle(s, e, id);
    case _ =>
  }

  lemma {:induction false} TerminalIsAbsorbing(s: Store, es: seq<Event>, id: ContractId)
    requires Feasible(s, es) && id in s.contracts
    ensures id in After(s, es).contracts && Evolves(s.contracts[id], After(s, es).contracts[id])
    decreases |es|
  {
    if es != [] {
      EvolveStep(s, es[0], id);
      TerminalIsAbsorbing(Apply(s, es[0]).store, es[1..], id);
    }
  }

  /** Others let the draw through: nobody starts another epoch for the key or draws from
      this epoch before the counter is compared, and after that they leave a chunk. */
  ghost predicate Undisturbed(es: E.Store, epoch: E.EpochId, g: Gaps)
    requires epoch in es.epochs
  {
    var key := T.KeyAt(es, epoch);
    && !T.AnyReplaces(g.compare, key) && !T.AnyReplaces(g.select, key)
    && T.DrawCount(g.compare, epoch) == 0 && T.DrawCount(g.select, epoch) < |es.epochs[epoch].uncovered|
  }

  /** Drawing from an epoch that was active and not used up works exactly if the nonce
      can be drawn and the others let it through. */
  lemma GenerateIff(es: E.Store, epoch: E.EpochId, d: Draw, g: Gaps)
    requires E.Inv(es) && E.Feasible(es, g.compare) && E.Feasible(E.After(es, g.compare), g.select)
    requires epoch in es.epochs && es.epochs[epoch].active && es.epochs[epoch].uncovered != [] && d.hash != []
    ensures
      var r := Generate(es, epoch, es.epochs[epoch].counter, d, g);
      && (r.error.None? <==> d.nonceOk && Undisturbed(es, epoch, g))
      && (r.error.Some? && Undisturbed(es, epoch, g) ==> r.error == Some(NoRandomness))
      && (r.error.None? ==>
            && epoch in r.epochs.epochs && r.epochs.epochs[epoch].active
            && r.epochs.epochs[epoch].counter == es.epochs[epoch].counter + T.DrawCount(g.select, epoch) + 1)
  {
    var es1 := E.After(es, g.compare);
    T.RunEffect(es, g.compare, epoch);
    T.RunAges(es, g.compare, epoch);
    if es1.epochs[epoch].active {
      T.RunEffect(es1, g.select, epoch);
    } else {
      T.RunAges(es1, g.select, epoch);
    }
  }

  /** The epoch a challenge draws from is active and not used up when it starts. */
  lemma OpenedIsFresh(s: Store, id: ContractId, d: Draw, g: Gaps)
    requires Inv(s) && id in s.contracts && d.epoch != "" && GapsFit(s, id, d, g) && (Continues(s, id) || d.idOk)
    ensures DrawnFrom(s, id, d) in Opened(s, id, d, g).epochs
    ensures
      var e := Opened(s, id, d, g).epochs[DrawnFrom(s, id, d)];
      && e.active && e.uncovered != []
      && e.counter == (if Continues(s, id) then s.epochs.epochs[s.tracked[id].epoch].counter else 0)
      && T.KeyAt(Opened(s, id, d, g), DrawnFrom(s, id, d)) == E.KeyOf(s.contracts[id].provider, s.contracts[id].file)
  {
    assert GoodContract(id, s.contracts[id]) && Tracks(s, id);
  }

  lemma ChallengeIff(s: Store, id: ContractId, d: Draw, g: Gaps)
    requires Inv(s) && id in s.contracts && d.epoch != "" && d.hash != [] && GapsFit(s, id, d, g)
    requires Continues(s, id) || d.idOk
    ensures DrawnFrom(s, id, d) in Opened(s, id, d, g).epochs
    ensures
      var r, es, epoch := Challenge(s, id, d, g), Opened(s, id, d, g), DrawnFrom(s, id, d);
      && (r.error.None? <==> d.nonceOk && Undisturbed(es, epoch, g))
      && (r.error.Some? && Undisturbed(es, epoch, g) ==> r.error == Some(NoRandomness))
      && (r.error.None? ==>
            && epoch in r.epochs.epochs && r.epochs.epochs[epoch].active
            && r.epochs.epochs[epoch].counter == es.epochs[epoch].counter + T.DrawCount(g.select, epoch) + 1)
  {
    OpenedInv(s, id, d, g);
    OpenedIsFresh(s, id, d, g);
    ChallengeIsGenerate(s, id, d, g);
    GenerateIff(Opened(s, id, d, g), DrawnFrom(s, id, d), d, g);
  }

  /** On a funded, unexpired contract a challenge starts exactly if the random draws it
      needs work and others let it through between its locked sections: no other epoch is
      started for the provider and file, nobody draws from the epoch before the counter is
      compared, and afterwards they leave a chunk. */
  lemma InitiateSucceedsIff(s: Store, id: ContractId, now: int, d: Draw, g: Gaps)
    requires Reached(s) && id in s.contracts && Enabled(s, Initiate(id, now, d, g))
    requires (s.contracts[id].state.Agreed? || s.contracts[id].state.Active?) && now < s.contracts[id].endsAt
    ensures
      var o, c, epoch := InitiateChallenge(s, id, now, d, g), s.contracts[id], DrawnFrom(s, id, d);
      var key := E.KeyOf(c.provider, c.file);
      var left := if Continues(s, id) then |s.epochs.epochs[epoch].uncovered| else c.total;
      && (o.error.None? <==>
            && d.nonceOk && (Continues(s, id) || d.idOk)
            && !T.AnyReplaces(g.compare, key) && !T.AnyReplaces(g.select, key)
            && T.DrawCount(g.compare, epoch) == 0 && T.DrawCount(g.select, epoch) < left)
      && (o.error.Some? ==> o.store.contracts == s.contracts && o.store.owners == s.owners)
      && (o.error.None? ==> o.store.contracts[id].state.Active? && o.store.owners[d.challenge] == id)
  {
    ReachedInv(s);
    assert GoodContract(id, s.contracts[id]);
    if Continues(s, id) || d.idOk {
      OpenedIsFresh(s, id, d, g);
      ChallengeIff(s, id, d, g);
    } else {
      ChallengeIsGenerate(s, id, d, g);
    }
  }

  /** So when the epochs are used through contracts only, a challenge can only fail for
      lack of randomness: the counter always matches and the epoch is never inactive or
      exhausted. */
  lemma InitiateOnlyNeedsRandomness(s: Store, id: ContractId, now: int, d: Draw)
    requires Reached(s) && id in s.contracts && Enabled(s, Initiate(id, now, d, QUIET))
    requires (s.contracts[id].state.Agreed? || s.contracts[id].state.Active?) && now < s.contracts[id].endsAt
    ensures
      var o := InitiateChallenge(s, id, now, d, QUIET);
      && (o.error.None? <==> d.nonceOk && (Continues(s, id) || d.idOk))
      && (o.error.Some? ==> o.error.value in {NoRandomness, Epoch(E.NoRandomness)} && o.store.contracts == s.contracts)
      && (o.error.None? ==> o.store.contracts[id].state.Active? && o.store.owners[d.challenge] == id)
  {
    ReachedInv(s);
    assert GoodContract(id, s.contracts[id]);
    InitiateSucceedsIff(s, id, now, d, QUIET);
    if Continues(s, id) || d.idOk {
      OpenedIsFresh(s, id, d, QUIET);
      ChallengeIff(s, id, d, QUIET);
    } else {
      ChallengeIsGenerate(s, id, d, QUIET);
    }
  }

  /** One call by others in a gap is enough: a draw from the epoch makes the counters
      differ, and a new epoch for the key ends the one being drawn from. */
  lemma OneCallDisturbs(s: Store, id: ContractId, now: int, d: Draw, e: E.Event)
    requires Reached(s) && id in s.contracts && Continues(s, id) && d.nonceOk && d.hash != []
    requires E.Enabled(s.epochs, e)
    requires s.contracts[id].state.Active? && now < s.contracts[id].endsAt
    ensures T.Draws(e, s.tracked[id].epoch) ==>
      InitiateChallenge(s, id, now, d, Gaps([], [e], [])).error == Some(CounterMismatch)
    ensures T.Replaces(e, E.KeyOf(s.contracts[id].provider, s.contracts[id].file)) ==>
      InitiateChallenge(s, id, now, d, Gaps([], [], [e])).error == Some(Epoch(E.Inactive))
  {
    ReachedInv(s);
    assert GoodContract(id, s.contracts[id]) && Tracks(s, id);
    T.StepEffect(s.epochs, e, s.tracked[id].epoch);
    assert E.After(s.epochs, [e]) == E.Step(s.epochs, e);
  }

  /** Such a state is reached by proposing, funding and challenging a contract for a file of
      at least two chunks, unless the first challenge triggers the end of its epoch. */
  lemma RunningContractReached(e: Event, now: int, d: Draw) returns (s: Store)
    requires e.Create? && e.publisher != "" && e.provider != "" && e.file != "" && e.payment > 0 && e.duration > 0
    requires e.chunks.Some? && e.chunks.value > 1 && e.idOk && now < e.now + e.duration
    requires d.epoch != "" && d.idOk && d.nonceOk && d.hash != [] && !d.trigger
    ensures Reached(s) && e.id in s.contracts && s.contracts[e.id].state.Active? && Continues(s, e.id)
    ensures s.contracts[e.id].endsAt == e.now + e.duration && s.tracked[e.id].epoch == d.epoch
  {
    var fund, initiate := Fund(e.id, e.payment), Initiate(e.id, now, d, QUIET);
    var s1 := Apply(EMPTY, e).store;
    var s2 := Apply(s1, fund).store;
    assert e.id in s2.contracts && s2.contracts[e.id].state.Agreed? && s2.epochs == E.EMPTY;
    s := Apply(s2, initiate).store;
    FirstDraw(s2, e.id, d);
    RunOfThree(e, fund, initiate);
  }

  /** The first challenge of a contract leaves its new epoch with chunks to draw. */
  lemma FirstDraw(s: Store, id: ContractId, d: Draw)
    requires id in s.contracts && id !in s.tracked && s.epochs == E.EMPTY
    requires s.contracts[id].provider != "" && s.contracts[id].file != "" && s.contracts[id].total > 1
    requires d.epoch != "" && d.idOk && d.nonceOk && d.hash != []
    ensures GapsFit(s, id, d, QUIET)
    ensures
      var g := Challenge(s, id, d, QUIET);
      && g.error.None? && d.epoch in g.epochs.epochs
      && g.epochs.epochs[d.epoch].active && g.epochs.epochs[d.epoch].uncovered != []
  {
    var es := E.CreateEpoch(s.epochs, NewEpochFor(s.contracts[id], d));
    assert |es.epochs[d.epoch].uncovered| == s.contracts[id].total;
    assert |E.SelectChunk(es, d.epoch, d.hash).epochs[d.epoch].uncovered| == s.contracts[id].total - 1;
  }

  lemma RunCons(s: Store, e: Event, rest: seq<Event>)
    requires Enabled(s, e) && Feasible(Apply(s, e).store, rest)
    ensures Feasible(s, [e] + rest) && After(s, [e] + rest) == After(Apply(s, e).store, rest)
  {
    assert ([e] + rest)[1..] == rest;
  }

  lemma RunOfThree(a: Event, b: Event, c: Event)
    requires Enabled(EMPTY, a) && Enabled(Apply(EMPTY, a).store, b)
    requires Enabled(Apply(Apply(EMPTY, a).store, b).store, c)
    ensures Reached(Apply(Apply(Apply(EMPTY, a).store, b).store, c).store)
  {
    var s1 := Apply(EMPTY, a).store;
    var s2 := Apply(s1, b).store;
    RunCons(s2, c, []);
    RunCons(s1, b, [c] + []);
    RunCons(EMPTY, a, [b] + ([c] + []));
  }

  /** A challenge takes exactly one chunk besides those others draw meanwhile, from the
      contract's running epoch or from a new one, and that epoch is the current one of its
      provider and file. */
  lemma InitiateAdvancesEpoch(s: Store, id: ContractId, now: int, d: Draw, g: Gaps)
    requires Reached(s) && Enabled(s, Initiate(id, now, d, g)) && InitiateChallenge(s, id, now, d, g).error.None?
    ensures
      var s', epoch := InitiateChallenge(s, id, now, d, g).store, DrawnFrom(s, id, d);
      && id in s.contracts && id in s'.tracked
      && s'.tracked[id] == Tracked(epoch, d.trigger) && epoch in s'.epochs.epochs
      && var e, c := s'.epochs.epochs[epoch], s.contracts[id];
         && e.active && e.provider == c.provider && e.file == c.file
         && E.KeyOf(c.provider, c.file) in s'.epochs.latest && s'.epochs.latest[E.KeyOf(c.provider, c.file)] == epoch
         && e.counter == (if Continues(s, id) then s.epochs.epochs[epoch].counter else 0)
            + T.DrawCount(g.select, epoch) + 1
         && s'.contracts[id].challenges == c.challenges + [d.challenge]
  {
    ReachedInv(s);
    var s' := InitiateChallenge(s, id, now, d, g).store;
    InitiateInv(s, id, now, d, g);
    assert E.Current(s'.epochs, s'.tracked[id].epoch) && Tracks(s', id);
    ChallengeIsGenerate(s, id, d, g);
    OpenedIsFresh(s, id, d, g);
    ChallengeIff(s, id, d, g);
  }

  /** Settling an expired contract never succeeds; with results it still overwrites the
      settlement, and its finalization time. */
  lemma SettlingExpiredFails(s: Store, id: ContractId, now: int, later: int)
    requires Reached(s) && id in s.contracts && s.contracts[id].state.Expired?
    ensures
      var o, c := SettleContract(s, id, now, later), s.contracts[id];
      && o.error.Some?
      && o.store.contracts[id].state.Expired?
      && o.store.contracts[id].settlement ==
           if c.results == [] then c.settlement else P.Outcome(c.funded, P.Passes(Bits(c.results)), |c.results|)
  {
    ReachedInv(s);
    assert GoodContract(id, s.contracts[id]);
  }

  /** A completed contract whose amounts are in range pays out exactly what it holds, and
      everything exactly if every recorded proof passed. */
  lemma CompletedPaysFairly(s: Store, id: ContractId)
    requires Reached(s) && id in s.contracts && s.contracts[id].state.Completed?
    requires s.contracts[id].payment * |s.contracts[id].results| <= P.INT64_MAX
    ensures
      var c := s.contracts[id];
      && c.settlement.released + c.settlement.withheld == c.payment && 0 <= c.settlement.released <= c.payment
      && (c.settlement.status.Completed? <==> forall i :: 0 <= i < |c.results| ==> c.results[i].succeeded)
  {
    ReachedInv(s);
    var c := s.contracts[id];
    assert GoodContract(id, c);
    InRange(c.payment, P.Passes(Bits(c.results)), |c.results|);
    P.FairSettlement(c.funded, P.Passes(Bits(c.results)), |c.results|);
    EveryProofPassed(c.results);
  }

  lemma InRange(payment: int64, passed: nat, total: nat)
    requires payment > 0 && passed <= total && payment * total <= P.INT64_MAX
    ensures payment * passed <= P.INT64_MAX
  {
    Arithmetic.MulMono(passed, total, payment);
  }

  lemma EveryProofPassed(results: seq<Verdict>)
    ensures P.Passes(Bits(results)) == |results| <==> forall i :: 0 <= i < |results| ==> results[i].succeeded
  {
    P.AllPassed(Bits(results));
    assert forall i :: 0 <= i < |results| ==> Bits(results)[i] == results[i].succeeded;
  }
}
