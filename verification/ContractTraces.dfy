/** Contracts told by the calls that were made on them: their terms are those of the call
    that created them, their results those that were reported, and their settlement pays
    for exactly these. */
module ContractTraces {
  import opened Arithmetic
  import opened Bytes
  import opened Options
  import opened Contracts
  import opened ContractSafety
  import E = Epochs
  import P = Settlement

  // -------------------------------------------------------------- what calls did

  /** The verdict a call reports, if it is accepted for contract `id`. */
  function Reported(s: Store, e: Event, id: ContractId): seq<Verdict> {
    if e.Record? && e.id == id && Apply(s, e).error.None? then [Verdict(e.challenge, e.succeeded)] else []
  }

  /** The challenge a call starts for contract `id`. */
  function Issued(s: Store, e: Event, id: ContractId): seq<ChallengeId> {
    if e.Initiate? && e.id == id && Apply(s, e).error.None? then [e.draw.challenge] else []
  }

  function Verdicts(s: Store, es: seq<Event>, id: ContractId): seq<Verdict>
    requires Feasible(s, es)
    decreases |es|
  {
    if es == [] then [] else Reported(s, es[0], id) + Verdicts(Apply(s, es[0]).store, es[1..], id)
  }

  function Challenges(s: Store, es: seq<Event>, id: ContractId): seq<ChallengeId>
    requires Feasible(s, es)
    decreases |es|
  {
    if es == [] then [] else Issued(s, es[0], id) + Challenges(Apply(s, es[0]).store, es[1..], id)
  }

  function ResultsOf(s: Store, id: ContractId): seq<Verdict> {
    if id in s.contracts then s.contracts[id].results else []
  }

  function ChallengesOf(s: Store, id: ContractId): seq<ChallengeId> {
    if id in s.contracts then s.contracts[id].challenges else []
  }

  lemma ResultsStep(s: Store, e: Event, id: ContractId)
    requires Enabled(s, e)
    ensures ResultsOf(Apply(s, e).store, id) == ResultsOf(s, id) + Reported(s, e, id)
  {}

  lemma ChallengesStep(s: Store, e: Event, id: ContractId)
    requires Enabled(s, e)
    ensures ChallengesOf(Apply(s, e).store, id) == ChallengesOf(s, id) + Issued(s, e, id)
  {
    if e.Initiate? {
      InitiateIssues(s, e, id);
    }
  }

  lemma InitiateIssues(s: Store, e: Event, id: ContractId)
    requires e.Initiate?
    ensures ChallengesOf(Apply(s, e).store, id) == ChallengesOf(s, id) + Issued(s, e, id)
  {}

  lemma Associate<T>(a: seq<T>, b: seq<T>, c: seq<T>)
    ensures (a + b) + c == a + (b + c)
  {}

  lemma {:induction false} ResultsRun(s: Store, es: seq<Event>, id: ContractId)
    requires Feasible(s, es)
    ensures ResultsOf(After(s, es), id) == ResultsOf(s, id) + Verdicts(s, es, id)
    decreases |es|
  {
    if es != [] {
      var s1 := Apply(s, es[0]).store;
      ResultsStep(s, es[0], id);
      ResultsRun(s1, es[1..], id);
      Associate(ResultsOf(s, id), Reported(s, es[0], id), Verdicts(s1, es[1..], id));
    }
  }

  lemma {:induction false} ChallengesRun(s: Store, es: seq<Event>, id: ContractId)
    requires Feasible(s, es)
    ensures ChallengesOf(After(s, es), id) == ChallengesOf(s, id) + Challenges(s, es, id)
    decreases |es|
  {
    if es != [] {
      var s1 := Apply(s, es[0]).store;
      ChallengesStep(s, es[0], id);
      ChallengesRun(s1, es[1..], id);
      Associate(ChallengesOf(s, id), Issued(s, es[0], id), Challenges(s1, es[1..], id));
    }
  }

  /** After any run the results of a contract are exactly the verdicts of the calls that
      were accepted, in order, its reports pass exactly where these succeeded, and its
      challenges are exactly those that were started. */
  lemma ResultsAreReported(es: seq<Event>, id: ContractId)
    requires Feasible(EMPTY, es) && id in After(EMPTY, es).contracts
    ensures
      var c, vs := After(EMPTY, es).contracts[id], Verdicts(EMPTY, es, id);
      && c.results == vs && |c.reports| == |vs| && c.challenges == Challenges(EMPTY, es, id)
      && forall i :: 0 <= i < |vs| ==>
           c.reports[i] == Report(id, c.provider, i + 1, vs[i].challenge, vs[i].succeeded)
  {
    ResultsRun(EMPTY, es, id);
    ChallengesRun(EMPTY, es, id);
    assert Reached(After(EMPTY, es));
    ContractsStayGood(After(EMPTY, es), id);
  }

  /** The contract that a challenge was last started for. */
  function Issuer(s: Store, es: seq<Event>, x: ChallengeId): Option<ContractId>
    requires Feasible(s, es)
    decreases |es|
  {
    if es == [] then None
    else
      var later := Issuer(Apply(s, es[0]).store, es[1..], x);
      if later.Some? then later
      else if es[0].Initiate? && Issued(s, es[0], es[0].id) == [x] then Some(es[0].id)
      else None
  }

  function OwnerOf(s: Store, x: ChallengeId): Option<ContractId> {
    if x in s.owners then Some(s.owners[x]) else None
  }

  lemma OwnerStep(s: Store, e: Event, x: ChallengeId)
    requires Enabled(s, e)
    ensures OwnerOf(Apply(s, e).store, x) ==
      if e.Initiate? && Issued(s, e, e.id) == [x] then Some(e.id) else OwnerOf(s, x)
  {}

  lemma {:induction false} OwnerRun(s: Store, es: seq<Event>, x: ChallengeId)
    requires Feasible(s, es)
    ensures OwnerOf(After(s, es), x) == if Issuer(s, es, x).Some? then Issuer(s, es, x) else OwnerOf(s, x)
    decreases |es|
  {
    if es != [] {
      OwnerStep(s, es[0], x);
      OwnerRun(Apply(s, es[0]).store, es[1..], x);
    }
  }

  ghost predicate AlreadyReported(vs: seq<Verdict>, x: ChallengeId) {
    exists i :: 0 <= i < |vs| && vs[i].challenge == x
  }

  /** After any run a verdict is accepted exactly if the contract is active, the challenge
      was last started for it, the result names no other challenge, and no verdict on it
      has been accepted before. */
  lemma ReportAcceptedIff(es: seq<Event>, id: ContractId, x: ChallengeId, named: ChallengeId, succeeded: bool)
    requires Feasible(EMPTY, es)
    ensures
      var s := After(EMPTY, es);
      RecordResult(s, id, x, named, succeeded).error.None? <==>
        && id in s.contracts && s.contracts[id].state.Active? && Issuer(EMPTY, es, x) == Some(id)
        && (named == "" || named == x) && !AlreadyReported(Verdicts(EMPTY, es, id), x)
  {
    OwnerRun(EMPTY, es, x);
    ResultsRun(EMPTY, es, id);
    assert ResultsOf(After(EMPTY, es), id) == Verdicts(EMPTY, es, id);
    assert AlreadyReported(ResultsOf(After(EMPTY, es), id), x) <==> Recorded(ResultsOf(After(EMPTY, es), id), x);
  }

  // ---------------------------------------------------------------------- epochs

  /** Whether the last challenge of a contract triggered the end of its epoch. */
  function Triggered(s: Store, es: seq<Event>, id: ContractId): Option<bool>
    requires Feasible(s, es)
    decreases |es|
  {
    if es == [] then None
    else
      var later := Triggered(Apply(s, es[0]).store, es[1..], id);
      if later.Some? then later
      else if Issued(s, es[0], id) != [] then Some(es[0].draw.trigger)
      else None
  }

  function TriggerOf(s: Store, id: ContractId): Option<bool> {
    if id in s.tracked then Some(s.tracked[id].endAfterCurrent) else None
  }

  lemma TriggerStep(s: Store, e: Event, id: ContractId)
    requires Enabled(s, e)
    ensures TriggerOf(Apply(s, e).store, id) ==
      if Issued(s, e, id) != [] then Some(e.draw.trigger) else TriggerOf(s, id)
  {}

  lemma {:induction false} TriggerRun(s: Store, es: seq<Event>, id: ContractId)
    requires Feasible(s, es)
    ensures TriggerOf(After(s, es), id) == if Triggered(s, es, id).Some? then Triggered(s, es, id) else TriggerOf(s, id)
    decreases |es|
  {
    if es != [] {
      TriggerStep(s, es[0], id);
      TriggerRun(Apply(s, es[0]).store, es[1..], id);
    }
  }

  /** After any run a challenge goes on with the contract's epoch exactly if an earlier
      challenge started it, the last one did not trigger its end, and it is still active
      with chunks left; otherwise it starts a new one. */
  lemma EpochGoesOnIff(es: seq<Event>, id: ContractId, now: int, d: Draw, g: Gaps)
    requires Feasible(EMPTY, es) && Enabled(After(EMPTY, es), Initiate(id, now, d, g))
    requires InitiateChallenge(After(EMPTY, es), id, now, d, g).error.None?
    ensures
      var s := After(EMPTY, es);
      var s' := InitiateChallenge(s, id, now, d, g).store;
      && id in s'.tracked && s'.tracked[id].endAfterCurrent == d.trigger
      && (id in s.tracked <==> Triggered(EMPTY, es, id).Some?)
      && var goesOn := Triggered(EMPTY, es, id) == Some(false) && s.tracked[id].epoch in s.epochs.epochs &&
           s.epochs.epochs[s.tracked[id].epoch].active && s.epochs.epochs[s.tracked[id].epoch].uncovered != [];
         s'.tracked[id].epoch == if goesOn then s.tracked[id].epoch else d.epoch
  {
    TriggerRun(EMPTY, es, id);
  }

  /** A challenge on a funded contract whose term is over expires it, and changes nothing
      else. */
  lemma LateChallengeExpires(s: Store, id: ContractId, now: int, d: Draw, g: Gaps)
    requires Reached(s) && id in s.contracts && (s.contracts[id].state.Agreed? || s.contracts[id].state.Active?)
    ensures
      var o := InitiateChallenge(s, id, now, d, g);
      && (o.error == Some(HasExpired) <==> now >= s.contracts[id].endsAt)
      && (now >= s.contracts[id].endsAt ==>
            o.store == s.(contracts := s.contracts[id := s.contracts[id].(state := Expired)]))
  {
    ReachedInv(s);
    assert GoodContract(id, s.contracts[id]);
  }

  // ----------------------------------------------------------------------- terms

  /** A call that creates a contract. */
  predicate Creates(e: Event) {
    && e.Create? && e.publisher != "" && e.provider != "" && e.file != ""
    && e.payment > 0 && e.duration > 0 && e.chunks.Some? && e.chunks.value > 0 && e.idOk
  }

  ghost predicate AsCreated(c: Contract, e: Event) {
    && Creates(e) && c.publisher == e.publisher && c.provider == e.provider && c.file == e.file
    && c.total == e.chunks.value && c.payment == e.payment && c.endsAt == e.now + e.duration
  }

  /** Every contract comes from one of these calls, and every such call left its contract. */
  ghost predicate Registered(s: Store, seen: seq<Event>) {
    && (forall id :: id in s.contracts ==>
          exists e :: e in seen && e.Create? && e.id == id && AsCreated(s.contracts[id], e))
    && (forall e :: e in seen && Creates(e) ==> e.id in s.contracts)
  }

  ghost predicate KeepsTerms(c: Contract, c': Contract) {
    (c'.publisher, c'.provider, c'.file, c'.total, c'.payment, c'.endsAt)
    == (c.publisher, c.provider, c.file, c.total, c.payment, c.endsAt)
  }

  lemma TermsStep(s: Store, e: Event, id: ContractId)
    requires Enabled(s, e) && id in Apply(s, e).store.contracts
    ensures if id in s.contracts then KeepsTerms(s.contracts[id], Apply(s, e).store.contracts[id])
            else e.Create? && e.id == id && AsCreated(Apply(s, e).store.contracts[id], e)
  {}

  lemma ContractsStay(s: Store, e: Event)
    requires Enabled(s, e)
    ensures s.contracts.Keys <= Apply(s, e).store.contracts.Keys
    ensures Creates(e) ==> e.id in Apply(s, e).store.contracts
  {}

  lemma RegisteredStep(s: Store, seen: seq<Event>, e: Event)
    requires Registered(s, seen) && Enabled(s, e)
    ensures Registered(Apply(s, e).store, seen + [e])
  {
    var s' := Apply(s, e).store;
    ContractsStay(s, e);
    assert e in seen + [e];
    forall id | id in s'.contracts
      ensures exists x :: x in seen + [e] && x.Create? && x.id == id && AsCreated(s'.contracts[id], x)
    {
      TermsStep(s, e, id);
      if id in s.contracts {
        var x :| x in seen && x.Create? && x.id == id && AsCreated(s.contracts[id], x);
        assert x in seen + [e] && AsCreated(s'.contracts[id], x);
      }
    }
  }

  lemma {:induction false} RegisteredRun(s: Store, seen: seq<Event>, es: seq<Event>)
    requires Registered(s, seen) && Feasible(s, es)
    ensures Registered(After(s, es), seen + es)
    decreases |es|
  {
    if es == [] {
      assert seen + es == seen;
    } else {
      RegisteredStep(s, seen, es[0]);
      RegisteredRun(Apply(s, es[0]).store, seen + [es[0]], es[1..]);
      assert seen + es == seen + [es[0]] + es[1..];
    }
  }

  /** After any run a contract exists exactly if a valid call created it, and still has the
      terms of that call. */
  lemma TermsAreCreated(es: seq<Event>, id: ContractId)
    requires Feasible(EMPTY, es)
    ensures
      var s := After(EMPTY, es);
      && (id in s.contracts <==> exists e :: e in es && Creates(e) && e.id == id)
      && (id in s.contracts ==> exists e :: e in es && Creates(e) && e.id == id && AsCreated(s.contracts[id], e))
  {
    RegisteredRun(EMPTY, [], es);
    assert [] + es == es;
  }

  // ------------------------------------------------------------------ settlement

  function Succeeded(vs: seq<Verdict>): (n: nat)
    ensures n <= |vs|
  {
    if vs == [] then 0 else Succeeded(vs[..|vs| - 1]) + if vs[|vs| - 1].succeeded then 1 else 0
  }

  lemma {:induction false} SucceededIsPasses(vs: seq<Verdict>)
    ensures Succeeded(vs) == P.Passes(Bits(vs))
  {
    if vs != [] {
      SucceededIsPasses(vs[..|vs| - 1]);
      assert Bits(vs)[..|vs| - 1] == Bits(vs[..|vs| - 1]);
    }
  }

  /** In every reached state settling works exactly for an active contract with results; it
      ends the contract as completed exactly if the call came before the end of the term,
      and as expired otherwise, with the settlement of its results. */
  lemma SettlesIff(s: Store, id: ContractId, now: int, later: int)
    requires Reached(s) && id in s.contracts
    ensures
      var o, c := SettleContract(s, id, now, later), s.contracts[id];
      && (o.error.None? <==> c.state.Active? && c.results != [])
      && (o.error.None? ==>
            var c' := o.store.contracts[id];
            && (if now < c.endsAt then c'.state.Completed? else c'.state.Expired?)
            && c'.settlement == P.Outcome(c.payment, Succeeded(c.results), |c.results|).(finalized := Some(later)))
  {
    ReachedInv(s);
    assert GoodContract(id, s.contracts[id]);
    SucceededIsPasses(s.contracts[id].results);
  }

  /** A share of the payment, rounded down. */
  function ShareFor(payment: int, vs: seq<Verdict>): int
    requires vs != []
  {
    payment * Succeeded(vs) / |vs|
  }

  /** The settlement pays for these verdicts: their share of the payment, and all of it
      exactly if all of them succeeded. */
  ghost predicate PaysFor(c: Contract, vs: seq<Verdict>) {
    && vs != [] && c.settlement.passed == Succeeded(vs) && c.settlement.failed == |vs| - Succeeded(vs)
    && c.settlement.released == ShareFor(c.payment, vs)
    && c.settlement.withheld == c.payment - c.settlement.released
    && (c.settlement.status.Completed? <==> forall i :: 0 <= i < |vs| ==> vs[i].succeeded)
  }

  lemma GoodPays(id: ContractId, c: Contract)
    requires GoodContract(id, c) && c.state.Completed? && c.payment * |c.results| <= P.INT64_MAX
    ensures PaysFor(c, c.results)
  {
    SucceededIsPasses(c.results);
    assert c.funded == c.payment;
    Share(c.payment, Succeeded(c.results), |c.results|);
    AllSucceeded(c.results);
  }

  lemma ReachedGood(es: seq<Event>, id: ContractId)
    requires Feasible(EMPTY, es) && id in After(EMPTY, es).contracts
    ensures
      var c := After(EMPTY, es).contracts[id];
      GoodContract(id, c) && c.results == Verdicts(EMPTY, es, id)
  {
    ResultsRun(EMPTY, es, id);
    assert Reached(After(EMPTY, es));
    ReachedInv(After(EMPTY, es));
  }

  /** What a completed contract pays, from the calls alone: the share of the promised payment
      for the share of accepted reports that succeeded, and all of it exactly if all did. */
  lemma CompletedPaysForReports(es: seq<Event>, id: ContractId)
    requires Feasible(EMPTY, es) && id in After(EMPTY, es).contracts && After(EMPTY, es).contracts[id].state.Completed?
    requires After(EMPTY, es).contracts[id].payment * |Verdicts(EMPTY, es, id)| <= P.INT64_MAX
    ensures PaysFor(After(EMPTY, es).contracts[id], Verdicts(EMPTY, es, id))
  {
    ReachedGood(es, id);
    GoodPays(id, After(EMPTY, es).contracts[id]);
  }

  lemma {:induction false} AllSucceeded(vs: seq<Verdict>)
    ensures Succeeded(vs) == |vs| <==> forall i :: 0 <= i < |vs| ==> vs[i].succeeded
  {
    if vs != [] {
      AllSucceeded(vs[..|vs| - 1]);
    }
  }

  lemma Share(payment: int64, passed: nat, total: nat)
    requires payment > 0 && passed <= total && total > 0 && payment * total <= P.INT64_MAX
    ensures
      var o := P.Outcome(payment, passed, total);
      && o.passed == passed && o.failed == total - passed
      && o.released == payment * passed / total && o.withheld == payment - o.released
      && (o.status.Completed? <==> passed == total)
  {
    MulMono(passed, total, payment);
    MulMono(1, payment, total);
    P.ExactShareIff(payment, passed, total);
    P.FairSettlement(payment, passed, total);
  }

  /** Terminating works exactly for contracts that have not ended, at the given time; it
      leaves the amounts of the settlement as they were. */
  lemma TerminatesIff(s: Store, id: ContractId, now: int)
    requires Reached(s) && id in s.contracts
    ensures
      var o, c := TerminateContract(s, id, now), s.contracts[id];
      && (o.error.None? <==> !c.state.Terminal())
      && o.store.contracts[id] ==
           if c.state.Terminal() then c
           else c.(state := Terminated, settlement := c.settlement.(status := P.Terminated, finalized := Some(now)))
  {
    ReachedInv(s);
    assert GoodContract(id, s.contracts[id]);
  }
}
