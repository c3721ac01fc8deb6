/** The contract store object: each call makes exactly one step of the history, so what
    every history keeps holds of the object between calls. */
module ContractBook {
  import opened Bytes
  import opened Options
  import opened Contracts
  import opened ContractSafety
  import E = Epochs
  import P = Settlement

  /** Validate a lifecycle step. */
  function Transition(from: Phase, to: Phase): (r: Option<Phase>)
    ensures r.Some? <==> CanTransition(from, to)
    ensures r.Some? ==> r.value == to && !from.Terminal()
  {
    if CanTransition(from, to) then Some(to) else None
  }

  class Book {
    var contracts: map<ContractId, Contract>
    var owners: map<ChallengeId, ContractId>
    var tracked: map<ContractId, Tracked>
    const epochs: E.EpochStore

    ghost function View(): Store
      reads this, epochs
    {
      Store(contracts, owners, tracked, epochs.View())
    }

    constructor ()
      ensures View() == EMPTY && Inv(View()) && fresh(epochs)
    {
      contracts, owners, tracked := map[], map[], map[];
      epochs := new E.EpochStore();
    }

    /** Record a proposed contract; identifier, chunk count and clock come from outside. */
    method Propose(e: Event) returns (r: Option<Error>)
      requires e.Create?
      modifies this
      ensures Outcome(View(), r) == CreateContract(old(View()), e)
      ensures r.None? ==> GoodContract(e.id, contracts[e.id]) && contracts[e.id].state.Proposed?
    {
      if e.publisher == "" || e.provider == "" || e.file == "" { return Some(MissingField); }
      if e.payment <= 0 || e.duration <= 0 { return Some(BadTerms); }
      if e.chunks.None? || e.chunks.value <= 0 { return Some(NoChunkCount); }
      if !e.idOk { return Some(NoRandomness); }
      contracts := contracts[e.id := Contract(e.publisher, e.provider, e.file, e.chunks.value, e.payment, 0,
                                              e.now + e.duration, Proposed, [], [], [], P.PENDING)];
      r := None;
    }

    method Fund(id: ContractId, amount: int64) returns (r: Option<Error>)
      modifies this
      ensures Outcome(View(), r) == FundContract(old(View()), id, amount)
      ensures r.None? ==> contracts[id].funded == contracts[id].payment
    {
      if id !in contracts { return Some(UnknownContract); }
      var c := contracts[id];
      if !c.state.Proposed? { return Some(WrongState); }
      if amount != c.payment { return Some(WrongAmount); }
      var next := Transition(c.state, Agreed);
      if next.None? { return Some(BadTransition); }
      contracts := contracts[id := c.(funded := amount, state := next.value)];
      r := None;
    }

    /** One challenge from an epoch whose counter the caller has read. */
    method GenerateNextChallenge(epoch: E.EpochId, counter: nat, d: Draw) returns (r: Option<Error>)
      requires E.Inv(epochs.View()) && d.hash != []
      modifies epochs
      ensures Generated(epochs.View(), r) == Generate(old(epochs.View()), epoch, counter, d, QUIET)
      ensures E.Inv(epochs.View())
    {
      if epoch !in epochs.epochs { return Some(EpochLost); }
      if epochs.epochs[epoch].counter != counter { return Some(CounterMismatch); }
      if !d.nonceOk { return Some(NoRandomness); }
      var chosen := epochs.SelectUncoveredChunk(epoch, d.hash);
      if chosen.Err? { return Some(Epoch(chosen.error)); }
      r := None;
    }

    method FirstChallenge(c: Contract, d: Draw) returns (r: Option<Error>)
      requires E.Inv(epochs.View()) && d.hash != [] && d.epoch !in epochs.epochs && d.epoch != ""
      modifies epochs
      ensures Generated(epochs.View(), r) == CreateChallenge(old(epochs.View()), c, d, QUIET) && E.Inv(epochs.View())
    {
      var made := epochs.NewEpoch(d.epoch, c.provider, c.file, c.total, d.idOk);
      if made.Err? { return Some(Epoch(made.error)); }
      r := GenerateNextChallenge(d.epoch, 0, d);
    }

    /** Draw from the tracked epoch, or start one if that has ended, is used up, or was
        triggered to end. */
    method DrawChallenge(id: ContractId, d: Draw) returns (r: Option<Error>, epoch: E.EpochId)
      requires E.Inv(epochs.View()) && id in contracts && d.hash != [] && d.epoch !in epochs.epochs && d.epoch != ""
      modifies epochs
      ensures Generated(epochs.View(), r) == Challenge(old(View()), id, d, QUIET) && E.Inv(epochs.View())
      ensures epoch == DrawnFrom(old(View()), id, d)
    {
      epoch := d.epoch;
      if id in tracked {
        var current := tracked[id].epoch;
        if current !in epochs.epochs { return Some(EpochLost), epoch; }
        var e := epochs.epochs[current];
        if e.active && e.uncovered != [] && !tracked[id].endAfterCurrent {
          epoch := current;
          r := GenerateNextChallenge(current, e.counter, d);
          return;
        }
      }
      r := FirstChallenge(contracts[id], d);
    }

    /** The lifecycle steps an agreed contract walks through when its first challenge starts. */
    method Activate(from: Phase) returns (to: Phase)
      requires from.Agreed? || from.Active?
      ensures to == Active
    {
      to := from;
      if from.Agreed? {
        var path := [Transferring, Ready, Active];
        for i := 0 to 3
          invariant to == if i == 0 then Agreed else path[i - 1]
        {
          var next := Transition(to, path[i]);
          if next.Some? {
            to := next.value;
          }
        }
      }
    }

    method Initiate(id: ContractId, now: int, d: Draw) returns (r: Option<Error>)
      requires E.Inv(epochs.View()) && d.hash != [] && d.epoch !in epochs.epochs && d.epoch != ""
      modifies this, epochs
      ensures Outcome(View(), r) == InitiateChallenge(old(View()), id, now, d, QUIET) && E.Inv(epochs.View())
    {
      if id !in contracts { return Some(UnknownContract); }
      var c := contracts[id];
      if !(c.state.Agreed? || c.state.Active?) || c.funded != c.payment { return Some(WrongState); }
      if now >= c.endsAt {
        contracts := contracts[id := c.(state := Expired)];
        return Some(HasExpired);
      }
      var epoch;
      r, epoch := DrawChallenge(id, d);
      if r.None? {
        var state := Activate(c.state);
        contracts := contracts[id := c.(state := state, challenges := c.challenges + [d.challenge])];
        owners := owners[d.challenge := id];
        tracked := tracked[id := Tracked(epoch, d.trigger)];
      }
    }

    /** Store a verdict, at most once per challenge the contract owns. */
    method Record(id: ContractId, challenge: ChallengeId, named: ChallengeId, succeeded: bool)
      returns (r: Option<Error>)
      modifies this
      ensures Outcome(View(), r) == RecordResult(old(View()), id, challenge, named, succeeded)
    {
      ghost var before := View();
      if id !in contracts { return Some(UnknownContract); }
      var c := contracts[id];
      if !c.state.Active? { return Some(WrongState); }
      if challenge !in owners || owners[challenge] != id { return Some(NotOwner); }
      if named != "" && named != challenge { return Some(NotTheChallenge); }
      for i := 0 to |c.results|
        invariant View() == before && forall k :: 0 <= k < i ==> c.results[k].challenge != challenge
      {
        if c.results[i].challenge == challenge { return Some(AlreadyRecorded); }
      }
      var report := Report(id, c.provider, |c.reports| + 1, challenge, succeeded);
      contracts :=
        contracts[id := c.(results := c.results + [Verdict(challenge, succeeded)], reports := c.reports + [report])];
      r := None;
    }

    /** Settle by the recorded results; the settlement is written before the state. */
    method Settle(id: ContractId, now: int, later: int) returns (r: Option<Error>)
      modifies this
      ensures Outcome(View(), r) == SettleContract(old(View()), id, now, later)
    {
      if id !in contracts { return Some(UnknownContract); }
      var c := contracts[id];
      if !c.state.Active? && !c.state.Expired? { return Some(WrongState); }
      if c.results == [] { return Some(NoResults); }
      var calculated := P.CalculateSettlement(c.funded, Bits(c.results));
      if calculated.Err? { return Some(Unsettled(calculated.error)); }
      c := c.(settlement := calculated.value);
      contracts := contracts[id := c];
      var next := Transition(c.state, if now >= c.endsAt then Expired else Completed);
      if next.None? { return Some(BadTransition); }
      contracts := contracts[id := c.(state := next.value, settlement := c.settlement.(finalized := Some(later)))];
      r := None;
    }

    method Terminate(id: ContractId, now: int) returns (r: Option<Error>)
      modifies this
      ensures Outcome(View(), r) == TerminateContract(old(View()), id, now)
      ensures r.None? ==> contracts[id].state.Terminated?
    {
      if id !in contracts { return Some(UnknownContract); }
      var c := contracts[id];
      if c.state.Terminal() { return Some(WrongState); }
      var next := Transition(c.state, Phase.Terminated);
      if next.None? { return Some(BadTransition); }
      contracts := contracts[id := c.(state := next.value,
                                      settlement := c.settlement.(status := P.Terminated, finalized := Some(now)))];
      r := None;
    }
  }
}
