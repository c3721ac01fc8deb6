/** Availability contracts: a record per contract, the owner of every challenge, and the
    epoch each contract is drawing challenges from. Every call holds the contracts' lock,
    so a history is a sequence of calls. The epochs have a lock of their own: others may
    use them between calls, and also between the locked sections of a challenge. */
module Contracts {
  import opened Bytes
  import opened Options
  import E = Epochs
  import P = Settlement

  type ContractId = string
  type ChallengeId = string

  datatype Phase = Proposed | Agreed | Transferring | Ready | Active | Completed | Expired | Terminated | Disputed {
    predicate Terminal() { Completed? || Expired? || Terminated? || Disputed? }
  }

  predicate CanTransition(from: Phase, to: Phase) {
    match from
    case Proposed => to.Agreed? || to.Terminated? || to.Disputed?
    case Agreed => to.Transferring? || to.Terminated? || to.Disputed?
    case Transferring => to.Ready? || to.Terminated? || to.Disputed?
    case Ready => to.Active? || to.Terminated? || to.Disputed?
    case Active => to.Completed? || to.Expired? || to.Terminated? || to.Disputed?
    case _ => false
  }

  datatype Verdict = Verdict(challenge: ChallengeId, succeeded: bool)

  /** The standardized output handed to the payment layer. */
  datatype Report = Report(contract: ContractId, provider: string, period: nat, challenge: ChallengeId, pass: bool)

  datatype Contract = Contract(
    publisher: string, provider: string, file: string, total: int, payment: int64, funded: int64, endsAt: int,
    state: Phase, challenges: seq<ChallengeId>, results: seq<Verdict>, reports: seq<Report>, settlement: P.State)

  datatype Tracked = Tracked(epoch: E.EpochId, endAfterCurrent: bool)

  datatype Store = Store(
    contracts: map<ContractId, Contract>, owners: map<ChallengeId, ContractId>, tracked: map<ContractId, Tracked>,
    epochs: E.Store)

  datatype Error =
    | MissingField | BadTerms | NoChunkCount | NoRandomness | UnknownContract | WrongState | WrongAmount
    | HasExpired | EpochLost | CounterMismatch | Epoch(error: E.Error)
    | NotOwner | NotTheChallenge | AlreadyRecorded | NoResults | Unsettled(why: P.Error) | BadTransition

  /** What is drawn at random or derived from it when a challenge is generated. */
  datatype Draw = Draw(epoch: E.EpochId, idOk: bool, nonceOk: bool, hash: bytes, challenge: ChallengeId, trigger: bool)

  /** What others do with the epochs while a challenge is started: before a new epoch is
      created, before the counter is compared, and before the chunk is selected. */
  datatype Gaps = Gaps(create: seq<E.Event>, compare: seq<E.Event>, select: seq<E.Event>)

  const QUIET := Gaps([], [], [])

  datatype Event =
    | Create(id: ContractId, publisher: string, provider: string, file: string, payment: int64, duration: int,
             chunks: Option<int>, idOk: bool, now: int)
    | Fund(id: ContractId, amount: int64)
    | Initiate(id: ContractId, now: int, draw: Draw, gaps: Gaps)
    | Record(id: ContractId, challenge: ChallengeId, named: ChallengeId, succeeded: bool)
    | Settle(id: ContractId, now: int, later: int)
    | Terminate(id: ContractId, now: int)
    | Others(event: E.Event)

  datatype Outcome = Outcome(store: Store, error: Option<Error>)

  function Fail(s: Store, e: Error): Outcome { Outcome(s, Some(e)) }

  function Put(s: Store, id: ContractId, c: Contract): Store {
    s.(contracts := s.contracts[id := c])
  }

  // ----------------------------------------------------------- operations

  function CreateContract(s: Store, e: Event): Outcome
    requires e.Create?
  {
    if e.publisher == "" || e.provider == "" || e.file == "" then Fail(s, MissingField)
    else if e.payment <= 0 || e.duration <= 0 then Fail(s, BadTerms)
    else if e.chunks.None? || e.chunks.value <= 0 then Fail(s, NoChunkCount)
    else if !e.idOk then Fail(s, NoRandomness)
    else
      var c := Contract(e.publisher, e.provider, e.file, e.chunks.value, e.payment, 0, e.now + e.duration,
                        Proposed, [], [], [], P.PENDING);
      Outcome(Put(s, e.id, c), None)
  }

  function FundContract(s: Store, id: ContractId, amount: int64): Outcome {
    if id !in s.contracts then Fail(s, UnknownContract)
    else
      var c := s.contracts[id];
      if !c.state.Proposed? then Fail(s, WrongState)
      else if amount != c.payment then Fail(s, WrongAmount)
      else if !CanTransition(c.state, Agreed) then Fail(s, BadTransition)
      else Outcome(Put(s, id, c.(funded := amount, state := Agreed)), None)
  }

  datatype Generated = Generated(epochs: E.Store, error: Option<Error>)

  /** One challenge within an epoch; `counter` must be the epoch's own. */
  function Generate(es: E.Store, epoch: E.EpochId, counter: nat, d: Draw, g: Gaps): Generated {
    var es1 := E.After(es, g.compare);
    if epoch !in es1.epochs then Generated(es1, Some(EpochLost))
    else if es1.epochs[epoch].counter != counter then Generated(es1, Some(CounterMismatch))
    else if !d.nonceOk then Generated(es1, Some(NoRandomness))
    else
      var es2 := E.After(es1, g.select);
      var error := E.SelectError(es2, epoch, d.hash);
      if error.Some? then Generated(es2, Some(Epoch(error.value)))
      else Generated(E.SelectChunk(es2, epoch, d.hash), None)
  }

  function NewEpochFor(c: Contract, d: Draw): (e: E.Event)
    ensures e.Create?
  {
    E.Create(d.epoch, c.provider, c.file, c.total, d.idOk)
  }

  /** Create an epoch and generate its first challenge. */
  function CreateChallenge(es: E.Store, c: Contract, d: Draw, g: Gaps): Generated {
    var es1, e := E.After(es, g.create), NewEpochFor(c, d);
    if E.CreateError(e).Some? then Generated(es1, Some(Epoch(E.CreateError(e).value)))
    else Generate(E.CreateEpoch(es1, e), d.epoch, 0, d, g)
  }

  /** The tracked epoch can still be drawn from. */
  predicate Continues(s: Store, id: ContractId) {
    && id in s.tracked && s.tracked[id].epoch in s.epochs.epochs
    && s.epochs.epochs[s.tracked[id].epoch].active
    && s.epochs.epochs[s.tracked[id].epoch].uncovered != []
    && !s.tracked[id].endAfterCurrent
  }

  function Challenge(s: Store, id: ContractId, d: Draw, g: Gaps): Generated
    requires id in s.contracts
  {
    if id in s.tracked && s.tracked[id].epoch !in s.epochs.epochs then Generated(s.epochs, Some(EpochLost))
    else if Continues(s, id)
    then Generate(s.epochs, s.tracked[id].epoch, s.epochs.epochs[s.tracked[id].epoch].counter, d, g)
    else CreateChallenge(s.epochs, s.contracts[id], d, g)
  }

  /** The epochs when a challenge starts to draw from its epoch. */
  function Opened(s: Store, id: ContractId, d: Draw, g: Gaps): E.Store
    requires id in s.contracts
  {
    if Continues(s, id) then s.epochs
    else E.Step(E.After(s.epochs, g.create), NewEpochFor(s.contracts[id], d))
  }

  function DrawnFrom(s: Store, id: ContractId, d: Draw): E.EpochId {
    if Continues(s, id) then s.tracked[id].epoch else d.epoch
  }

  function InitiateChallenge(s: Store, id: ContractId, now: int, d: Draw, gaps: Gaps): Outcome {
    if id !in s.contracts then Fail(s, UnknownContract)
    else
      var c := s.contracts[id];
      if !(c.state.Agreed? || c.state.Active?) || c.funded != c.payment then Fail(s, WrongState)
      else if now >= c.endsAt then Fail(Put(s, id, c.(state := Expired)), HasExpired)
      else
        var g := Challenge(s, id, d, gaps);
        if g.error.Some? then Fail(s.(epochs := g.epochs), g.error.value)
        else
          Outcome(
            Store(s.contracts[id := c.(state := Active, challenges := c.challenges + [d.challenge])],
                  s.owners[d.challenge := id], s.tracked[id := Tracked(DrawnFrom(s, id, d), d.trigger)], g.epochs),
            None)
  }

  predicate Recorded(results: seq<Verdict>, challenge: ChallengeId) {
    exists i :: 0 <= i < |results| && results[i].challenge == challenge
  }

  function RecordResult(
    s: Store, id: ContractId, challenge: ChallengeId, named: ChallengeId, succeeded: bool): Outcome
  {
    if id !in s.contracts then Fail(s, UnknownContract)
    else
      var c := s.contracts[id];
      if !c.state.Active? then Fail(s, WrongState)
      else if challenge !in s.owners || s.owners[challenge] != id then Fail(s, NotOwner)
      else if named != "" && named != challenge then Fail(s, NotTheChallenge)
      else if Recorded(c.results, challenge) then Fail(s, AlreadyRecorded)
      else
        var report := Report(id, c.provider, |c.reports| + 1, challenge, succeeded);
        var results, reports := c.results + [Verdict(challenge, succeeded)], c.reports + [report];
        Outcome(Put(s, id, c.(results := results, reports := reports)), None)
  }

  function Bits(results: seq<Verdict>): (bits: seq<bool>)
    ensures |bits| == |results|
  {
    seq(|results|, i requires 0 <= i < |results| => results[i].succeeded)
  }

  function SettleContract(s: Store, id: ContractId, now: int, later: int): Outcome {
    if id !in s.contracts then Fail(s, UnknownContract)
    else
      var c := s.contracts[id];
      if !c.state.Active? && !c.state.Expired? then Fail(s, WrongState)
      else if c.results == [] then Fail(s, NoResults)
      else
        var calculated := P.Calculate(c.funded, Bits(c.results));
        if calculated.Err? then Fail(s, Unsettled(calculated.error))
        else
          var c' := c.(settlement := calculated.value);
          var next := if now >= c.endsAt then Expired else Completed;
          if !CanTransition(c.state, next) then Fail(Put(s, id, c'), BadTransition)
          else Outcome(Put(s, id, c'.(state := next, settlement := calculated.value.(finalized := Some(later)))), None)
  }

  function TerminateContract(s: Store, id: ContractId, now: int): Outcome {
    if id !in s.contracts then Fail(s, UnknownContract)
    else
      var c := s.contracts[id];
      if c.state.Terminal() then Fail(s, WrongState)
      else if !CanTransition(c.state, Terminated) then Fail(s, BadTransition)
      else Outcome(Put(s, id, c.(state := Terminated,
                                 settlement := c.settlement.(status := P.Terminated, finalized := Some(now)))), None)
  }

  function Apply(s: Store, e: Event): Outcome {
    match e
    case Create(_, _, _, _, _, _, _, _, _) => CreateContract(s, e)
    case Fund(id, amount) => FundContract(s, id, amount)
    case Initiate(id, now, d, g) => InitiateChallenge(s, id, now, d, g)
    case Record(id, challenge, named, succeeded) => RecordResult(s, id, challenge, named, succeeded)
    case Settle(id, now, later) => SettleContract(s, id, now, later)
    case Terminate(id, now) => TerminateContract(s, id, now)
    case Others(event) => Outcome(s.(epochs := E.Step(s.epochs, event)), None)
  }

  /** Others, too, only use new identifiers for new epochs. */
  predicate GapsFit(s: Store, id: ContractId, d: Draw, g: Gaps)
    requires id in s.contracts
  {
    && E.Feasible(s.epochs, g.create) && d.epoch !in E.After(s.epochs, g.create).epochs
    && E.Feasible(Opened(s, id, d, g), g.compare)
    && E.Feasible(E.After(Opened(s, id, d, g), g.compare), g.select)
  }

  /** Random identifiers are taken to be unused. */
  predicate Enabled(s: Store, e: Event) {
    match e
    case Create(id, _, _, _, _, _, _, _, _) => id !in s.contracts
    case Initiate(id, _, d, g) => d.epoch != "" && d.hash != [] && (id in s.contracts ==> GapsFit(s, id, d, g))
    case Others(event) => E.Enabled(s.epochs, event)
    case _ => true
  }

  predicate Feasible(s: Store, es: seq<Event>)
    decreases |es|
  {
    es == [] || (Enabled(s, es[0]) && Feasible(Apply(s, es[0]).store, es[1..]))
  }

  function After(s: Store, es: seq<Event>): Store
    requires Feasible(s, es)
    decreases |es|
  {
    if es == [] then s else After(Apply(s, es[0]).store, es[1..])
  }

  const EMPTY := Store(map[], map[], map[], E.EMPTY)
}
