/** What the ledger hands out, told by the calls that were made: who was bound to what, on
    which terms, which dispatches were answered and what every artifact says. */
module LedgerRecords {
  import opened Bytes
  import opened Options
  import opened Preimages
  import opened Ledger
  import opened LedgerSafety

  /** A dispatch that was answered, and the answer. */
  datatype Call = Call(op: Op, output: Output)

  function Answered(k: Crypto, s: State, op: Op, contract: text): seq<Call> {
    if op.DispatchOp? && op.result.contract == contract &&
       Dispatch(k, s, op.result, op.sig, op.validUntil, op.now).Ok?
    then [Call(op, Dispatch(k, s, op.result, op.sig, op.validUntil, op.now).value.1)]
    else []
  }

  /** The dispatches for a contract that were answered, in order. */
  function Calls(k: Crypto, s: State, ops: seq<Op>, contract: text): seq<Call> {
    if ops == [] then []
    else
      var n := |ops| - 1;
      Calls(k, s, ops[..n], contract) + Answered(k, ApplyAll(k, s, ops[..n]), ops[n], contract)
  }

  // ------------------------------------------------------------ challenges, once each

  ghost predicate SeenIn(h: seq<Entry>, challenge: text) {
    exists i :: 0 <= i < |h| && h[i].input.challenge == challenge
  }

  ghost predicate Remembers(sc: Schedule, h: seq<Entry>) {
    && (forall x :: x in sc.processed <==> SeenIn(h, x))
    && forall i, j :: 0 <= i < j < |h| ==> h[i].input.challenge != h[j].input.challenge
  }

  ghost predicate AllRemember(s: State) {
    forall c :: c in s.schedules ==> Remembers(s.schedules[c], History(s, c))
  }

  lemma RemembersMore(sc: Schedule, sc': Schedule, h: seq<Entry>, e: Entry)
    requires Remembers(sc, h) && e.input.challenge !in sc.processed
    requires sc'.processed == sc.processed + {e.input.challenge}
    ensures Remembers(sc', h + [e])
  {
    forall x
      ensures SeenIn(h + [e], x) <==> SeenIn(h, x) || x == e.input.challenge
    {
      if SeenIn(h, x) {
        var i :| 0 <= i < |h| && h[i].input.challenge == x;
        assert (h + [e])[i].input.challenge == x;
      }
      assert (h + [e])[|h|] == e;
    }
    forall i | 0 <= i < |h|
      ensures h[i].input.challenge != e.input.challenge
    {
      assert SeenIn(h, h[i].input.challenge);
    }
  }

  /** An answered dispatch records its challenge, and nothing is changed otherwise. */
  lemma DispatchRecords(k: Crypto, s: State, op: Op, c: text)
    requires op.DispatchOp? && op.result.contract == c && Answered(k, s, op, c) != []
    ensures
      var s', e := Apply(k, s, op), Entry(op.result, Answered(k, s, op, c)[0].output);
      && c in s.schedules && c in s'.schedules && Admit(s, op.result).None?
      && s'.schedules[c].processed == s.schedules[c].processed + {op.result.challenge}
      && History(s', c) == History(s, c) + [e]
      && s'.schedules[c].escrow == s.schedules[c].escrow
  {}

  lemma UnansweredKeeps(k: Crypto, s: State, op: Op, c: text)
    requires op.DispatchOp? && Answered(k, s, op, c) == [] && op.result.contract == c
    ensures Apply(k, s, op) == s
  {}

  lemma RegisterKeeps(k: Crypto, s: State, op: Op, c: text)
    requires op.RegisterScheduleOp? && op.contract == c
    ensures
      var s' := Apply(k, s, op);
      s' == s || (&& c !in s.schedules && c in s'.schedules && s'.schedules[c].processed == {}
                  && c in s'.issued && s'.issued[c] == [])
  {}

  lemma RemembersStep(k: Crypto, s: State, op: Op, c: text)
    requires AllRemember(s) && c in Apply(k, s, op).schedules
    ensures Remembers(Apply(k, s, op).schedules[c], History(Apply(k, s, op), c))
  {
    if Touched(op) != Some(c) {
      OpFrame(k, s, op, c);
    } else if op.RegisterScheduleOp? {
      RegisterKeeps(k, s, op, c);
    } else if Answered(k, s, op, c) == [] {
      UnansweredKeeps(k, s, op, c);
    } else {
      DispatchRecords(k, s, op, c);
      RemembersMore(s.schedules[c], Apply(k, s, op).schedules[c], History(s, c),
                    Entry(op.result, Answered(k, s, op, c)[0].output));
    }
  }

  lemma {:induction false} RemembersRun(k: Crypto, threshold: uint32, publisher: text, ttl: int, ops: seq<Op>)
    ensures AllRemember(ApplyAll(k, Empty(threshold, publisher, ttl), ops))
    decreases |ops|
  {
    if ops != [] {
      var n := |ops| - 1;
      var s := ApplyAll(k, Empty(threshold, publisher, ttl), ops[..n]);
      RemembersRun(k, threshold, publisher, ttl, ops[..n]);
      forall c | c in Apply(k, s, ops[n]).schedules
        ensures Remembers(Apply(k, s, ops[n]).schedules[c], History(Apply(k, s, ops[n]), c))
      {
        RemembersStep(k, s, ops[n], c);
      }
    }
  }

  /** No challenge is ever answered twice, and after any history a valid result for a
      registered contract is refused as a duplicate exactly if its challenge has been
      answered before. */
  lemma ChallengesOnceOnly(
    k: Crypto, s: State, r: Availability, sig: Option<bytes>, validUntil: uint64, now: int64)
    requires Reached(k, s) && r.contract in s.schedules
    ensures
      var h := History(s, r.contract);
      forall i, j :: 0 <= i < j < |h| ==> h[i].input.challenge != h[j].input.challenge
    ensures Validate(r).None? ==>
      (Dispatch(k, s, r, sig, validUntil, now) == Err(DuplicateChallenge) <==>
       exists i :: 0 <= i < |History(s, r.contract)| && History(s, r.contract)[i].input.challenge == r.challenge)
  {
    var threshold: uint32, publisher: text, ttl: int, ops: seq<Op> :|
      threshold >= 1 && s == ApplyAll(k, Empty(threshold, publisher, ttl), ops);
    RemembersRun(k, threshold, publisher, ttl, ops);
    assert Remembers(s.schedules[r.contract], History(s, r.contract));
    assert SeenIn(History(s, r.contract), r.challenge) <==> r.challenge in s.schedules[r.contract].processed;
  }

  // --------------------------------------------------------- the history is the calls

  ghost predicate Tells(h: seq<Entry>, calls: seq<Call>) {
    && |h| == |calls|
    && forall i :: 0 <= i < |h| ==> calls[i].op.DispatchOp? && h[i] == Entry(calls[i].op.result, calls[i].output)
  }

  lemma TellsStep(k: Crypto, s: State, op: Op, c: text, calls: seq<Call>)
    requires Inv(k, s) && Tells(History(s, c), calls)
    ensures Tells(History(Apply(k, s, op), c), calls + Answered(k, s, op, c))
  {
    if Touched(op) != Some(c) {
      OpFrame(k, s, op, c);
      assert calls + [] == calls;
    } else if op.RegisterScheduleOp? {
      RegisterKeeps(k, s, op, c);
      assert calls + [] == calls;
    } else if Answered(k, s, op, c) == [] {
      UnansweredKeeps(k, s, op, c);
      assert calls + [] == calls;
    } else {
      DispatchRecords(k, s, op, c);
    }
  }

  /** Whether a call was answered shows in the history, and nothing else does. */
  lemma {:induction false} HistoryIsCalls(
    k: Crypto, threshold: uint32, publisher: text, ttl: int, ops: seq<Op>, contract: text)
    requires k.Correct() && threshold >= 1
    ensures
      var s0 := Empty(threshold, publisher, ttl);
      Tells(History(ApplyAll(k, s0, ops), contract), Calls(k, s0, ops, contract))
    decreases |ops|
  {
    if ops != [] {
      var n, s0 := |ops| - 1, Empty(threshold, publisher, ttl);
      HistoryIsCalls(k, threshold, publisher, ttl, ops[..n], contract);
      InvRun(k, threshold, publisher, ttl, ops[..n]);
      TellsStep(k, ApplyAll(k, s0, ops[..n]), ops[n], contract, Calls(k, s0, ops[..n], contract));
    }
  }

  // ------------------------------------------------------------ what artifacts say

  /** The artifact says what the call asked for: about whom, by whom, for which challenge
      and period, until when or at what time, and with whose signature. */
  ghost predicate SaysAll(k: Crypto, c: Coordinator, call: Call) {
    && call.op.DispatchOp? && call.op.result.provider in c.providers
    && var r, address := call.op.result, AddressString(c.providers[call.op.result.provider]);
       match call.output
       case Voucher(p) =>
         && r.status.Pass? && p.provider == address && p.publisher == c.publisher
         && p.period == r.period && p.lastChallenge == r.challenge && p.status == PASS_TEXT
         && p.validUntil == call.op.validUntil && Some(p.signature) == call.op.sig
       case Failure(rec, _, _, _) =>
         && r.status.Fail? && rec.providerAddress == address
         && rec.period == r.period && rec.challengeId == r.challenge && rec.issuedAt == call.op.now
         && rec.signature == k.sign(k.sha(FailPayload(rec)))
  }

  ghost predicate AllSay(k: Crypto, c: Coordinator, calls: seq<Call>) {
    forall i :: 0 <= i < |calls| ==> SaysAll(k, c, calls[i])
  }

  lemma PassSays(k: Crypto, s: State, op: Op)
    requires op.DispatchOp? && op.result.status.Pass? && Answered(k, s, op, op.result.contract) != []
    ensures SaysAll(k, s.coordinator, Answered(k, s, op, op.result.contract)[0])
  {}

  lemma FailSays(k: Crypto, s: State, op: Op)
    requires op.DispatchOp? && !op.result.status.Pass? && Answered(k, s, op, op.result.contract) != []
    ensures SaysAll(k, s.coordinator, Answered(k, s, op, op.result.contract)[0])
  {
    var rec := Answered(k, s, op, op.result.contract)[0].output.record;
    assert FailPayload(rec) == FailPayload(rec.(signature := []));
  }

  /** Bindings are write-once and the publisher stays the same. */
  lemma SaysLater(k: Crypto, s: State, op: Op, calls: seq<Call>)
    requires AllSay(k, s.coordinator, calls)
    ensures AllSay(k, Apply(k, s, op).coordinator, calls)
  {
    OpGrows(k, s, op);
    SamePublisher(k, s, op);
    forall i | 0 <= i < |calls|
      ensures SaysAll(k, Apply(k, s, op).coordinator, calls[i])
    {
      assert SaysAll(k, s.coordinator, calls[i]);
    }
  }

  lemma SamePublisher(k: Crypto, s: State, op: Op)
    ensures Apply(k, s, op).coordinator.publisher == s.coordinator.publisher
  {}

  lemma SaysStep(k: Crypto, s: State, op: Op, c: text, calls: seq<Call>)
    requires AllSay(k, s.coordinator, calls)
    ensures AllSay(k, Apply(k, s, op).coordinator, calls + Answered(k, s, op, c))
  {
    var answered := Answered(k, s, op, c);
    if answered != [] {
      if op.result.status.Pass? {
        PassSays(k, s, op);
      } else {
        FailSays(k, s, op);
      }
      assert SaysAll(k, s.coordinator, answered[0]);
      assert AllSay(k, s.coordinator, calls + answered);
      SaysLater(k, s, op, calls + answered);
    } else {
      assert calls + answered == calls;
      SaysLater(k, s, op, calls);
    }
  }

  lemma {:induction false} SaysRun(
    k: Crypto, threshold: uint32, publisher: text, ttl: int, ops: seq<Op>, contract: text)
    ensures
      var s0 := Empty(threshold, publisher, ttl);
      AllSay(k, ApplyAll(k, s0, ops).coordinator, Calls(k, s0, ops, contract))
    ensures ApplyAll(k, Empty(threshold, publisher, ttl), ops).coordinator.publisher == publisher
    decreases |ops|
  {
    if ops != [] {
      var n, s0 := |ops| - 1, Empty(threshold, publisher, ttl);
      SaysRun(k, threshold, publisher, ttl, ops[..n], contract);
      SaysStep(k, ApplyAll(k, s0, ops[..n]), ops[n], contract, Calls(k, s0, ops[..n], contract));
      SamePublisher(k, ApplyAll(k, s0, ops[..n]), ops[n]);
    }
  }

  /** After any history: the i-th artifact of a contract answers the i-th dispatch that was
      answered for it, and says everything that dispatch asked for, on top of its sequence
      number, its amount and its evidence. */
  lemma ArtifactsAnswerCalls(
    k: Crypto, threshold: uint32, publisher: text, ttl: int, ops: seq<Op>, contract: text, i: nat)
    requires k.Correct() && threshold >= 1
    requires i < |Calls(k, Empty(threshold, publisher, ttl), ops, contract)|
    ensures
      var s0 := Empty(threshold, publisher, ttl);
      var s, call := ApplyAll(k, s0, ops), Calls(k, s0, ops, contract)[i];
      && s.coordinator.publisher == publisher && contract in s.schedules && |History(s, contract)| > i
      && SaysAll(k, s.coordinator, call) && History(s, contract)[i] == Entry(call.op.result, call.output)
      && RightArtifact(k, s, s.schedules[contract], History(s, contract), i)
  {
    var s := ApplyAll(k, Empty(threshold, publisher, ttl), ops);
    HistoryIsCalls(k, threshold, publisher, ttl, ops, contract);
    SaysRun(k, threshold, publisher, ttl, ops, contract);
    InvRun(k, threshold, publisher, ttl, ops);
    assert contract in s.issued;
    assert Good(k, s, contract);
  }

  // -------------------------------------------------------- registrations count once

  predicate ValidTerms(escrow: EscrowId, perPass: uint64, maxPayment: uint64) {
    !IsZero(escrow) && 0 < perPass <= maxPayment
  }

  /** The address in the first valid registration of a provider. */
  function FirstAddress(ops: seq<Op>, peer: text): Option<Address> {
    if ops == [] then None
    else
      var op, before := ops[|ops| - 1], FirstAddress(ops[..|ops| - 1], peer);
      if before.Some? then before
      else if op.RegisterProviderOp? && op.peer == peer != [] && !IsZero(op.address) then Some(op.address)
      else None
  }

  /** The escrow in the first valid registration of a contract, with a schedule or not. */
  function FirstEscrow(ops: seq<Op>, contract: text): Option<EscrowId> {
    if ops == [] then None
    else
      var op, before := ops[|ops| - 1], FirstEscrow(ops[..|ops| - 1], contract);
      if before.Some? then before
      else if op.RegisterContractOp? && op.contract == contract != [] && !IsZero(op.escrow) then Some(op.escrow)
      else if op.RegisterScheduleOp? && op.contract == contract != [] &&
              ValidTerms(op.escrow, op.perPass, op.maxPayment) then Some(op.escrow)
      else None
  }

  datatype Terms = Terms(escrow: EscrowId, perPass: uint64, maxPayment: uint64)

  /** The terms of the first valid schedule of a contract that agrees with its escrow. */
  function FirstTerms(ops: seq<Op>, contract: text): Option<Terms> {
    if ops == [] then None
    else
      var op, before := ops[|ops| - 1], FirstTerms(ops[..|ops| - 1], contract);
      if before.Some? then before
      else if op.RegisterScheduleOp? && op.contract == contract != [] &&
              ValidTerms(op.escrow, op.perPass, op.maxPayment) &&
              FirstEscrow(ops, contract) == Some(op.escrow)
      then Some(Terms(op.escrow, op.perPass, op.maxPayment))
      else None
  }

  function AddressOf(s: State, peer: text): Option<Address> {
    if peer in s.coordinator.providers then Some(s.coordinator.providers[peer]) else None
  }

  function EscrowOf(s: State, contract: text): Option<EscrowId> {
    if contract in s.coordinator.contracts then Some(s.coordinator.contracts[contract]) else None
  }

  function TermsOf(s: State, contract: text): Option<Terms> {
    if contract in s.schedules
    then Some(Terms(s.schedules[contract].escrow, s.schedules[contract].perPass, s.schedules[contract].maxPayment))
    else None
  }

  lemma AddressStep(k: Crypto, s: State, op: Op, peer: text)
    ensures
      AddressOf(Apply(k, s, op), peer) ==
        if AddressOf(s, peer).Some? then AddressOf(s, peer)
        else if op.RegisterProviderOp? && op.peer == peer != [] && !IsZero(op.address) then Some(op.address)
        else None
  {}

  lemma EscrowStep(k: Crypto, s: State, op: Op, contract: text)
    requires Inv(k, s)
    ensures
      EscrowOf(Apply(k, s, op), contract) ==
        if EscrowOf(s, contract).Some? then EscrowOf(s, contract)
        else if op.RegisterContractOp? && op.contract == contract != [] && !IsZero(op.escrow) then Some(op.escrow)
        else if op.RegisterScheduleOp? && op.contract == contract != [] &&
                ValidTerms(op.escrow, op.perPass, op.maxPayment) then Some(op.escrow)
        else None
  {
    if op.DispatchOp? || op.RegisterProviderOp? || op.SetLifetimeOp? {
      ContractsStay(k, s, op);
    } else if contract in s.schedules {
      assert Good(k, s, contract);
    }
  }

  lemma ContractsStay(k: Crypto, s: State, op: Op)
    requires op.DispatchOp? || op.RegisterProviderOp? || op.SetLifetimeOp?
    ensures Apply(k, s, op).coordinator.contracts == s.coordinator.contracts
  {}

  lemma TermsStep(k: Crypto, s: State, op: Op, contract: text)
    requires Inv(k, s)
    ensures
      TermsOf(Apply(k, s, op), contract) ==
        if TermsOf(s, contract).Some? then TermsOf(s, contract)
        else if op.RegisterScheduleOp? && op.contract == contract != [] &&
                ValidTerms(op.escrow, op.perPass, op.maxPayment) &&
                (EscrowOf(s, contract).None? || EscrowOf(s, contract) == Some(op.escrow))
        then Some(Terms(op.escrow, op.perPass, op.maxPayment))
        else None
  {}

  /** After any history, providers, contracts and schedules are exactly what their first
      valid registration said. */
  lemma {:induction false} RegistrationsCountOnce(
    k: Crypto, threshold: uint32, publisher: text, ttl: int, ops: seq<Op>, peer: text, contract: text)
    requires k.Correct() && threshold >= 1
    ensures
      var s := ApplyAll(k, Empty(threshold, publisher, ttl), ops);
      && AddressOf(s, peer) == FirstAddress(ops, peer)
      && EscrowOf(s, contract) == FirstEscrow(ops, contract)
      && TermsOf(s, contract) == FirstTerms(ops, contract)
    decreases |ops|
  {
    if ops != [] {
      var n := |ops| - 1;
      var s := ApplyAll(k, Empty(threshold, publisher, ttl), ops[..n]);
      RegistrationsCountOnce(k, threshold, publisher, ttl, ops[..n], peer, contract);
      InvRun(k, threshold, publisher, ttl, ops[..n]);
      AddressStep(k, s, ops[n], peer);
      EscrowStep(k, s, ops[n], contract);
      TermsStep(k, s, ops[n], contract);
    }
  }
}
