/** What every history of the ledger keeps: capped payments, gap-free sequence numbers,
    the slashing rule with its evidence, and agreement between the two stores. */
module LedgerSafety {
  import opened Bytes
  import opened Options
  import opened Preimages
  import opened Ledger
  import opened Shared

  // ------------------------------------------------ reading off a history

  function Passes(h: seq<Entry>): nat {
    if h == [] then 0 else Passes(h[..|h| - 1]) + (if h[|h| - 1].output.Voucher? then 1 else 0)
  }

  /** The fail records at the end of the history, oldest first. */
  function Trail(h: seq<Entry>): seq<FailRecord> {
    if h == [] || h[|h| - 1].output.Voucher? then []
    else Trail(h[..|h| - 1]) + [h[|h| - 1].output.record]
  }

  function LastVoucher(h: seq<Entry>): Option<PaymentState> {
    if h == [] then None
    else if h[|h| - 1].output.Voucher? then Some(h[|h| - 1].output.state)
    else LastVoucher(h[..|h| - 1])
  }

  function Paid(sc: Schedule, h: seq<Entry>): int {
    Min(Passes(h) * sc.perPass, sc.maxPayment)
  }

  lemma Snoc(h: seq<Entry>, e: Entry)
    ensures (h + [e])[..|h|] == h
    ensures Passes(h + [e]) == Passes(h) + (if e.output.Voucher? then 1 else 0)
    ensures Trail(h + [e]) == if e.output.Voucher? then [] else Trail(h) + [e.output.record]
    ensures LastVoucher(h + [e]) == if e.output.Voucher? then Some(e.output.state) else LastVoucher(h)
  {
    assert (h + [e])[..|h|] == h;
  }

  lemma LastOfSnoc<T>(q: seq<T>, x: T, n: nat)
    requires n > 0
    ensures LastOf(LastOf(q, n) + [x], n) == LastOf(q + [x], n)
  {}

  // ------------------------------------------------------------ invariant

  /** Entry `i` carries the right sequence number, amount, identity and slashing flag. */
  ghost predicate RightArtifact(k: Crypto, s: State, sc: Schedule, h: seq<Entry>, i: nat)
    requires i < |h|
  {
    var e, upTo := h[i], h[..i + 1];
    match e.output
    case Voucher(p) =>
      && e.input.status.Pass?
      && p.contractId == EscrowString(sc.escrow)
      && p.sequence == i + 1
      && p.cumulative == Paid(sc, upTo)
    case Failure(rec, consecutive, eligible, evidence) =>
      && e.input.status.Fail?
      && rec.escrowId == EscrowString(sc.escrow)
      && rec.sequence == i + 1
      && VerifyFailRecord(k, k.pub, rec)
      && e.input.provider in s.coordinator.providers
      && rec.providerAddress == AddressString(s.coordinator.providers[e.input.provider])
      && consecutive == Min(|Trail(upTo)|, UINT32_MAX)
      && (eligible <==> |Trail(upTo)| >= s.threshold)
      && evidence == (if eligible then LastOf(Trail(upTo), s.threshold) else [])
  }

  ghost predicate Good(k: Crypto, s: State, contract: text)
    requires contract in s.schedules
  {
    var sc, h := s.schedules[contract], History(s, contract);
    && contract in s.issued
    && 0 < sc.perPass <= sc.maxPayment
    && contract in s.coordinator.contracts
    && s.coordinator.contracts[contract] == sc.escrow
    && EscrowString(sc.escrow) in s.coordinator.stores
    && |h| == sc.sequence
    && sc.cumulative == Paid(sc, h)
    && sc.failures == Min(|Trail(h)|, UINT32_MAX)
    && sc.streak == LastOf(Trail(h), s.threshold)
    && (forall i :: 0 <= i < |h| ==> RightArtifact(k, s, sc, h, i))
  }

  ghost predicate Inv(k: Crypto, s: State) {
    && s.threshold >= 1
    && (forall c :: c in s.issued ==> c in s.schedules)
    && (forall c :: c in s.schedules ==> Good(k, s, c))
  }

  // ---------------------------------------------------------- preservation

  /** Bindings are write-once and stores are never removed. */
  ghost predicate Grows(a: Coordinator, b: Coordinator) {
    && (forall p :: p in a.providers ==> p in b.providers && b.providers[p] == a.providers[p])
    && (forall c :: c in a.contracts ==> c in b.contracts && b.contracts[c] == a.contracts[c])
    && (forall e :: e in a.stores ==> e in b.stores)
  }

  lemma GoodFrame(k: Crypto, s: State, s': State, contract: text)
    requires contract in s.schedules && Good(k, s, contract)
    requires Grows(s.coordinator, s'.coordinator) && s'.threshold == s.threshold
    requires contract in s'.schedules && s'.schedules[contract] == s.schedules[contract]
    requires contract in s'.issued && s'.issued[contract] == History(s, contract)
    ensures Good(k, s', contract)
  {
    var sc, h := s.schedules[contract], History(s, contract);
    forall i | 0 <= i < |h|
      ensures RightArtifact(k, s', sc, h, i)
    {
      assert RightArtifact(k, s, sc, h, i);
    }
  }

  lemma PrefixArtifact(k: Crypto, s: State, s': State, sc: Schedule, sc': Schedule, h: seq<Entry>, e: Entry, i: nat)
    requires i < |h| && RightArtifact(k, s, sc, h, i)
    requires sc'.escrow == sc.escrow && sc'.perPass == sc.perPass && sc'.maxPayment == sc.maxPayment
    requires Grows(s.coordinator, s'.coordinator) && s'.threshold == s.threshold
    ensures RightArtifact(k, s', sc', h + [e], i)
  {
    assert (h + [e])[..i + 1] == h[..i + 1];
  }

  lemma PaidMore(sc: Schedule, sc': Schedule, h: seq<Entry>, e: Entry)
    requires e.output.Voucher? && sc.cumulative == Paid(sc, h)
    requires sc'.perPass == sc.perPass && sc'.maxPayment == sc.maxPayment
    ensures NextCumulative(sc) == Paid(sc', h + [e])
  {
    CappedAddition(sc);
    Snoc(h, e);
    assert (Passes(h) + 1) * sc.perPass == Passes(h) * sc.perPass + sc.perPass;
  }

  lemma PassGood(k: Crypto, s: State, r: Availability, sig: Option<bytes>, validUntil: uint64)
    requires Inv(k, s) && Admit(s, r).None? && r.status.Pass? && DispatchPass(s, r, sig, validUntil).Ok?
    ensures Good(k, DispatchPass(s, r, sig, validUntil).value.0, r.contract)
  {
    var out := DispatchPass(s, r, sig, validUntil).value;
    var s' := out.0;
    var sc, sc', h := s.schedules[r.contract], s'.schedules[r.contract], History(s, r.contract);
    var e := Entry(r, out.1);
    assert Good(k, s, r.contract);
    assert Grows(s.coordinator, s'.coordinator);
    assert History(s', r.contract) == h + [e];
    Snoc(h, e);
    PaidMore(sc, sc', h, e);
    forall i | 0 <= i < |h + [e]|
      ensures RightArtifact(k, s', sc', h + [e], i)
    {
      if i < |h| {
        PrefixArtifact(k, s, s', sc, sc', h, e, i);
      } else {
        assert (h + [e])[..i + 1] == h + [e];
      }
    }
  }

  lemma SignedVerifies(k: Crypto, escrow: EscrowId, address: text, r: Availability, sequence: uint64, now: int64)
    requires k.Correct()
    ensures VerifyFailRecord(k, k.pub, SignedRecord(k, escrow, address, r, sequence, now))
  {
    var rec := SignedRecord(k, escrow, address, r, sequence, now);
    assert FailPayload(rec) == FailPayload(rec.(signature := []));
  }

  lemma FailGood(k: Crypto, s: State, r: Availability, now: int64)
    requires k.Correct() && Inv(k, s) && Admit(s, r).None? && r.status.Fail? && DispatchFail(k, s, r, now).Ok?
    ensures Good(k, DispatchFail(k, s, r, now).value.0, r.contract)
  {
    var out := DispatchFail(k, s, r, now).value;
    var s' := out.0;
    var sc, sc', h := s.schedules[r.contract], s'.schedules[r.contract], History(s, r.contract);
    var e := Entry(r, out.1);
    assert Good(k, s, r.contract);
    assert History(s', r.contract) == h + [e];
    Snoc(h, e);
    LastOfSnoc(Trail(h), out.1.record, s.threshold);
    SignedVerifies(k, sc.escrow, AddressString(s.coordinator.providers[r.provider]), r, sc.sequence + 1, now);
    forall i | 0 <= i < |h + [e]|
      ensures RightArtifact(k, s', sc', h + [e], i)
    {
      if i < |h| {
        PrefixArtifact(k, s, s', sc, sc', h, e, i);
      } else {
        assert (h + [e])[..i + 1] == h + [e];
      }
    }
  }

  lemma OpGrows(k: Crypto, s: State, op: Op)
    ensures Grows(s.coordinator, Apply(k, s, op).coordinator) && Apply(k, s, op).threshold == s.threshold
  {}

  /** The only schedule an operation can touch. */
  function Touched(op: Op): Option<text> {
    match op
    case RegisterScheduleOp(contract, _, _, _) => Some(contract)
    case DispatchOp(r, _, _, _) => Some(r.contract)
    case _ => None
  }

  lemma OpFrame(k: Crypto, s: State, op: Op, c: text)
    requires Some(c) != Touched(op) || Apply(k, s, op) == s
    ensures c in Apply(k, s, op).schedules <==> c in s.schedules
    ensures c in Apply(k, s, op).issued <==> c in s.issued
    ensures c in s.schedules ==> Apply(k, s, op).schedules[c] == s.schedules[c]
    ensures c in s.issued ==> Apply(k, s, op).issued[c] == s.issued[c]
  {}

  lemma TouchedGood(k: Crypto, s: State, op: Op, c: text)
    requires k.Correct() && Inv(k, s) && Touched(op) == Some(c) && c in Apply(k, s, op).schedules
    ensures Good(k, Apply(k, s, op), c)
  {
    var s' := Apply(k, s, op);
    if op.DispatchOp? && Admit(s, op.result).None? {
      if op.result.status.Pass? && DispatchPass(s, op.result, op.sig, op.validUntil).Ok? {
        PassGood(k, s, op.result, op.sig, op.validUntil);
      } else if op.result.status.Fail? && DispatchFail(k, s, op.result, op.now).Ok? {
        FailGood(k, s, op.result, op.now);
      }
    }
  }

  lemma InvStep(k: Crypto, s: State, op: Op)
    requires k.Correct() && Inv(k, s)
    ensures Inv(k, Apply(k, s, op))
  {
    var s' := Apply(k, s, op);
    OpGrows(k, s, op);
    forall c | c in s'.schedules
      ensures Good(k, s', c)
    {
      if Some(c) == Touched(op) {
        TouchedGood(k, s, op, c);
      } else {
        OpFrame(k, s, op, c);
        GoodFrame(k, s, s', c);
      }
    }
    forall c | c in s'.issued
      ensures c in s'.schedules
    {
      if Some(c) != Touched(op) {
        OpFrame(k, s, op, c);
      }
    }
  }

  lemma {:induction false} InvRun(k: Crypto, threshold: uint32, publisher: text, ttl: int, ops: seq<Op>)
    requires k.Correct() && threshold >= 1
    ensures Inv(k, ApplyAll(k, Empty(threshold, publisher, ttl), ops))
    decreases |ops|
  {
    if ops != [] {
      InvRun(k, threshold, publisher, ttl, ops[..|ops| - 1]);
      InvStep(k, ApplyAll(k, Empty(threshold, publisher, ttl), ops[..|ops| - 1]), ops[|ops| - 1]);
    }
  }

  /** Some history of API calls, from an empty ledger with K at least 1, leads to `s`. */
  ghost predicate Reached(k: Crypto, s: State) {
    exists threshold: uint32, publisher: text, ttl: int, ops: seq<Op> ::
      threshold >= 1 && s == ApplyAll(k, Empty(threshold, publisher, ttl), ops)
  }

  lemma ReachedInv(k: Crypto, s: State)
    requires k.Correct() && Reached(k, s)
    ensures Inv(k, s)
  {
    var threshold: uint32, publisher: text, ttl: int, ops: seq<Op> :|
      threshold >= 1 && s == ApplyAll(k, Empty(threshold, publisher, ttl), ops);
    InvRun(k, threshold, publisher, ttl, ops);
  }

  /** One more call leads to a reached state again. */
  lemma ReachedStep(k: Crypto, s: State, op: Op)
    requires Reached(k, s)
    ensures Reached(k, Apply(k, s, op))
  {
    var threshold: uint32, publisher: text, ttl: int, ops: seq<Op> :|
      threshold >= 1 && s == ApplyAll(k, Empty(threshold, publisher, ttl), ops);
    assert (ops + [op])[..|ops|] == ops;
    assert Apply(k, s, op) == ApplyAll(k, Empty(threshold, publisher, ttl), ops + [op]);
  }

  // ----------------------------------------------- the two stores agree

  predicate OneSchedulePerEscrow(s: State) {
    forall a, b :: a in s.schedules && b in s.schedules && s.schedules[a].escrow == s.schedules[b].escrow ==> a == b
  }

  /** The coordinator's latest voucher for a schedule's escrow is the last one its
      dispatches issued, and no other escrow has a voucher. */
  ghost predicate StoresAgree(s: State) {
    && (forall c :: c in s.schedules ==>
          && EscrowString(s.schedules[c].escrow) in s.coordinator.stores
          && s.coordinator.stores[EscrowString(s.schedules[c].escrow)] == LastVoucher(History(s, c)))
    && (forall e :: e in s.coordinator.stores && s.coordinator.stores[e].Some? ==>
          exists c :: c in s.schedules && EscrowString(s.schedules[c].escrow) == e)
  }

  /** A schedule keeps its escrow. */
  lemma EscrowKept(k: Crypto, s: State, op: Op, c: text)
    requires c in s.schedules
    ensures c in Apply(k, s, op).schedules && Apply(k, s, op).schedules[c].escrow == s.schedules[c].escrow
  {
    if Some(c) != Touched(op) {
      OpFrame(k, s, op, c);
    }
  }

  lemma OneScheduleBack(k: Crypto, s: State, op: Op)
    requires OneSchedulePerEscrow(Apply(k, s, op))
    ensures OneSchedulePerEscrow(s)
  {
    forall a, b | a in s.schedules && b in s.schedules && s.schedules[a].escrow == s.schedules[b].escrow
      ensures a == b
    {
      EscrowKept(k, s, op, a);
      EscrowKept(k, s, op, b);
    }
  }

  /** An escrow that gets its only schedule now has no voucher yet. */
  lemma FreshEscrow(k: Crypto, s: State, s': State, contract: text, key: text)
    requires StoresAgree(s) && OneSchedulePerEscrow(s') && contract !in s.schedules
    requires forall c :: c in s.schedules ==> c in s'.schedules && s'.schedules[c] == s.schedules[c]
    requires contract in s'.schedules && EscrowString(s'.schedules[contract].escrow) == key
    ensures key in s.coordinator.stores ==> s.coordinator.stores[key].None?
  {
    if key in s.coordinator.stores && s.coordinator.stores[key].Some? {
      var c :| c in s.schedules && EscrowString(s.schedules[c].escrow) == key;
      SameKeySameContract(s', c, contract);
      assert false;
    }
  }

  lemma AgreeRegistered(
    k: Crypto, s: State, s': State, contract: text, escrow: EscrowId, perPass: uint64, maxPayment: uint64)
    requires StoresAgree(s) && OneSchedulePerEscrow(s')
    requires RegisterSchedule(s, contract, escrow, perPass, maxPayment) == Ok(s')
    ensures StoresAgree(s')
  {
    FreshEscrow(k, s, s', contract, EscrowString(escrow));
    forall e | e in s'.coordinator.stores && s'.coordinator.stores[e].Some?
      ensures exists c :: c in s'.schedules && EscrowString(s'.schedules[c].escrow) == e
    {
      var c :| c in s.schedules && EscrowString(s.schedules[c].escrow) == e;
      assert c in s'.schedules && EscrowString(s'.schedules[c].escrow) == e;
    }
  }

  lemma AgreeRegister(k: Crypto, s: State, op: Op)
    requires StoresAgree(s) && op.RegisterScheduleOp? && OneSchedulePerEscrow(Apply(k, s, op))
    ensures StoresAgree(Apply(k, s, op))
  {
    var RegisterScheduleOp(contract, escrow, perPass, maxPayment) := op;
    if RegisterSchedule(s, contract, escrow, perPass, maxPayment).Ok? {
      AgreeRegistered(k, s, Apply(k, s, op), contract, escrow, perPass, maxPayment);
    }
  }

  lemma PassFacts(k: Crypto, s: State, r: Availability, sig: Option<bytes>, validUntil: uint64)
    requires Inv(k, s) && Admit(s, r).None? && r.status.Pass? && DispatchPass(s, r, sig, validUntil).Ok?
    ensures
      var (s', o) := DispatchPass(s, r, sig, validUntil).value;
      var key := EscrowString(s.schedules[r.contract].escrow);
      && o.Voucher?
      && s'.coordinator.stores == s.coordinator.stores[key := Some(o.state)]
      && s'.schedules.Keys == s.schedules.Keys
      && (forall c :: c in s.schedules ==> s'.schedules[c].escrow == s.schedules[c].escrow)
      && (forall c :: c != r.contract ==> History(s', c) == History(s, c))
      && LastVoucher(History(s', r.contract)) == Some(o.state)
  {
    var out := DispatchPass(s, r, sig, validUntil).value;
    assert Good(k, s, r.contract);
    Snoc(History(s, r.contract), Entry(r, out.1));
  }

  lemma SameKeySameContract(s: State, a: text, b: text)
    requires OneSchedulePerEscrow(s) && a in s.schedules && b in s.schedules
    requires EscrowString(s.schedules[a].escrow) == EscrowString(s.schedules[b].escrow)
    ensures a == b
  {
    EscrowStringInjective(s.schedules[a].escrow, s.schedules[b].escrow);
  }

  lemma AgreePass(k: Crypto, s: State, r: Availability, sig: Option<bytes>, validUntil: uint64)
    requires Inv(k, s) && StoresAgree(s) && OneSchedulePerEscrow(s)
    requires Admit(s, r).None? && r.status.Pass? && DispatchPass(s, r, sig, validUntil).Ok?
    ensures StoresAgree(DispatchPass(s, r, sig, validUntil).value.0)
  {
    PassFacts(k, s, r, sig, validUntil);
    var (s', o) := DispatchPass(s, r, sig, validUntil).value;
    AgreeUpdate(s, s', r.contract, o.state);
  }

  lemma AgreeUpdate(s: State, s': State, contract: text, p: PaymentState)
    requires StoresAgree(s) && OneSchedulePerEscrow(s) && contract in s.schedules
    requires s'.coordinator.stores == s.coordinator.stores[EscrowString(s.schedules[contract].escrow) := Some(p)]
    requires s'.schedules.Keys == s.schedules.Keys
    requires forall c :: c in s.schedules ==> s'.schedules[c].escrow == s.schedules[c].escrow
    requires forall c :: c != contract ==> History(s', c) == History(s, c)
    requires LastVoucher(History(s', contract)) == Some(p)
    ensures StoresAgree(s')
  {
    var key := EscrowString(s.schedules[contract].escrow);
    forall c | c in s'.schedules
      ensures s'.coordinator.stores[EscrowString(s'.schedules[c].escrow)] == LastVoucher(History(s', c))
    {
      if EscrowString(s.schedules[c].escrow) == key {
        SameKeySameContract(s, c, contract);
      }
    }
    forall e | e in s'.coordinator.stores && s'.coordinator.stores[e].Some?
      ensures exists c :: c in s'.schedules && EscrowString(s'.schedules[c].escrow) == e
    {
      if e == key {
        assert EscrowString(s'.schedules[contract].escrow) == e;
      } else {
        var c :| c in s.schedules && EscrowString(s.schedules[c].escrow) == e;
        assert EscrowString(s'.schedules[c].escrow) == e;
      }
    }
  }

  lemma AgreeFail(k: Crypto, s: State, r: Availability, now: int64)
    requires Inv(k, s) && StoresAgree(s)
    requires Admit(s, r).None? && r.status.Fail? && DispatchFail(k, s, r, now).Ok?
    ensures StoresAgree(DispatchFail(k, s, r, now).value.0)
  {
    var out := DispatchFail(k, s, r, now).value;
    var s' := out.0;
    Snoc(History(s, r.contract), Entry(r, out.1));
    forall e | e in s'.coordinator.stores && s'.coordinator.stores[e].Some?
      ensures exists c :: c in s'.schedules && EscrowString(s'.schedules[c].escrow) == e
    {
      var c :| c in s.schedules && EscrowString(s.schedules[c].escrow) == e;
      assert EscrowString(s'.schedules[c].escrow) == e;
    }
  }

  lemma AgreeBinding(k: Crypto, s: State, op: Op)
    requires StoresAgree(s) && (op.RegisterProviderOp? || op.RegisterContractOp? || op.SetLifetimeOp?)
    ensures StoresAgree(Apply(k, s, op))
  {
    var s' := Apply(k, s, op);
    assert s'.schedules == s.schedules && s'.issued == s.issued;
    assert forall e :: e in s.coordinator.stores ==>
      e in s'.coordinator.stores && s'.coordinator.stores[e] == s.coordinator.stores[e];
    assert forall c :: c in s.schedules ==> History(s', c) == History(s, c);
    assert forall e :: e in s'.coordinator.stores && s'.coordinator.stores[e].Some? ==> e in s.coordinator.stores;
  }

  lemma AgreeDispatch(k: Crypto, s: State, op: Op)
    requires Inv(k, s) && StoresAgree(s) && OneSchedulePerEscrow(s) && op.DispatchOp?
    ensures StoresAgree(Apply(k, s, op))
  {
    var DispatchOp(r, sig, validUntil, now) := op;
    if Admit(s, r).None? && r.status.Pass? && DispatchPass(s, r, sig, validUntil).Ok? {
      AgreePass(k, s, r, sig, validUntil);
    } else if Admit(s, r).None? && r.status.Fail? && DispatchFail(k, s, r, now).Ok? {
      AgreeFail(k, s, r, now);
    }
  }

  lemma AgreeStep(k: Crypto, s: State, op: Op)
    requires Inv(k, s) && StoresAgree(s) && OneSchedulePerEscrow(Apply(k, s, op))
    ensures StoresAgree(Apply(k, s, op))
  {
    OneScheduleBack(k, s, op);
    match op
    case RegisterScheduleOp(_, _, _, _) => AgreeRegister(k, s, op);
    case DispatchOp(_, _, _, _) => AgreeDispatch(k, s, op);
    case _ => AgreeBinding(k, s, op);
  }

  lemma {:induction false} AgreeRun(k: Crypto, threshold: uint32, publisher: text, ttl: int, ops: seq<Op>)
    requires k.Correct() && threshold >= 1
    requires OneSchedulePerEscrow(ApplyAll(k, Empty(threshold, publisher, ttl), ops))
    ensures StoresAgree(ApplyAll(k, Empty(threshold, publisher, ttl), ops))
    decreases |ops|
  {
    if ops != [] {
      var n := |ops| - 1;
      var s := ApplyAll(k, Empty(threshold, publisher, ttl), ops[..n]);
      InvRun(k, threshold, publisher, ttl, ops[..n]);
      OneScheduleBack(k, s, ops[n]);
      AgreeRun(k, threshold, publisher, ttl, ops[..n]);
      AgreeStep(k, s, ops[n]);
    }
  }

  /** With one schedule per escrow and only the dispatcher signing, both stores agree
      after every history. */
  lemma StoresAlwaysAgree(k: Crypto, s: State)
    requires k.Correct() && Reached(k, s) && OneSchedulePerEscrow(s)
    ensures StoresAgree(s)
  {
    var threshold: uint32, publisher: text, ttl: int, ops: seq<Op> :|
      threshold >= 1 && s == ApplyAll(k, Empty(threshold, publisher, ttl), ops);
    AgreeRun(k, threshold, publisher, ttl, ops);
  }

  lemma {:induction false} LastVoucherFacts(k: Crypto, s: State, sc: Schedule, h: seq<Entry>, n: nat)
    requires n <= |h| && forall i :: 0 <= i < n ==> RightArtifact(k, s, sc, h, i)
    requires LastVoucher(h[..n]).Some?
    ensures LastVoucher(h[..n]).value.sequence <= n
    ensures LastVoucher(h[..n]).value.cumulative == Paid(sc, h[..n])
    ensures LastVoucher(h[..n]).value.contractId == EscrowString(sc.escrow)
  {
    assert RightArtifact(k, s, sc, h, n - 1);
    if !h[n - 1].output.Voucher? {
      assert h[..n][..n - 1] == h[..n - 1];
      LastVoucherFacts(k, s, sc, h, n - 1);
    }
  }

  lemma AgreedPass(k: Crypto, s: State, r: Availability, sig: bytes, validUntil: uint64)
    requires Inv(k, s) && StoresAgree(s)
    requires Admit(s, r).None? && r.status.Pass?
    requires s.coordinator.ttl > 0 && s.coordinator.publisher != [] && sig != []
    ensures DispatchPass(s, r, Some(sig), validUntil).Ok? <==> r.provider in s.coordinator.providers
  {
    var sc, h := s.schedules[r.contract], History(s, r.contract);
    assert Good(k, s, r.contract);
    assert h[..|h|] == h;
    if LastVoucher(h).Some? {
      LastVoucherFacts(k, s, sc, h, |h|);
    }
    CappedAddition(sc);
  }

  // -------------------------------------------------------------- results

  /** After any history: the cumulative payment is the number of passes times the
      price, capped, and the i-th artifact of a contract, voucher or fail record,
      carries sequence number i. */
  lemma PaymentsAndSequences(k: Crypto, s: State, contract: text)
    requires k.Correct() && Reached(k, s) && contract in s.schedules
    ensures
      var sc, h := s.schedules[contract], History(s, contract);
      && sc.cumulative == Min(Passes(h) * sc.perPass, sc.maxPayment)
      && sc.sequence == |h|
      && (forall i :: 0 <= i < |h| ==>
            (if h[i].output.Voucher? then h[i].output.state.sequence else h[i].output.record.sequence) == i + 1)
  {
    ReachedInv(k, s);
    var sc, h := s.schedules[contract], History(s, contract);
    assert Good(k, s, contract);
    forall i | 0 <= i < |h|
      ensures (if h[i].output.Voucher? then h[i].output.state.sequence else h[i].output.record.sequence) == i + 1
    {
      assert RightArtifact(k, s, sc, h, i);
    }
  }

  /** A PASS that gets past the admission checks is issued whenever the provider is
      bound and the signer signs: with one schedule per escrow it is never stale. */
  lemma PassNeverStale(k: Crypto, s: State, r: Availability, sig: bytes, validUntil: uint64)
    requires k.Correct() && Reached(k, s) && OneSchedulePerEscrow(s)
    requires Admit(s, r).None? && r.status.Pass?
    requires s.coordinator.ttl > 0 && s.coordinator.publisher != [] && sig != []
    ensures DispatchPass(s, r, Some(sig), validUntil).Ok? <==> r.provider in s.coordinator.providers
  {
    ReachedInv(k, s);
    StoresAlwaysAgree(k, s);
    AgreedPass(k, s, r, sig, validUntil);
  }

  predicate AllFail(h: seq<Entry>) {
    forall i :: 0 <= i < |h| ==> h[i].output.Failure?
  }

  /** A trail of at least `n` means exactly that the last `n` dispatches all failed. */
  lemma {:induction false} TrailIsLastFails(h: seq<Entry>, n: nat)
    ensures |Trail(h)| >= n <==> |h| >= n && AllFail(h[|h| - n..])
    ensures |Trail(h)| <= |h|
  {
    if n == 0 {
      TrailShort(h);
    } else if h == [] || h[|h| - 1].output.Voucher? {
      if |h| >= n {
        assert h[|h| - n..][n - 1] == h[|h| - 1];
      }
      TrailShort(h);
    } else {
      var g := h[..|h| - 1];
      TrailIsLastFails(g, n - 1);
      if |h| >= n {
        assert h[|h| - n..] == g[|g| - (n - 1)..] + [h[|h| - 1]];
      }
    }
  }

  lemma {:induction false} TrailShort(h: seq<Entry>)
    ensures |Trail(h)| <= |h|
  {
    if h != [] {
      TrailShort(h[..|h| - 1]);
    }
  }

  /** The j-th record of the trail is the one issued j places into the failing tail. */
  lemma {:induction false} TrailAt(h: seq<Entry>, j: nat)
    requires j < |Trail(h)|
    ensures |Trail(h)| <= |h|
    ensures h[|h| - |Trail(h)| + j].output.Failure? && h[|h| - |Trail(h)| + j].output.record == Trail(h)[j]
  {
    TrailShort(h);
    var g := h[..|h| - 1];
    if j < |Trail(g)| {
      TrailAt(g, j);
    }
  }

  lemma EligibleIff(k: Crypto, s: State, contract: text, i: nat)
    requires Inv(k, s) && contract in s.schedules
    requires i < |History(s, contract)| && History(s, contract)[i].output.Failure?
    ensures
      var h, from := History(s, contract), i + 1 - s.threshold;
      h[i].output.eligible <==> from >= 0 && AllFail(h[from..i + 1])
  {
    var h := History(s, contract);
    assert Good(k, s, contract);
    assert RightArtifact(k, s, s.schedules[contract], h, i);
    TrailIsLastFails(h[..i + 1], s.threshold);
    if i + 1 >= s.threshold {
      assert h[..i + 1][i + 1 - s.threshold..] == h[i + 1 - s.threshold..i + 1];
    }
  }

  lemma EvidenceIs(k: Crypto, s: State, contract: text, i: nat, j: nat)
    requires Inv(k, s) && contract in s.schedules && j < s.threshold
    requires i < |History(s, contract)| && History(s, contract)[i].output.Failure?
    requires History(s, contract)[i].output.eligible
    ensures
      var h, at := History(s, contract), i + 1 - s.threshold + j;
      && at >= 0
      && h[at].output.Failure?
      && |h[i].output.evidence| == s.threshold
      && h[i].output.evidence[j] == h[at].output.record
  {
    var h := History(s, contract);
    var t := Trail(h[..i + 1]);
    assert Good(k, s, contract);
    assert RightArtifact(k, s, s.schedules[contract], h, i);
    TrailAt(h[..i + 1], |t| - s.threshold + j);
  }

  /** What the evidence check accepts: signed records of one escrow and one provider, with
      consecutive sequence numbers. */
  lemma {:induction false} StreakIsConsecutive(k: Crypto, pub: bytes, rs: seq<FailRecord>)
    ensures
      ValidStreak(k, pub, rs) <==>
        && rs != []
        && forall i :: 0 <= i < |rs| ==>
             && VerifyFailRecord(k, pub, rs[i]) && rs[i].escrowId == rs[0].escrowId
             && rs[i].providerAddress == rs[0].providerAddress && rs[i].sequence == rs[0].sequence + i
  {
    if ValidStreak(k, pub, rs) {
      forall i | 0 <= i < |rs|
        ensures rs[i].escrowId == rs[0].escrowId && rs[i].providerAddress == rs[0].providerAddress
        ensures rs[i].sequence == rs[0].sequence + i
      {
        StreakFrom(k, pub, rs, i);
      }
    }
  }

  lemma {:induction false} StreakFrom(k: Crypto, pub: bytes, rs: seq<FailRecord>, i: nat)
    requires ValidStreak(k, pub, rs) && i < |rs|
    ensures rs[i].escrowId == rs[0].escrowId && rs[i].providerAddress == rs[0].providerAddress
    ensures rs[i].sequence == rs[0].sequence + i
  {
    if i > 0 {
      StreakFrom(k, pub, rs, i - 1);
      assert Follows(rs[i - 1], rs[i]);
    }
  }

  /** A fail dispatch is slash-eligible exactly when the last K dispatches all failed,
      and then its evidence is exactly those K records, oldest first, even once the
      32-bit failure counter has saturated. */
  lemma SlashRule(k: Crypto, s: State, contract: text, i: nat)
    requires k.Correct() && Reached(k, s) && contract in s.schedules
    requires i < |History(s, contract)| && History(s, contract)[i].output.Failure?
    ensures
      var h, from := History(s, contract), i + 1 - s.threshold;
      var o := h[i].output;
      && (o.eligible <==> from >= 0 && AllFail(h[from..i + 1]))
      && (o.eligible ==>
            && |o.evidence| == s.threshold
            && forall j :: 0 <= j < s.threshold ==>
                 h[from + j].output.Failure? && o.evidence[j] == h[from + j].output.record)
  {
    ReachedInv(k, s);
    EligibleIff(k, s, contract, i);
    if History(s, contract)[i].output.eligible {
      EvidenceIs(k, s, contract, i, 0);
      forall j | 0 <= j < s.threshold
        ensures History(s, contract)[i + 1 - s.threshold + j].output.Failure?
        ensures History(s, contract)[i].output.evidence[j] ==
          History(s, contract)[i + 1 - s.threshold + j].output.record
      {
        EvidenceIs(k, s, contract, i, j);
      }
    }
  }

  lemma AddressStringInjective(a: Address, b: Address)
    requires AddressString(a) == AddressString(b)
    ensures a == b
  {
    assert AddressString(a)[2..] == HexEncode(a) && AddressString(b)[2..] == HexEncode(b);
    HexRoundTrip(a);
    HexRoundTrip(b);
  }

  /** The address bound to the provider a dispatch named. */
  function NamedAddress(s: State, e: Entry): Option<Address> {
    if e.input.provider in s.coordinator.providers then Some(s.coordinator.providers[e.input.provider]) else None
  }

  /** All these dispatches named providers with the same address. */
  predicate OneAddress(s: State, h: seq<Entry>) {
    forall j :: 0 < j < |h| ==> NamedAddress(s, h[j]) == NamedAddress(s, h[j - 1])
  }

  /** The record is signed, names the escrow and the address bound to the provider its
      dispatch named, and carries the dispatch's number. */
  ghost predicate GoodRecord(k: Crypto, s: State, escrow: EscrowId, e: Entry, at: nat, rec: FailRecord) {
    && VerifyFailRecord(k, k.pub, rec) && rec.escrowId == EscrowString(escrow) && rec.sequence == at + 1
    && NamedAddress(s, e).Some? && rec.providerAddress == AddressString(NamedAddress(s, e).value)
  }

  lemma RecordIsGood(k: Crypto, s: State, contract: text, at: nat)
    requires Inv(k, s) && contract in s.schedules
    requires at < |History(s, contract)| && History(s, contract)[at].output.Failure?
    ensures
      var e := History(s, contract)[at];
      GoodRecord(k, s, s.schedules[contract].escrow, e, at, e.output.record)
  {
    assert Good(k, s, contract);
    assert RightArtifact(k, s, s.schedules[contract], History(s, contract), at);
  }

  lemma FollowsIff(k: Crypto, s: State, escrow: EscrowId, e: Entry, e': Entry, at: nat, r: FailRecord, r': FailRecord)
    requires GoodRecord(k, s, escrow, e, at, r) && GoodRecord(k, s, escrow, e', at + 1, r')
    ensures Follows(r, r') <==> NamedAddress(s, e') == NamedAddress(s, e)
  {
    if r.providerAddress == r'.providerAddress {
      AddressStringInjective(NamedAddress(s, e).value, NamedAddress(s, e').value);
    }
  }

  lemma EvidenceIsGood(k: Crypto, s: State, contract: text, i: nat, j: nat)
    requires Inv(k, s) && contract in s.schedules && j < s.threshold
    requires i < |History(s, contract)| && History(s, contract)[i].output.Failure?
    requires History(s, contract)[i].output.eligible
    ensures
      var h, from := History(s, contract), i + 1 - s.threshold;
      && from >= 0 && |h[i].output.evidence| == s.threshold
      && GoodRecord(k, s, s.schedules[contract].escrow, h[from + j], from + j, h[i].output.evidence[j])
  {
    EvidenceIs(k, s, contract, i, 0);
    EvidenceIs(k, s, contract, i, j);
    RecordIsGood(k, s, contract, i + 1 - s.threshold + j);
  }

  /** Every record of the evidence is a good one of its dispatch. */
  ghost predicate GoodEvidence(
    k: Crypto, s: State, escrow: EscrowId, h: seq<Entry>, from: nat, ev: seq<FailRecord>)
  {
    && ev != [] && from + |ev| <= |h|
    && forall j :: 0 <= j < |ev| ==> GoodRecord(k, s, escrow, h[from + j], from + j, ev[j])
  }

  lemma AllEvidenceIsGood(k: Crypto, s: State, contract: text, i: nat)
    requires k.Correct() && Reached(k, s) && contract in s.schedules
    requires i < |History(s, contract)| && History(s, contract)[i].output.Failure?
    requires History(s, contract)[i].output.eligible
    ensures
      var h, from := History(s, contract), i + 1 - s.threshold;
      && from >= 0 && |h[i].output.evidence| == s.threshold
      && GoodEvidence(k, s, s.schedules[contract].escrow, h, from, h[i].output.evidence)
  {
    ReachedInv(k, s);
    EvidenceIsGood(k, s, contract, i, 0);
    forall j | 0 <= j < |History(s, contract)[i].output.evidence|
      ensures
        var h, from := History(s, contract), i + 1 - s.threshold;
        GoodRecord(k, s, s.schedules[contract].escrow, h[from + j], from + j, h[i].output.evidence[j])
    {
      EvidenceIsGood(k, s, contract, i, j);
    }
  }

  /** The evidence check, once signatures, escrow and sequence numbers are in order. */
  lemma GoodStreakIff(
    k: Crypto, s: State, escrow: EscrowId, h: seq<Entry>, from: nat, to: nat, ev: seq<FailRecord>)
    requires GoodEvidence(k, s, escrow, h, from, ev) && to == from + |ev|
    ensures ValidStreak(k, k.pub, ev) <==> OneAddress(s, h[from..to])
  {
    var last := h[from..to];
    forall j | 0 < j < |ev|
      ensures Follows(ev[j - 1], ev[j]) <==> NamedAddress(s, last[j]) == NamedAddress(s, last[j - 1])
    {
      assert GoodRecord(k, s, escrow, h[from + (j - 1)], from + (j - 1), ev[j - 1]);
      FollowsIff(k, s, escrow, h[from + j - 1], h[from + j], from + j - 1, ev[j - 1], ev[j]);
    }
  }

  /** An outside verifier accepts slash evidence exactly when the last K dispatches named
      providers bound to one address. */
  lemma EvidenceAcceptedIff(k: Crypto, s: State, contract: text, i: nat)
    requires k.Correct() && Reached(k, s) && contract in s.schedules
    requires i < |History(s, contract)| && History(s, contract)[i].output.Failure?
    requires History(s, contract)[i].output.eligible
    ensures
      var h, from := History(s, contract), i + 1 - s.threshold;
      from >= 0 && (ValidStreak(k, k.pub, h[i].output.evidence) <==> OneAddress(s, h[from..i + 1]))
  {
    var h, from := History(s, contract), i + 1 - s.threshold;
    AllEvidenceIsGood(k, s, contract, i);
    GoodStreakIff(k, s, s.schedules[contract].escrow, h, from, i + 1, h[i].output.evidence);
  }

  /** When every dispatch of the contract named one provider, the evidence is accepted. */
  lemma OneProviderEvidenceAccepted(k: Crypto, s: State, contract: text, i: nat)
    requires k.Correct() && Reached(k, s) && contract in s.schedules
    requires i < |History(s, contract)| && History(s, contract)[i].output.Failure?
    requires History(s, contract)[i].output.eligible
    requires forall a, b :: 0 <= a < b < |History(s, contract)| ==>
      History(s, contract)[a].input.provider == History(s, contract)[b].input.provider
    ensures ValidStreak(k, k.pub, History(s, contract)[i].output.evidence)
  {
    EvidenceAcceptedIff(k, s, contract, i);
  }

  // A history whose evidence is refused.

  function Registered(escrow: EscrowId, a: Address, b: Address): State {
    var stores := map[EscrowString(escrow) := None];
    State(2, Coordinator([8], 1, map[[6] := a, [7] := b], map[[1] := escrow], stores),
          map[[1] := Schedule(5, 50, 0, 0, escrow, {}, 0, [])], map[[1] := []])
  }

  lemma RegisteredReached(k: Crypto, escrow: EscrowId, a: Address, b: Address)
    requires !IsZero(escrow) && !IsZero(a) && !IsZero(b)
    ensures Reached(k, Registered(escrow, a, b))
  {
    var s0, o1, o2 := Empty(2, [8], 1), RegisterProviderOp([6], a), RegisterProviderOp([7], b);
    var o3 := RegisterScheduleOp([1], escrow, 5, 50);
    assert s0 == ApplyAll(k, Empty(2, [8], 1), []);
    ReachedStep(k, s0, o1);
    ReachedStep(k, Apply(k, s0, o1), o2);
    ReachedStep(k, Apply(k, Apply(k, s0, o1), o2), o3);
    assert Apply(k, Apply(k, Apply(k, s0, o1), o2), o3) == Registered(escrow, a, b);
  }

  function FailBy(provider: text, challenge: text): Availability {
    Availability([1], provider, 1, challenge, Fail)
  }

  /** One more failure of a bound provider, as long as the challenge is new. */
  lemma OneFail(k: Crypto, s: State, provider: text, challenge: text) returns (s': State)
    requires Reached(k, s) && [1] in s.schedules && challenge != [] && s.schedules[[1]].sequence < 100
    requires challenge !in s.schedules[[1]].processed && provider in s.coordinator.providers
    ensures Reached(k, s') && s'.coordinator == s.coordinator && s'.threshold == s.threshold && [1] in s'.schedules
    ensures s'.schedules[[1]].processed == s.schedules[[1]].processed + {challenge}
    ensures s'.schedules[[1]].sequence == s.schedules[[1]].sequence + 1
    ensures
      var h := History(s', [1]);
      |h| > 0 && h[..|h| - 1] == History(s, [1]) && h[|h| - 1].output.Failure? && h[|h| - 1].input.provider == provider
  {
    var op := DispatchOp(FailBy(provider, challenge), None, 0, 0);
    assert Admit(s, op.result).None?;
    s' := Apply(k, s, op);
    ReachedStep(k, s, op);
  }

  lemma TwoFailsReached(k: Crypto, escrow: EscrowId, a: Address, b: Address) returns (s: State)
    requires !IsZero(escrow) && !IsZero(a) && !IsZero(b)
    ensures Reached(k, s) && [1] in s.schedules && |History(s, [1])| == 2 && s.threshold == 2
    ensures History(s, [1])[0].output.Failure? && History(s, [1])[1].output.Failure?
    ensures NamedAddress(s, History(s, [1])[0]) == Some(a) && NamedAddress(s, History(s, [1])[1]) == Some(b)
  {
    RegisteredReached(k, escrow, a, b);
    var s1 := OneFail(k, Registered(escrow, a, b), [6], [11]);
    s := OneFail(k, s1, [7], [12]);
    assert History(s, [1])[0] == History(s, [1])[..1][0];
  }

  /** With K = 2, two failures of two providers with different addresses make the ledger
      emit slash evidence that every outside verifier refuses. */
  lemma MixedEvidenceRefused(k: Crypto, escrow: EscrowId, a: Address, b: Address) returns (s: State)
    requires k.Correct() && !IsZero(escrow) && !IsZero(a) && !IsZero(b) && a != b
    ensures Reached(k, s) && [1] in s.schedules && |History(s, [1])| == 2
    ensures
      var o := History(s, [1])[1].output;
      o.Failure? && o.eligible && !ValidStreak(k, k.pub, o.evidence)
  {
    s := TwoFailsReached(k, escrow, a, b);
    assert History(s, [1])[0..2] == History(s, [1]);
    SlashRule(k, s, [1], 1);
    EvidenceAcceptedIff(k, s, [1], 1);
  }
}
