/** The publisher's off-chain ledger: payment schedules in the dispatcher, latest
    vouchers in the coordinator, and the signed artifacts handed to providers. */
module Ledger {
  import opened Bytes
  import opened Options
  import opened Preimages
  import opened Shared

  const UINT32_MAX: uint32 := 0xFFFF_FFFF
  const UINT64_MAX: uint64 := 0xFFFF_FFFF_FFFF_FFFF

  /** A 20-byte Ethereum address. */
  type Address = b: bytes | |b| == 20 witness seq(20, _ => 0)

  /** The zero address and the zero escrow identifier stand for "not given". */
  predicate IsZero(b: bytes) {
    forall i :: 0 <= i < |b| ==> b[i] == 0
  }

  function AddressString(a: Address): (s: text)
    ensures s != []
  {
    [48, 120] + HexEncode(a)
  }

  /** The publisher's Ed25519 key pair and SHA-256, as functions. */
  datatype Crypto = Crypto(
    pub: bytes,
    sha: bytes -> bytes,
    sign: bytes -> bytes,
    verify: (bytes, bytes, bytes) -> bool)
  {
    /** Verification accepts what signing made. */
    ghost predicate Correct() {
      |pub| == 32 && forall m: bytes :: |sign(m)| == 64 && verify(pub, m, sign(m))
    }
  }

  datatype Status = Pass | Fail | Other
  datatype Availability = Availability(contract: text, provider: text, period: uint64, challenge: text, status: Status)

  /** "PASS" */
  const PASS_TEXT: text := [80, 65, 83, 83]

  datatype Schedule = Schedule(
    perPass: uint64, maxPayment: uint64, cumulative: uint64, sequence: uint64,
    escrow: EscrowId, processed: set<text>, failures: uint32, streak: seq<FailRecord>)

  datatype Output =
    | Voucher(state: PaymentState)
    | Failure(record: FailRecord, consecutive: uint32, eligible: bool, evidence: seq<FailRecord>)

  /** One successful dispatch: what came in and what was issued for it. */
  datatype Entry = Entry(input: Availability, output: Output)

  datatype Error =
    | InvalidArgument | BindingConflict | ScheduleExists | ScheduleNotFound | DuplicateChallenge
    | UnknownStatus | SequenceExhausted | NotPassResult | InvalidTTL | NoEscrowBinding | NoProviderAddress
    | NoStore | StaleState | Incomplete | SignerFailed | Unsigned

  /** The coordinator's side: bindings and the latest voucher per escrow string. */
  datatype Coordinator = Coordinator(
    publisher: text, ttl: int,
    providers: map<text, Address>, contracts: map<text, EscrowId>,
    stores: map<text, Option<PaymentState>>)

  /** `issued` is history: the artifacts handed out so far, per availability contract. */
  datatype State = State(
    threshold: uint32, coordinator: Coordinator, schedules: map<text, Schedule>,
    issued: map<text, seq<Entry>>)

  // ------------------------------------------------------------- bindings

  function BindProvider(c: Coordinator, peer: text, address: Address): Result<Coordinator, Error> {
    if peer == [] || IsZero(address) then Err(InvalidArgument)
    else if peer in c.providers then
      (if c.providers[peer] != address then Err(BindingConflict) else Ok(c))
    else Ok(c.(providers := c.providers[peer := address]))
  }

  function RegisterContract(c: Coordinator, contract: text, escrow: EscrowId): Result<Coordinator, Error> {
    if contract == [] || IsZero(escrow) then Err(InvalidArgument)
    else if contract in c.contracts && c.contracts[contract] != escrow then Err(BindingConflict)
    else
      var key := EscrowString(escrow);
      Ok(c.(contracts := c.contracts[contract := escrow],
            stores := if key in c.stores then c.stores else c.stores[key := None]))
  }

  /** How long future vouchers are valid. */
  function SetLifetime(c: Coordinator, ttl: int): Result<Coordinator, Error> {
    if ttl <= 0 then Err(InvalidTTL) else Ok(c.(ttl := ttl))
  }

  // ------------------------------------------------------------- vouchers

  /** The latest-voucher store only moves forward. */
  function StorePaymentState(store: Option<PaymentState>, p: PaymentState): Result<Option<PaymentState>, Error> {
    if p.contractId == [] || p.signature == [] then Err(Unsigned)
    else if store.Some? && (p.contractId != store.value.contractId || p.sequence <= store.value.sequence ||
                            p.cumulative < store.value.cumulative)
    then Err(StaleState)
    else Ok(Some(p))
  }

  /** `sig` is what the configured signer answers, None if it fails. */
  function CreateAndSign(c: Coordinator, r: Availability, cumulative: uint64, sequence: uint64,
                         sig: Option<bytes>, validUntil: uint64): Result<(Coordinator, PaymentState), Error>
  {
    if !r.status.Pass? then Err(NotPassResult)
    else if c.ttl <= 0 then Err(InvalidTTL)
    else if r.contract !in c.contracts then Err(NoEscrowBinding)
    else if r.provider !in c.providers then Err(NoProviderAddress)
    else
      var key := EscrowString(c.contracts[r.contract]);
      if key !in c.stores then Err(NoStore)
      else
        var store := c.stores[key];
        if store.Some? && (sequence <= store.value.sequence || cumulative < store.value.cumulative) then Err(StaleState)
        else if r.contract == [] || r.challenge == [] || c.publisher == [] then Err(Incomplete)
        else if sig.None? then Err(SignerFailed)
        else
          var p := PaymentState(key, c.publisher, AddressString(c.providers[r.provider]), sequence, r.period,
                                cumulative, r.challenge, validUntil, PASS_TEXT, sig.value);
          match StorePaymentState(store, p)
          case Err(e) => Err(e)
          case Ok(store') => Ok((c.(stores := c.stores[key := store']), p))
  }

  // ----------------------------------------------------------- dispatcher

  function RegisterSchedule(
    s: State, contract: text, escrow: EscrowId, perPass: uint64, maxPayment: uint64): Result<State, Error>
  {
    if contract == [] || IsZero(escrow) || perPass == 0 || maxPayment == 0 || perPass > maxPayment
    then Err(InvalidArgument)
    else if contract in s.schedules then Err(ScheduleExists)
    else
      match RegisterContract(s.coordinator, contract, escrow)
      case Err(e) => Err(e)
      case Ok(c) =>
        Ok(s.(coordinator := c,
              schedules := s.schedules[contract := Schedule(perPass, maxPayment, 0, 0, escrow, {}, 0, [])],
              issued := s.issued[contract := []]))
  }

  /** The capped addition on 64-bit words, wrap-around included. */
  function NextCumulative(sc: Schedule): uint64 {
    var remaining := (sc.maxPayment - sc.cumulative) % UINT64;
    if sc.perPass >= remaining then sc.maxPayment else (sc.cumulative + sc.perPass) % UINT64
  }

  /** As long as the sum so far is within the cap, nothing wraps. */
  lemma CappedAddition(sc: Schedule)
    requires sc.cumulative <= sc.maxPayment
    ensures NextCumulative(sc) == Min(sc.cumulative + sc.perPass, sc.maxPayment)
  {}

  function SignedRecord(
    k: Crypto, escrow: EscrowId, address: text, r: Availability, sequence: uint64, now: int64): FailRecord
  {
    var rec := FailRecord(EscrowString(escrow), address, r.challenge, r.period, sequence, now, []);
    rec.(signature := k.sign(k.sha(FailPayload(rec))))
  }

  /** The last `n` elements of `q`, or all of it when it is shorter. */
  function LastOf<T>(q: seq<T>, n: nat): seq<T> {
    if |q| > n then q[|q| - n..] else q
  }

  function Validate(r: Availability): Option<Error> {
    if r.contract == [] || r.challenge == [] then Some(InvalidArgument)
    else if r.status.Other? then Some(UnknownStatus)
    else None
  }

  /** Every check a dispatch makes before it branches on the status. */
  function Admit(s: State, r: Availability): Option<Error> {
    if Validate(r).Some? then Validate(r)
    else if r.contract !in s.schedules then Some(ScheduleNotFound)
    else if r.challenge in s.schedules[r.contract].processed then Some(DuplicateChallenge)
    else if s.schedules[r.contract].sequence == UINT64_MAX then Some(SequenceExhausted)
    else None
  }

  function History(s: State, contract: text): seq<Entry> {
    if contract in s.issued then s.issued[contract] else []
  }

  function Record(s: State, r: Availability, sc: Schedule, o: Output): State {
    s.(schedules := s.schedules[r.contract := sc],
       issued := s.issued[r.contract := History(s, r.contract) + [Entry(r, o)]])
  }

  function DispatchPass(
    s: State, r: Availability, sig: Option<bytes>, validUntil: uint64): Result<(State, Output), Error>
    requires Admit(s, r).None? && r.status.Pass?
  {
    var sc := s.schedules[r.contract];
    var next := NextCumulative(sc);
    match CreateAndSign(s.coordinator, r, next, sc.sequence + 1, sig, validUntil)
    case Err(e) => Err(e)
    case Ok((c, p)) =>
      var sc' := sc.(sequence := sc.sequence + 1, cumulative := next, processed := sc.processed + {r.challenge},
                     failures := 0, streak := []);
      Ok((Record(s.(coordinator := c), r, sc', Voucher(p)), Voucher(p)))
  }

  function DispatchFail(k: Crypto, s: State, r: Availability, now: int64): Result<(State, Output), Error>
    requires Admit(s, r).None? && r.status.Fail?
  {
    var sc := s.schedules[r.contract];
    if r.provider !in s.coordinator.providers then Err(NoProviderAddress)
    else
      var address := AddressString(s.coordinator.providers[r.provider]);
      var rec := SignedRecord(k, sc.escrow, address, r, sc.sequence + 1, now);
      var count := if sc.failures < UINT32_MAX then sc.failures + 1 else sc.failures;
      var streak := LastOf(sc.streak + [rec], s.threshold);
      var sc' := sc.(sequence := sc.sequence + 1, processed := sc.processed + {r.challenge},
                     failures := count, streak := streak);
      var eligible := count >= s.threshold;
      var o := Failure(rec, count, eligible, if eligible then streak else []);
      Ok((Record(s, r, sc', o), o))
  }

  function Dispatch(
    k: Crypto, s: State, r: Availability, sig: Option<bytes>, validUntil: uint64, now: int64)
    : Result<(State, Output), Error>
  {
    if Admit(s, r).Some? then Err(Admit(s, r).value)
    else if r.status.Pass? then DispatchPass(s, r, sig, validUntil)
    else DispatchFail(k, s, r, now)
  }

  datatype Op =
    | RegisterProviderOp(peer: text, address: Address)
    | RegisterContractOp(contract: text, escrow: EscrowId)
    | SetLifetimeOp(ttl: int)
    | RegisterScheduleOp(contract: text, escrow: EscrowId, perPass: uint64, maxPayment: uint64)
    | DispatchOp(result: Availability, sig: Option<bytes>, validUntil: uint64, now: int64)

  /** One call to the public API; a call that returns an error changes nothing. */
  function Apply(k: Crypto, s: State, op: Op): State {
    match op
    case RegisterProviderOp(peer, address) =>
      (match BindProvider(s.coordinator, peer, address)
       case Ok(c) => s.(coordinator := c)
       case Err(_) => s)
    case RegisterContractOp(contract, escrow) =>
      (match RegisterContract(s.coordinator, contract, escrow)
       case Ok(c) => s.(coordinator := c)
       case Err(_) => s)
    case SetLifetimeOp(ttl) =>
      (match SetLifetime(s.coordinator, ttl)
       case Ok(c) => s.(coordinator := c)
       case Err(_) => s)
    case RegisterScheduleOp(contract, escrow, perPass, maxPayment) =>
      (match RegisterSchedule(s, contract, escrow, perPass, maxPayment)
       case Ok(s') => s'
       case Err(_) => s)
    case DispatchOp(r, sig, validUntil, now) =>
      (match Dispatch(k, s, r, sig, validUntil, now)
       case Ok(out) => out.0
       case Err(_) => s)
  }

  function ApplyAll(k: Crypto, s: State, ops: seq<Op>): State {
    if ops == [] then s else Apply(k, ApplyAll(k, s, ops[..|ops| - 1]), ops[|ops| - 1])
  }

  function Empty(threshold: uint32, publisher: text, ttl: int): State {
    State(threshold, Coordinator(publisher, ttl, map[], map[], map[]), map[], map[])
  }

  // --------------------------------------------------------- verification

  predicate VerifyFailRecord(k: Crypto, pub: bytes, r: FailRecord) {
    |pub| == 32 && |r.signature| == 64 && k.verify(pub, k.sha(FailPayload(r)), r.signature)
  }

  predicate Follows(prev: FailRecord, r: FailRecord) {
    && r.escrowId == prev.escrowId
    && r.providerAddress == prev.providerAddress
    && prev.sequence != UINT64_MAX
    && r.sequence == prev.sequence + 1
  }

  ghost predicate ValidStreak(k: Crypto, pub: bytes, rs: seq<FailRecord>) {
    && rs != []
    && (forall i :: 0 <= i < |rs| ==> VerifyFailRecord(k, pub, rs[i]))
    && (forall i :: 0 < i < |rs| ==> Follows(rs[i - 1], rs[i]))
  }

  /** The evidence check an outside party runs. */
  method VerifyFailStreak(k: Crypto, pub: bytes, records: seq<FailRecord>) returns (ok: bool)
    ensures ok <==> ValidStreak(k, pub, records)
  {
    if |records| == 0 {
      return false;
    }
    for i := 0 to |records|
      invariant forall j :: 0 <= j < i ==> VerifyFailRecord(k, pub, records[j])
      invariant forall j :: 0 < j < i ==> Follows(records[j - 1], records[j])
    {
      var rec := records[i];
      if !VerifyFailRecord(k, pub, rec) {
        return false;
      }
      if i == 0 {
        continue;
      }
      var prev := records[i - 1];
      if rec.escrowId != prev.escrowId || rec.providerAddress != prev.providerAddress ||
         prev.sequence == UINT64_MAX || rec.sequence != prev.sequence + 1 {
        return false;
      }
    }
    return true;
  }
}
