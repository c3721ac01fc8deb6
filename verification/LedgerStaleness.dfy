/** When a PASS is refused because the escrow's latest voucher is ahead of it: exactly
    when schedules share an escrow and the other one is further. */
module LedgerStaleness {
  import opened Bytes
  import opened Options
  import opened Preimages
  import opened Ledger
  import opened LedgerSafety

  // -------------------------------------- vouchers are filed under their escrow

  ghost predicate Keyed(stores: map<text, Option<PaymentState>>) {
    forall e :: e in stores && stores[e].Some? ==> stores[e].value.contractId == e
  }

  lemma KeyedStep(k: Crypto, s: State, op: Op)
    requires Keyed(s.coordinator.stores)
    ensures Keyed(Apply(k, s, op).coordinator.stores)
  {}

  lemma {:induction false} KeyedRun(k: Crypto, threshold: uint32, publisher: text, ttl: int, ops: seq<Op>)
    ensures Keyed(ApplyAll(k, Empty(threshold, publisher, ttl), ops).coordinator.stores)
    decreases |ops|
  {
    if ops != [] {
      KeyedRun(k, threshold, publisher, ttl, ops[..|ops| - 1]);
      KeyedStep(k, ApplyAll(k, Empty(threshold, publisher, ttl), ops[..|ops| - 1]), ops[|ops| - 1]);
    }
  }

  lemma ReachedKeyed(k: Crypto, s: State)
    requires Reached(k, s)
    ensures Keyed(s.coordinator.stores)
  {
    var threshold: uint32, publisher: text, ttl: int, ops: seq<Op> :|
      threshold >= 1 && s == ApplyAll(k, Empty(threshold, publisher, ttl), ops);
    KeyedRun(k, threshold, publisher, ttl, ops);
  }

  // -------------------------------------------------------- one PASS, exactly

  /** A schedule's next voucher moves forward from the escrow's latest one. */
  predicate MovesForward(s: State, sc: Schedule) {
    var key := EscrowString(sc.escrow);
    key in s.coordinator.stores && s.coordinator.stores[key].Some? ==>
      && sc.sequence + 1 > s.coordinator.stores[key].value.sequence
      && NextCumulative(sc) >= s.coordinator.stores[key].value.cumulative
  }

  /** What the publisher has to bring along: a positive lifetime, a name and a signature. */
  predicate CanSign(s: State, sig: Option<bytes>) {
    s.coordinator.ttl > 0 && s.coordinator.publisher != [] && sig.Some? && sig.value != []
  }

  /** After any history, an admitted PASS is issued exactly if the publisher can sign, the
      provider is bound and the voucher moves the escrow's latest one forward; it is
      refused as stale exactly if only the last of these is missing. */
  lemma PassIssuedIff(k: Crypto, s: State, r: Availability, sig: Option<bytes>, validUntil: uint64, now: int64)
    requires k.Correct() && Reached(k, s) && Admit(s, r).None? && r.status.Pass?
    ensures
      var sc, bound := s.schedules[r.contract], r.provider in s.coordinator.providers;
      var res := Dispatch(k, s, r, sig, validUntil, now);
      && (res.Ok? <==> CanSign(s, sig) && bound && MovesForward(s, sc))
      && (res == Err(StaleState) <==> s.coordinator.ttl > 0 && bound && !MovesForward(s, sc))
  {
    ReachedInv(k, s);
    ReachedKeyed(k, s);
    assert Good(k, s, r.contract);
  }

  // -------------------------------------------------- two schedules, one escrow

  lemma PassLeaves(k: Crypto, s: State, r: Availability, sig: Option<bytes>, validUntil: uint64, b: text)
    requires Inv(k, s) && Admit(s, r).None? && r.status.Pass? && DispatchPass(s, r, sig, validUntil).Ok?
    requires b in s.schedules && b != r.contract && s.schedules[b].escrow == s.schedules[r.contract].escrow
    ensures
      var sc, s' := s.schedules[r.contract], DispatchPass(s, r, sig, validUntil).value.0;
      && b in s'.schedules && s'.schedules[b] == s.schedules[b]
      && s'.coordinator.ttl == s.coordinator.ttl && s'.coordinator.providers == s.coordinator.providers
      && (MovesForward(s', s.schedules[b]) <==>
            s.schedules[b].sequence > sc.sequence && NextCumulative(s.schedules[b]) >= NextCumulative(sc))
  {
    assert Good(k, s, r.contract);
  }

  /** Right after a PASS on one of two schedules of an escrow, a PASS on the other for a
      bound provider is refused as stale, unless the other schedule is already further in
      sequence numbers and its payment would not be lower. */
  lemma SharedEscrowGoesStaleIff(
    k: Crypto, s: State, a: Availability, b: Availability, sigA: Option<bytes>, sigB: Option<bytes>,
    validUntil: uint64, now: int64)
    requires k.Correct() && Reached(k, s) && Admit(s, a).None? && a.status.Pass? && b.status.Pass?
    requires a.contract != b.contract && b.contract in s.schedules
    requires s.schedules[a.contract].escrow == s.schedules[b.contract].escrow
    requires DispatchPass(s, a, sigA, validUntil).Ok?
    requires Admit(DispatchPass(s, a, sigA, validUntil).value.0, b).None? && b.provider in s.coordinator.providers
    ensures
      var s' := DispatchPass(s, a, sigA, validUntil).value.0;
      var first, second := s.schedules[a.contract], s.schedules[b.contract];
      Dispatch(k, s', b, sigB, validUntil, now) == Err(StaleState) <==>
        second.sequence <= first.sequence || NextCumulative(second) < NextCumulative(first)
  {
    ReachedInv(k, s);
    PassLeaves(k, s, a, sigA, validUntil, b.contract);
    ReachedStep(k, s, DispatchOp(a, sigA, validUntil, now));
    PassIssuedIff(k, DispatchPass(s, a, sigA, validUntil).value.0, b, sigB, validUntil, now);
  }

  /** Admission of one contract's result does not depend on a PASS on another contract. */
  lemma StillAdmitted(s: State, a: Availability, b: Availability, sig: Option<bytes>, validUntil: uint64)
    requires Admit(s, a).None? && a.status.Pass? && DispatchPass(s, a, sig, validUntil).Ok?
    requires Admit(s, b).None? && a.contract != b.contract
    ensures Admit(DispatchPass(s, a, sig, validUntil).value.0, b).None?
  {}

  lemma IssuedIsBound(s: State, a: Availability, sig: Option<bytes>, validUntil: uint64)
    requires Admit(s, a).None? && a.status.Pass? && DispatchPass(s, a, sig, validUntil).Ok?
    ensures a.provider in s.coordinator.providers
  {}

  /** Two schedules on one escrow always get in each other's way: of two PASS results that
      would each be issued now, at least one is refused as stale when it comes second. */
  lemma SharedEscrowGoesStale(
    k: Crypto, s: State, a: Availability, b: Availability, sigA: Option<bytes>, sigB: Option<bytes>,
    validUntil: uint64, now: int64)
    requires k.Correct() && Reached(k, s) && a.contract != b.contract
    requires Admit(s, a).None? && a.status.Pass? && DispatchPass(s, a, sigA, validUntil).Ok?
    requires Admit(s, b).None? && b.status.Pass? && DispatchPass(s, b, sigB, validUntil).Ok?
    requires s.schedules[a.contract].escrow == s.schedules[b.contract].escrow
    ensures
      || Dispatch(k, DispatchPass(s, a, sigA, validUntil).value.0, b, sigB, validUntil, now) == Err(StaleState)
      || Dispatch(k, DispatchPass(s, b, sigB, validUntil).value.0, a, sigA, validUntil, now) == Err(StaleState)
  {
    IssuedIsBound(s, a, sigA, validUntil);
    IssuedIsBound(s, b, sigB, validUntil);
    if s.schedules[b.contract].sequence <= s.schedules[a.contract].sequence {
      StillAdmitted(s, a, b, sigA, validUntil);
      SharedEscrowGoesStaleIff(k, s, a, b, sigA, sigB, validUntil, now);
    } else {
      StillAdmitted(s, b, a, sigB, validUntil);
      SharedEscrowGoesStaleIff(k, s, b, a, sigB, sigA, validUntil, now);
    }
  }

  // A history that gets there.

  function SharedEscrow(escrow: EscrowId, address: Address): State {
    var sc := Schedule(5, 50, 0, 0, escrow, {}, 0, []);
    var stores := map[EscrowString(escrow) := None];
    State(3, Coordinator([8], 1, map[[7] := address], map[[1] := escrow, [2] := escrow], stores),
          map[[1] := sc, [2] := sc], map[[1] := [], [2] := []])
  }

  /** Two schedules may be registered for one escrow, and then the first PASS on one is
      issued and the first on the other is not. */
  lemma SharedEscrowReached(k: Crypto, escrow: EscrowId, address: Address)
    requires k.Correct() && !IsZero(escrow) && !IsZero(address)
    ensures Reached(k, SharedEscrow(escrow, address))
    ensures
      var first := DispatchPass(SharedEscrow(escrow, address), Availability([1], [7], 1, [11], Pass), Some([9]), 100);
      && first.Ok?
      && Dispatch(k, first.value.0, Availability([2], [7], 1, [12], Pass), Some([9]), 100, 0) == Err(StaleState)
  {
    SharedEscrowRuns(k, escrow, address);
    var s := SharedEscrow(escrow, address);
    var a, b := Availability([1], [7], 1, [11], Pass), Availability([2], [7], 1, [12], Pass);
    PassIssuedIff(k, s, a, Some([9]), 100, 0);
    StillAdmitted(s, a, b, Some([9]), 100);
    SharedEscrowGoesStaleIff(k, s, a, b, Some([9]), Some([9]), 100, 0);
  }

  lemma SharedEscrowRuns(k: Crypto, escrow: EscrowId, address: Address)
    requires !IsZero(escrow) && !IsZero(address)
    ensures Reached(k, SharedEscrow(escrow, address))
  {
    var s0, o1 := Empty(3, [8], 1), RegisterProviderOp([7], address);
    var o2, o3 := RegisterScheduleOp([1], escrow, 5, 50), RegisterScheduleOp([2], escrow, 5, 50);
    assert s0 == ApplyAll(k, Empty(3, [8], 1), []);
    ReachedStep(k, s0, o1);
    ReachedStep(k, Apply(k, s0, o1), o2);
    ReachedStep(k, Apply(k, Apply(k, s0, o1), o2), o3);
    assert Apply(k, Apply(k, Apply(k, s0, o1), o2), o3) == SharedEscrow(escrow, address);
  }
}
