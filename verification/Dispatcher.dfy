/** The coordinator and the dispatcher as objects, proved to do what the ledger
    functions say; on an error neither of the two stores has changed. */
module Dispatcher {
  import opened Bytes
  import opened Options
  import opened Preimages
  import opened Ledger

  class PublisherCoordinator {
    const publisher: text
    var ttl: int
    var providers: map<text, Address>
    var contracts: map<text, EscrowId>
    var stores: map<text, Option<PaymentState>>

    ghost function View(): Coordinator
      reads this
    {
      Coordinator(publisher, ttl, providers, contracts, stores)
    }

    constructor (publisher: text, ttl: int)
      ensures View() == Coordinator(publisher, ttl, map[], map[], map[])
    {
      this.publisher, this.ttl := publisher, ttl;
      providers, contracts, stores := map[], map[], map[];
    }

    method SetPaymentStateTTL(lifetime: int) returns (err: Option<Error>)
      modifies this
      ensures err.None? ==> SetLifetime(old(View()), lifetime) == Ok(View()) && ttl > 0
      ensures err.Some? ==> SetLifetime(old(View()), lifetime) == Err(err.value) && View() == old(View())
    {
      if lifetime <= 0 {
        return Some(InvalidTTL);
      }
      ttl := lifetime;
      return None;
    }

    method RegisterProvider(peer: text, address: Address) returns (err: Option<Error>)
      modifies this
      ensures err.None? ==> BindProvider(old(View()), peer, address) == Ok(View())
      ensures err.Some? ==> BindProvider(old(View()), peer, address) == Err(err.value) && View() == old(View())
    {
      if peer == [] || IsZero(address) {
        return Some(InvalidArgument);
      }
      if peer in providers {
        return if providers[peer] != address then Some(BindingConflict) else None;
      }
      providers := providers[peer := address];
      return None;
    }

    method RegisterContract(contract: text, escrow: EscrowId) returns (err: Option<Error>)
      modifies this
      ensures err.None? ==> Ledger.RegisterContract(old(View()), contract, escrow) == Ok(View())
      ensures err.Some? ==> Ledger.RegisterContract(old(View()), contract, escrow) == Err(err.value)
      ensures err.Some? ==> View() == old(View())
    {
      if contract == [] || IsZero(escrow) {
        return Some(InvalidArgument);
      }
      if contract in contracts && contracts[contract] != escrow {
        return Some(BindingConflict);
      }
      contracts := contracts[contract := escrow];
      var key := EscrowString(escrow);
      if key !in stores {
        stores := stores[key := None];
      }
      return None;
    }

    /** Sign first, store last: a voucher that cannot be recorded is never handed out. */
    method CreateAndSignPaymentState(r: Availability, cumulative: uint64, sequence: uint64,
                                     sig: Option<bytes>, validUntil: uint64)
      returns (res: Result<PaymentState, Error>)
      modifies this
      ensures res.Ok? ==>
        CreateAndSign(old(View()), r, cumulative, sequence, sig, validUntil) == Ok((View(), res.value))
      ensures res.Err? ==> CreateAndSign(old(View()), r, cumulative, sequence, sig, validUntil) == Err(res.error)
      ensures res.Err? ==> View() == old(View())
    {
      if !r.status.Pass? { return Err(NotPassResult); }
      if ttl <= 0 { return Err(InvalidTTL); }
      if r.contract !in contracts { return Err(NoEscrowBinding); }
      if r.provider !in providers { return Err(NoProviderAddress); }
      var key := EscrowString(contracts[r.contract]);
      if key !in stores { return Err(NoStore); }
      var store := stores[key];
      if store.Some? {
        if sequence <= store.value.sequence || cumulative < store.value.cumulative {
          return Err(StaleState);
        }
      }
      if r.contract == [] || r.challenge == [] || publisher == [] { return Err(Incomplete); }
      if sig.None? { return Err(SignerFailed); }
      var signed := PaymentState(key, publisher, AddressString(providers[r.provider]), sequence, r.period,
                                 cumulative, r.challenge, validUntil, PASS_TEXT, sig.value);
      var stored := StorePaymentState(store, signed);
      if stored.Err? { return Err(stored.error); }
      stores := stores[key := stored.value];
      return Ok(signed);
    }
  }

  class AvailabilityPaymentDispatcher {
    const crypto: Crypto
    const threshold: uint32
    const coordinator: PublisherCoordinator
    var schedules: map<text, Schedule>
    ghost var issued: map<text, seq<Entry>>

    ghost function View(): State
      reads this, coordinator
    {
      State(threshold, coordinator.View(), schedules, issued)
    }

    constructor (k: Crypto, c: PublisherCoordinator, threshold: uint32)
      requires threshold >= 1
      requires c.View() == Coordinator(c.publisher, c.ttl, map[], map[], map[])
      ensures crypto == k && coordinator == c
      ensures View() == Empty(threshold, c.publisher, c.ttl)
    {
      crypto, coordinator, this.threshold := k, c, threshold;
      schedules, issued := map[], map[];
    }

    method RegisterContractSchedule(contract: text, escrow: EscrowId, perPass: uint64, maxPayment: uint64)
      returns (err: Option<Error>)
      modifies this, coordinator
      ensures err.None? ==> RegisterSchedule(old(View()), contract, escrow, perPass, maxPayment) == Ok(View())
      ensures err.Some? ==> RegisterSchedule(old(View()), contract, escrow, perPass, maxPayment) == Err(err.value)
      ensures err.Some? ==> View() == old(View())
    {
      if contract == [] || IsZero(escrow) { return Some(InvalidArgument); }
      if perPass == 0 || maxPayment == 0 { return Some(InvalidArgument); }
      if perPass > maxPayment { return Some(InvalidArgument); }
      if contract in schedules { return Some(ScheduleExists); }
      err := coordinator.RegisterContract(contract, escrow);
      if err.Some? { return err; }
      schedules := schedules[contract := Schedule(perPass, maxPayment, 0, 0, escrow, {}, 0, [])];
      issued := issued[contract := []];
      return None;
    }

    /** Enter the new schedule and its artifact. */
    method Commit(r: Availability, schedule: Schedule, output: Output)
      modifies this
      ensures View() == Record(old(View()), r, schedule, output)
    {
      schedules := schedules[r.contract := schedule];
      issued := issued[r.contract := History(old(View()), r.contract) + [Entry(r, output)]];
    }

    method IssueVoucher(r: Availability, sig: Option<bytes>, validUntil: uint64) returns (res: Result<Output, Error>)
      requires Admit(View(), r).None? && r.status.Pass?
      modifies this, coordinator
      ensures res.Ok? ==> DispatchPass(old(View()), r, sig, validUntil) == Ok((View(), res.value))
      ensures res.Err? ==> DispatchPass(old(View()), r, sig, validUntil) == Err(res.error) && View() == old(View())
    {
      var schedule := schedules[r.contract];
      var nextSequence, nextCumulative := schedule.sequence + 1, NextCumulative(schedule);
      var signed := coordinator.CreateAndSignPaymentState(r, nextCumulative, nextSequence, sig, validUntil);
      if signed.Err? { return Err(signed.error); }
      schedule := schedule.(sequence := nextSequence, cumulative := nextCumulative,
                            processed := schedule.processed + {r.challenge}, failures := 0, streak := []);
      Commit(r, schedule, Voucher(signed.value));
      return Ok(Voucher(signed.value));
    }

    method IssueFailRecord(r: Availability, now: int64) returns (res: Result<Output, Error>)
      requires Admit(View(), r).None? && r.status.Fail?
      modifies this
      ensures res.Ok? ==> DispatchFail(crypto, old(View()), r, now) == Ok((View(), res.value))
      ensures res.Err? ==> DispatchFail(crypto, old(View()), r, now) == Err(res.error) && View() == old(View())
    {
      var schedule := schedules[r.contract];
      if r.provider !in coordinator.providers { return Err(NoProviderAddress); }
      var nextSequence := schedule.sequence + 1;
      var address := AddressString(coordinator.providers[r.provider]);
      var rec := SignedRecord(crypto, schedule.escrow, address, r, nextSequence, now);
      var newCount := schedule.failures;
      if newCount < UINT32_MAX {
        newCount := newCount + 1;
      }
      var newStreak := schedule.streak + [rec];
      if |newStreak| > threshold {
        newStreak := newStreak[|newStreak| - threshold..];
      }
      schedule := schedule.(sequence := nextSequence, processed := schedule.processed + {r.challenge},
                            failures := newCount, streak := newStreak);
      var eligible := newCount >= threshold;
      var output := Failure(rec, newCount, eligible, if eligible then newStreak else []);
      Commit(r, schedule, output);
      return Ok(output);
    }

    /** Signs a voucher or a fail record and only then commits the schedule. */
    method DispatchAvailabilityResult(r: Availability, sig: Option<bytes>, validUntil: uint64, now: int64)
      returns (res: Result<Output, Error>)
      modifies this, coordinator
      ensures res.Ok? ==> Dispatch(crypto, old(View()), r, sig, validUntil, now) == Ok((View(), res.value))
      ensures res.Err? ==> Dispatch(crypto, old(View()), r, sig, validUntil, now) == Err(res.error)
      ensures res.Err? ==> View() == old(View())
    {
      var invalid := Validate(r);
      if invalid.Some? { return Err(invalid.value); }
      if r.contract !in schedules { return Err(ScheduleNotFound); }
      if r.challenge in schedules[r.contract].processed { return Err(DuplicateChallenge); }
      if schedules[r.contract].sequence == UINT64_MAX { return Err(SequenceExhausted); }
      if r.status.Pass? {
        res := IssueVoucher(r, sig, validUntil);
      } else {
        res := IssueFailRecord(r, now);
      }
    }
  }
}
