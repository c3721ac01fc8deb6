/** Proportional settlement in 64-bit arithmetic that wraps around. */
module Settlement {
  import opened Arithmetic
  import opened Bytes
  import opened Options

  const INT64_MAX: int := 0x7FFF_FFFF_FFFF_FFFF

  datatype Status = Pending | Completed | Withheld | Terminated
  datatype State = State(
    status: Status, released: int64, withheld: int64, passed: nat, failed: nat, finalized: Option<int>)
  datatype Error = NotFunded | NoResults

  const PENDING := State(Pending, 0, 0, 0, 0, None)

  /** The value of a 64-bit signed register after an operation with this exact result. */
  function Wrap(x: int): (w: int64)
    ensures exists k :: x == w + k * UINT64
    ensures -INT64_MAX - 1 <= x <= INT64_MAX ==> w == x
  {
    var u := x % UINT64;
    assert x == u + (x / UINT64) * UINT64;
    if u <= INT64_MAX then u
    else
      assert x == (u - UINT64) + (x / UINT64 + 1) * UINT64;
      u - UINT64
  }

  /** Integer division that truncates toward zero. */
  function Quotient(a: int, b: nat): (q: int)
    requires b > 0
    ensures a >= 0 ==> 0 <= q <= a
    ensures a < 0 ==> a <= q <= 0
  {
    if a >= 0 then DivWithin(a, b); a / b else DivWithin(-a, b); -((-a) / b)
  }

  function Passes(results: seq<bool>): (n: nat)
    ensures n <= |results|
  {
    if results == [] then 0 else Passes(results[..|results| - 1]) + (if results[|results| - 1] then 1 else 0)
  }

  /** The outcome for `passed` successes among `total` results. */
  function Outcome(funded: int64, passed: nat, total: nat): State
    requires passed <= total && total > 0
  {
    var released := Quotient(Wrap(funded * passed), total);
    var withheld := Wrap(funded - released);
    State(if withheld == 0 then Completed else Withheld, released, withheld, passed, total - passed, None)
  }

  function Calculate(funded: int64, results: seq<bool>): Result<State, Error> {
    if funded <= 0 then Err(NotFunded)
    else if results == [] then Err(NoResults)
    else Ok(Outcome(funded, Passes(results), |results|))
  }

  method CalculateSettlement(funded: int64, results: seq<bool>) returns (r: Result<State, Error>)
    ensures r == Calculate(funded, results)
  {
    if funded <= 0 { return Err(NotFunded); }
    if |results| == 0 { return Err(NoResults); }
    var passed, failed := 0, 0;
    for i := 0 to |results|
      invariant passed == Passes(results[..i]) && passed + failed == i
    {
      assert results[..i + 1][..i] == results[..i];
      if results[i] {
        passed := passed + 1;
      } else {
        failed := failed + 1;
      }
    }
    assert results[..|results|] == results;
    var released := Quotient(Wrap(funded * passed), |results|);
    var withheld := Wrap(funded - released);
    r := Ok(State(if withheld == 0 then Completed else Withheld, released, withheld, passed, failed, None));
  }

  // -------------------------------------------------------------- results

  lemma {:induction false} AllPassed(results: seq<bool>)
    ensures Passes(results) == |results| <==> false !in results
  {
    if results != [] {
      var init := results[..|results| - 1];
      AllPassed(init);
      assert results == init + [results[|results| - 1]];
    }
  }

  /** Quotients of numbers far enough apart differ. */
  lemma QuotientGap(a: int, c: nat, b: nat)
    requires b > 0 && a + 2 * b <= c
    ensures Quotient(a, b) < c / b
  {
    DivAtLeast(c, b, a / b + 2);
    if a < 0 {
      DivAtLeast(-a, b, -(a / b) - 1);
    }
  }

  lemma WrappedShareIff(x: nat, total: nat)
    requires 0 < total <= INT64_MAX
    ensures Quotient(Wrap(x), total) == x / total <==> x <= INT64_MAX
  {
    if x > INT64_MAX {
      var w := Wrap(x);
      var k :| x == w + k * UINT64;
      assert k >= 1;
      QuotientGap(w, x, total);
    }
  }

  /** The released amount is the exact rounded-down share exactly if the product fits
      into 64 bits. */
  lemma ExactShareIff(funded: int64, passed: nat, total: nat)
    requires funded > 0 && passed <= total && 0 < total <= INT64_MAX
    ensures Outcome(funded, passed, total).released == funded * passed / total <==> funded * passed <= INT64_MAX
  {
    MulMono(0, passed, funded);
    WrappedShareIff(funded * passed, total);
  }

  /** Within range, settlement splits the funds completely, releases everything exactly
      if every proof passed, and never releases less for more passes. */
  lemma FairSettlement(funded: int64, passed: nat, total: nat)
    requires funded > 0 && passed <= total && 0 < total && funded * passed <= INT64_MAX
    ensures
      var s := Outcome(funded, passed, total);
      && 0 <= s.released <= funded && s.released + s.withheld == funded
      && (s.status.Completed? <==> passed == total)
      && s.passed == passed && s.failed == total - passed
  {
    ShareWithin(funded, passed, total);
    var share := funded * passed / total;
    assert Outcome(funded, passed, total).released == share;
    assert Outcome(funded, passed, total).withheld == funded - share;
  }

  lemma ShareWithin(funded: nat, passed: nat, total: nat)
    requires funded > 0 && passed <= total && 0 < total
    ensures 0 <= funded * passed && 0 <= funded * passed / total <= funded
    ensures funded * passed / total == funded <==> passed == total
  {
    MulMono(0, passed, funded);
    DivAtLeast(funded * passed, total, 0);
    if passed == total {
      DivModUnique(funded * total, total, funded, 0);
    } else {
      MulMono(passed, total - 1, funded);
      DivLess(funded * passed, total, funded);
    }
  }

  lemma MorePassesReleaseMore(funded: int64, fewer: nat, more: nat, total: nat)
    requires funded > 0 && fewer <= more <= total && 0 < total && funded * more <= INT64_MAX
    ensures Outcome(funded, fewer, total).released <= Outcome(funded, more, total).released
  {
    MulMono(fewer, more, funded);
    assert 0 <= funded * fewer <= funded * more;
    DivMono(funded * fewer, funded * more, total);
  }

  /** Out of range: four passes out of four, and nothing is released. */
  lemma OverflowWithholdsEverything()
    ensures
      var r := Calculate(0x4000_0000_0000_0000, [true, true, true, true]);
      r.Ok? && r.value.status.Withheld? && r.value.released == 0 && r.value.passed == 4
  {
    AllPassed([true, true, true, true]);
    var x := 0x4000_0000_0000_0000 * 4;
    assert x == UINT64;
  }
}
