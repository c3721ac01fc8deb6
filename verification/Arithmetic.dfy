/** Products, quotients and remainders. */
module Arithmetic {

  lemma MulMono(a: int, b: int, c: nat)
    requires a <= b
    ensures a * c <= b * c
  {}

  lemma MulStep(a: int, n: int)
    ensures a * n == a * (n - 1) + a
  {}

  /** Quotient and remainder are determined by the division equation. */
  lemma DivModUnique(x: int, m: nat, q: int, r: nat)
    requires m > 0 && r < m && x == q * m + r
    ensures x / m == q && x % m == r
  {
    var q', r' := x / m, x % m;
    assert (q - q') * m == r' - r;
    assert q <= q' by {
      if q > q' { MulMono(1, q - q', m); }
    }
    assert q >= q' by {
      if q < q' { MulMono(1, q' - q, m); }
    }
  }

  lemma DivLess(x: int, b: nat, q: int)
    requires b > 0 && x < q * b
    ensures x / b < q
  {
    if x / b >= q {
      MulMono(q, x / b, b);
    }
  }

  lemma DivAtLeast(x: int, b: nat, q: int)
    requires b > 0 && q * b <= x
    ensures q <= x / b
  {
    if x / b < q {
      MulMono(x / b + 1, q, b);
    }
  }

  lemma DivMono(a: int, c: int, b: nat)
    requires b > 0 && a <= c
    ensures a / b <= c / b
  {
    DivAtLeast(c, b, a / b);
  }

  lemma DivWithin(x: nat, b: nat)
    requires b > 0
    ensures 0 <= x / b <= x
  {
    MulMono(1, b, x);
    DivAtLeast(x, b, 0);
    MulMono(x + 1, x + 1, b);
    MulMono(1, b, x + 1);
    DivLess(x, b, x + 1);
  }

  /** Reducing a summand first does not change the sum's remainder. */
  lemma ModAdd(a: nat, b: nat, m: nat)
    requires m > 0
    ensures (a % m + b) % m == (a + b) % m
  {
    var x := a % m + b;
    assert a + b == (a / m + x / m) * m + x % m;
    DivModUnique(a + b, m, a / m + x / m, x % m);
  }
}
