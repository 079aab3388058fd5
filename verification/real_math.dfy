/** Integer powers of reals, the only non-field operation the valuation
    engine needs (Python's `x ** n` with an `int` exponent `n`). */
module RealMath {

  /** x raised to a natural power. */
  function Pow(x: real, n: nat): real
    decreases n
  {
    if n == 0 then 1.0 else x * Pow(x, n - 1)
  }

  /** Python's `x ** n` for an integer `n` of either sign: a negative
      exponent is the reciprocal of the positive power, and `0.0 ** -k`
      is a ZeroDivisionError, excluded here. */
  function IntPow(x: real, n: int): (r: real)
    requires x != 0.0 || n >= 0
    ensures n >= 0 ==> r == Pow(x, n)
    ensures n < 0 ==> r * Pow(x, -n) == 1.0
  {
    if n >= 0 then Pow(x, n)
    else
      PowNonZero(x, -n);
      1.0 / Pow(x, -n)
  }

  lemma {:induction false} PowNonZero(x: real, n: nat)
    requires x != 0.0
    ensures Pow(x, n) != 0.0
  {
    if n > 0 {
      PowNonZero(x, n - 1);
    }
  }

  lemma {:induction false} PowPositive(x: real, n: nat)
    requires x > 0.0
    ensures Pow(x, n) > 0.0
  {
    if n > 0 {
      PowPositive(x, n - 1);
    }
  }

  lemma {:induction false} PowNonNegative(x: real, n: nat)
    requires x >= 0.0
    ensures Pow(x, n) >= 0.0
  {
    if n > 0 {
      PowNonNegative(x, n - 1);
    }
  }

  /** A base of at least one gives a power of at least one. */
  lemma {:induction false} PowAtLeastOne(x: real, n: nat)
    requires x >= 1.0
    ensures Pow(x, n) >= 1.0
  {
    if n > 0 {
      PowAtLeastOne(x, n - 1);
      var p := Pow(x, n - 1);
      assert x * p >= 1.0 * p by { MulLeMono(1.0, x, p); }
    }
  }

  /** Powers are monotone in a non-negative base. */
  lemma {:induction false} PowMonotone(a: real, b: real, n: nat)
    requires 0.0 <= a <= b
    ensures Pow(a, n) <= Pow(b, n)
  {
    if n > 0 {
      PowMonotone(a, b, n - 1);
      PowNonNegative(a, n - 1);
      PowNonNegative(b, n - 1);
      var pa, pb := Pow(a, n - 1), Pow(b, n - 1);
      MulLeMono(pa, pb, a);
      MulLeMono(a, b, pb);
    }
  }

  /** Powers with a positive exponent are strictly monotone in a non-negative base. */
  lemma {:induction false} PowStrictlyMonotone(a: real, b: real, n: nat)
    requires 0.0 <= a < b
    requires n >= 1
    ensures Pow(a, n) < Pow(b, n)
  {
    var pa, pb := Pow(a, n - 1), Pow(b, n - 1);
    PowMonotone(a, b, n - 1);
    PowNonNegative(a, n - 1);
    PowPositive(b, n - 1);
    MulLeMono(pa, pb, a);
    assert a * pb < b * pb;
  }

  /** Multiplying both sides by a non-negative factor keeps `<=`. */
  lemma MulLeMono(x: real, y: real, c: real)
    requires x <= y
    requires c >= 0.0
    ensures x * c <= y * c
    ensures c * x <= c * y
  {
  }

  /** Dividing both sides by a positive divisor keeps `<=`. */
  lemma DivLeMono(x: real, y: real, d: real)
    requires x <= y
    requires d > 0.0
    ensures x / d <= y / d
  {
    assert x / d * d == x;
    assert y / d * d == y;
  }

  /** Dividing both sides by a positive divisor keeps `<`. */
  lemma DivLtMono(x: real, y: real, d: real)
    requires x < y
    requires d > 0.0
    ensures x / d < y / d
  {
    assert x / d * d == x;
    assert y / d * d == y;
  }

  /** Equal dividends give equal quotients (stated as a lemma so that the
      solver sees the two quotients as the same term). */
  lemma DivCongruent(a: real, b: real, d: real)
    requires a == b
    requires d != 0.0
    ensures a / d == b / d
  {
  }
}
