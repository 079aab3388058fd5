/** Python's built-in `round(x, ndigits)`, taken over exact reals: round to
    the nearest multiple of 10^-ndigits, ties to the even neighbour. */
module Rounding {
  import opened RealMath

  /** The integer nearest to `y`; a tie goes to the even neighbour. */
  function RoundHalfEven(y: real): (n: int)
    ensures -0.5 <= n as real - y <= 0.5
    ensures (n as real - y == 0.5 || n as real - y == -0.5) ==> n % 2 == 0
  {
    var f := y.Floor;
    var frac := y - f as real;
    if frac < 0.5 then f
    else if frac > 0.5 then f + 1
    else if f % 2 == 0 then f
    else f + 1
  }

  /** The contract of `RoundHalfEven` pins its result down: no other integer
      is as near with the same tie rule. */
  lemma RoundHalfEvenUnique(y: real, m: int)
    requires -0.5 <= m as real - y <= 0.5
    requires (m as real - y == 0.5 || m as real - y == -0.5) ==> m % 2 == 0
    ensures m == RoundHalfEven(y)
  {
  }

  lemma RoundHalfEvenOfInt(k: int)
    ensures RoundHalfEven(k as real) == k
  {
    RoundHalfEvenUnique(k as real, k);
  }

  lemma RoundHalfEvenMonotone(x: real, y: real)
    requires x <= y
    ensures RoundHalfEven(x) <= RoundHalfEven(y)
  {
  }

  /** 10 raised to `digits`. */
  function Scale(digits: nat): (s: real)
    ensures s >= 1.0
  {
    PowAtLeastOne(10.0, digits);
    Pow(10.0, digits)
  }

  /** The integer nearest to `x * s`, ties to even: the count of units of
      size `1 / s` that `round` keeps. */
  function Units(x: real, s: real): (n: int)
    ensures -0.5 <= n as real - x * s <= 0.5
  {
    RoundHalfEven(x * s)
  }

  /** `round(x, digits)`: the result lies within half a unit of the last
      kept digit. */
  function Round(x: real, digits: nat): (r: real)
    ensures -0.5 / Scale(digits) <= r - x <= 0.5 / Scale(digits)
  {
    var s := Scale(digits);
    var n := Units(x, s);
    WithinHalfUnit(x, n, s);
    n as real / s
  }

  lemma WithinHalfUnit(x: real, n: int, s: real)
    requires s >= 1.0
    requires -0.5 <= n as real - x * s <= 0.5
    ensures -0.5 / s <= n as real / s - x <= 0.5 / s
  {
    assert n as real / s - x == (n as real - x * s) / s;
    DivLeMono(-0.5, n as real - x * s, s);
    DivLeMono(n as real - x * s, 0.5, s);
  }

  /** Rounding never reverses an order. */
  lemma RoundMonotone(x: real, y: real, digits: nat)
    requires x <= y
    ensures Round(x, digits) <= Round(y, digits)
  {
    var s := Scale(digits);
    UnitsMonotone(x, y, s);
    DivLeMono(Units(x, s) as real, Units(y, s) as real, s);
  }

  lemma UnitsMonotone(x: real, y: real, s: real)
    requires x <= y
    requires s >= 0.0
    ensures Units(x, s) <= Units(y, s)
  {
    MulLeMono(x, y, s);
    var xs, ys := x * s, y * s;
    assert xs <= ys;
    RoundHalfEvenMonotone(xs, ys);
  }

  lemma UnitsIs(x: real, s: real)
    ensures Units(x, s) == RoundHalfEven(x * s)
  {
  }

  lemma RoundIs(x: real, digits: nat)
    ensures Round(x, digits) == Units(x, Scale(digits)) as real / Scale(digits)
  {
  }

  /** Rounding to `digits` decimals gives `n / 10^digits` whenever `x` is
      strictly nearer to it than half a unit. */
  lemma RoundNear(x: real, digits: nat, n: int)
    requires -0.5 < n as real - x * Scale(digits) < 0.5
    ensures Round(x, digits) == n as real / Scale(digits)
  {
    var s := Scale(digits);
    var y := x * s;
    RoundHalfEvenUnique(y, n);
    UnitsIs(x, s);
    RoundIs(x, digits);
  }

  lemma MulDivCancel(a: real, s: real)
    requires s != 0.0
    ensures a / s * s == a
  {
  }

  /** Rounding a value that is already rounded changes nothing. */
  lemma RoundIdempotent(x: real, digits: nat)
    ensures Round(Round(x, digits), digits) == Round(x, digits)
  {
    var s := Scale(digits);
    var n := Units(x, s);
    var r := Round(x, digits);
    assert r == n as real / s;
    MulDivCancel(n as real, s);
    assert r * s == n as real;
    RoundHalfEvenOfInt(n);
    assert RoundHalfEven(r * s) == n;
    assert Units(r, s) == n;
    assert Round(r, digits) == Units(r, s) as real / s;
  }
}
