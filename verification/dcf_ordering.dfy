/** Why the three scenarios come out in order. Evaluated at zero growth,
    the growth branch collapses to the bear perpetuity (the discounted
    annuity plus the discounted perpetuity after it is the perpetuity
    itself), and every term of the growth branch grows with the growth rate.
    Together: bear <= middle <= strong. */
module DcfOrdering {
  import opened RealMath
  import opened Rounding
  import opened Dcf
  import Ratios

  lemma {:induction false} PowOfOne(n: nat)
    ensures Pow(1.0, n) == 1.0
  {
    if n > 0 {
      PowOfOne(n - 1);
    }
  }

  lemma ProjectedAtZeroGrowth(fcf: real, n: nat)
    ensures Projected(fcf, 0.0, n) == fcf
  {
    PowOfOne(n);
  }

  /** One year of the annuity identity: the year's discounted cash flow plus
      the perpetuity discounted one year further is the perpetuity
      discounted one year less. */
  lemma AnnuityStep(x: real, r: real, p: real)
    requires r != 0.0 && 1.0 + r != 0.0 && p != 0.0
    ensures x / ((1.0 + r) * p) + (x / r) / ((1.0 + r) * p) == (x / r) / p
  {
    var q := 1.0 + r;
    var d := q * p;
    var a, b, c := x / d, (x / r) / d, (x / r) / p;
    assert a * d == x;
    assert b * d == x / r;
    assert c * p == x / r;
    assert c * d == (c * p) * q;
    assert (x / r) * r == x;
    assert (x / r) * q == x / r + x;
    assert (a + b) * d == a * d + b * d;
    MulCancel(a + b, c, d);
  }

  lemma MulCancel(u: real, v: real, d: real)
    requires d != 0.0
    requires u * d == v * d
    ensures u == v
  {
    assert (u - v) * d == 0.0;
  }

  /** The discounted cash flows of years 1..n without growth, plus the
      perpetuity discounted n years, equal the undiscounted perpetuity. */
  lemma {:induction false} AnnuityIdentity(fcf: real, r: real, n: nat)
    requires r != 0.0 && 1.0 + r != 0.0
    ensures Pow(1.0 + r, n) != 0.0
    ensures PvSum(fcf, 0.0, r, n) + (fcf / r) / Pow(1.0 + r, n) == fcf / r
  {
    PowNonZero(1.0 + r, n);
    if n > 0 {
      AnnuityIdentity(fcf, r, n - 1);
      var p := Pow(1.0 + r, n - 1);
      ProjectedAtZeroGrowth(fcf, n);
      assert Pow(1.0 + r, n) == (1.0 + r) * p;
      AnnuityStep(fcf, r, p);
    }
  }

  /** The growth branch evaluated at zero growth is the bear formula. */
  lemma GrowthBranchAtZero(fcf: real, r: real, years: int, netCash: real)
    requires r != 0.0 && DiscountDefined(r, years)
    requires years >= 0
    ensures GrowthEquity(fcf, 0.0, r, years, netCash) == fcf / r + netCash
    ensures GrowthTerminal(fcf, 0.0, r, years) * r == fcf
  {
    var n := Horizon(years);
    ProjectedAtZeroGrowth(fcf, n);
    assert GrowthTerminal(fcf, 0.0, r, years) == fcf / r;
    if n == 0 {
      assert IntPow(1.0 + r, years) == 1.0;
    } else {
      AnnuityIdentity(fcf, r, n);
      assert IntPow(1.0 + r, years) == Pow(1.0 + r, n);
    }
  }

  /** With a negative horizon the loop is empty and `(1 + r) ** years` a
      reciprocal: the perpetuity is compounded instead of discounted, which
      for r > 0 and fcf >= 0 is never below the bear value. */
  lemma NegativeHorizonAtLeastBear(fcf: real, g: real, r: real, years: int, netCash: real)
    requires fcf >= 0.0 && r > 0.0
    requires years < 0
    ensures GrowthEquity(fcf, g, r, years, netCash) >= fcf / r + netCash
  {
    var m: nat := -years;
    var p := Pow(1.0 + r, m);
    PowAtLeastOne(1.0 + r, m);
    assert Projected(fcf, g, 0) == fcf;
    var t := fcf / r;
    assert t >= 0.0;
    var f := IntPow(1.0 + r, years);
    assert f * p == 1.0;
    assert t / f == t * p;
    MulLeMono(1.0, p, t);
  }

  /** Compounding is monotone in the growth rate for a non-negative cash flow. */
  lemma ProjectedMonotone(fcf: real, g1: real, g2: real, n: nat)
    requires fcf >= 0.0
    requires -1.0 <= g1 <= g2
    ensures Projected(fcf, g1, n) <= Projected(fcf, g2, n)
  {
    PowMonotone(1.0 + g1, 1.0 + g2, n);
    MulLeMono(Pow(1.0 + g1, n), Pow(1.0 + g2, n), fcf);
  }

  /** ... and strictly so for a positive cash flow and at least one year. */
  lemma ProjectedStrictlyMonotone(fcf: real, g1: real, g2: real, n: nat)
    requires fcf > 0.0
    requires -1.0 <= g1 < g2
    requires n >= 1
    ensures Projected(fcf, g1, n) < Projected(fcf, g2, n)
  {
    PowStrictlyMonotone(1.0 + g1, 1.0 + g2, n);
  }

  /** The discounted projected cash flows grow with the growth rate. */
  lemma {:induction false} PvSumMonotone(fcf: real, g1: real, g2: real, r: real, n: nat)
    requires fcf >= 0.0 && r > 0.0
    requires -1.0 <= g1 <= g2
    ensures PvSum(fcf, g1, r, n) <= PvSum(fcf, g2, r, n)
  {
    if n > 0 {
      PvSumMonotone(fcf, g1, g2, r, n - 1);
      ProjectedMonotone(fcf, g1, g2, n);
      PowPositive(1.0 + r, n);
      DivLeMono(Projected(fcf, g1, n), Projected(fcf, g2, n), Pow(1.0 + r, n));
    }
  }

  lemma IntPowPositive(x: real, n: int)
    requires x > 0.0
    ensures IntPow(x, n) > 0.0
  {
    if n >= 0 {
      PowPositive(x, n);
    } else {
      PowPositive(x, -n);
      assert IntPow(x, n) * Pow(x, -n) == 1.0;
    }
  }

  /** The growth branch is monotone in the growth rate. */
  lemma GrowthEquityMonotone(fcf: real, g1: real, g2: real, r: real, years: int, netCash: real)
    requires fcf >= 0.0 && r > 0.0
    requires -1.0 <= g1 <= g2
    ensures GrowthEquity(fcf, g1, r, years, netCash) <= GrowthEquity(fcf, g2, r, years, netCash)
  {
    var n := Horizon(years);
    PvSumMonotone(fcf, g1, g2, r, n);
    ProjectedMonotone(fcf, g1, g2, n);
    DivLeMono(Projected(fcf, g1, n), Projected(fcf, g2, n), r);
    IntPowPositive(1.0 + r, years);
    DivLeMono(GrowthTerminal(fcf, g1, r, years), GrowthTerminal(fcf, g2, r, years), IntPow(1.0 + r, years));
  }

  /** With a positive cash flow and horizon the growth branch is strictly
      increasing in the growth rate. */
  lemma GrowthEquityStrictlyMonotone(fcf: real, g1: real, g2: real, r: real, years: int, netCash: real)
    requires fcf > 0.0 && r > 0.0 && years >= 1
    requires -1.0 <= g1 < g2
    ensures GrowthEquity(fcf, g1, r, years, netCash) < GrowthEquity(fcf, g2, r, years, netCash)
  {
    var n := Horizon(years);
    PvSumMonotone(fcf, g1, g2, r, n);
    ProjectedStrictlyMonotone(fcf, g1, g2, n);
    DivLtMono(Projected(fcf, g1, n), Projected(fcf, g2, n), r);
    IntPowPositive(1.0 + r, years);
    DivLtMono(GrowthTerminal(fcf, g1, r, years), GrowthTerminal(fcf, g2, r, years), IntPow(1.0 + r, years));
  }

  /** A non-negative growth rate never values the equity below the bear
      scenario. */
  lemma AtLeastBear(fcf: real, g: real, r: real, years: int, netCash: real)
    requires fcf >= 0.0 && r > 0.0 && g >= 0.0
    ensures EquityValue(fcf, g, r, years, netCash) >= EquityValue(fcf, 0.0, r, years, netCash)
  {
    if g != 0.0 {
      if years < 0 {
        NegativeHorizonAtLeastBear(fcf, g, r, years, netCash);
      } else {
        GrowthEquityMonotone(fcf, 0.0, g, r, years, netCash);
        GrowthBranchAtZero(fcf, r, years, netCash);
      }
    }
  }

  /** Bear <= middle <= strong: with a non-negative cash flow, a positive
      discount rate and 0 <= middle growth <= strong growth, the unrounded
      equity values of the three scenarios are ordered. */
  lemma ScenarioEquityOrdered(fcf: real, r: real, years: int, netCash: real, gMiddle: real, gStrong: real)
    requires fcf >= 0.0 && r > 0.0
    requires 0.0 <= gMiddle <= gStrong
    ensures EquityValue(fcf, 0.0, r, years, netCash) <= EquityValue(fcf, gMiddle, r, years, netCash)
    ensures EquityValue(fcf, gMiddle, r, years, netCash) <= EquityValue(fcf, gStrong, r, years, netCash)
  {
    AtLeastBear(fcf, gMiddle, r, years, netCash);
    if gMiddle == 0.0 {
      AtLeastBear(fcf, gStrong, r, years, netCash);
    } else {
      GrowthEquityMonotone(fcf, gMiddle, gStrong, r, years, netCash);
    }
  }

  /** Strict ordering, as observed on concrete data: a positive cash flow
      over at least one year makes a higher growth rate worth strictly more. */
  lemma ScenarioEquityStrictlyOrdered(fcf: real, r: real, years: int, netCash: real, g1: real, g2: real)
    requires fcf > 0.0 && r > 0.0 && years >= 1
    requires 0.0 <= g1 < g2
    ensures EquityValue(fcf, g1, r, years, netCash) < EquityValue(fcf, g2, r, years, netCash)
  {
    GrowthEquityStrictlyMonotone(fcf, g1, g2, r, years, netCash);
    if g1 == 0.0 {
      GrowthBranchAtZero(fcf, r, years, netCash);
    }
  }

  /** The value per share grows with the equity value (for a positive share
      count), even after rounding to a whole yen. */
  lemma PerShareMonotone(name1: string, g1: real, t1: real, e1: real,
                         name2: string, g2: real, t2: real, e2: real, shares: real, price: real)
    requires shares > 0.0 && price != 0.0
    requires e1 <= e2
    ensures PerShareResult(name1, g1, t1, e1, shares, price).value.perShare
            <= PerShareResult(name2, g2, t2, e2, shares, price).value.perShare
  {
    MulLeMono(e1, e2, Ratios.Million);
    DivLeMono(e1 * Ratios.Million, e2 * Ratios.Million, shares);
    RoundMonotone(e1 * Ratios.Million / shares, e2 * Ratios.Million / shares, 0);
  }

  /** Two scenarios over the same share count and price: the one with the
      larger equity value has the larger (or equal) value per share. */
  lemma ScenarioPerShareOrdered(fcf: real, g1: real, g2: real, r: real, years: int, netCash: real,
                                shares: real, price: real, name1: string, name2: string)
    requires DcfScenario(fcf, g1, r, years, netCash, shares, price, name1).Ok?
    requires DcfScenario(fcf, g2, r, years, netCash, shares, price, name2).Ok?
    requires shares > 0.0
    requires EquityValue(fcf, g1, r, years, netCash) <= EquityValue(fcf, g2, r, years, netCash)
    ensures DcfScenario(fcf, g1, r, years, netCash, shares, price, name1).value.perShare
            <= DcfScenario(fcf, g2, r, years, netCash, shares, price, name2).value.perShare
  {
    var t1 := if g1 == 0.0 then fcf / r else GrowthTerminal(fcf, g1, r, years);
    var t2 := if g2 == 0.0 then fcf / r else GrowthTerminal(fcf, g2, r, years);
    PerShareMonotone(name1, g1, t1, EquityValue(fcf, g1, r, years, netCash),
                     name2, g2, t2, EquityValue(fcf, g2, r, years, netCash), shares, price);
  }

  /** When the cash flow grows at exactly the discount rate, every projected
      year discounts back to today's cash flow. */
  lemma {:induction false} PvSumAtDiscountRate(fcf: real, r: real, n: nat)
    requires 1.0 + r != 0.0
    ensures PvSum(fcf, r, r, n) == n as real * fcf
  {
    if n > 0 {
      PvSumAtDiscountRate(fcf, r, n - 1);
      PowNonZero(1.0 + r, n);
      var p := Pow(1.0 + r, n);
      assert Projected(fcf, r, n) == fcf * p;
      MulDivSame(fcf, p);
    }
  }

  lemma MulDivSame(a: real, p: real)
    requires p != 0.0
    ensures a * p / p == a
  {
  }

  /** Growth at the discount rate over a non-negative horizon: the equity is
      `years` cash flows, plus the undiscounted perpetuity, plus net cash. */
  lemma GrowthAtDiscountRate(fcf: real, r: real, years: int, netCash: real)
    requires r != 0.0 && 1.0 + r != 0.0
    requires years >= 0
    ensures GrowthEquity(fcf, r, r, years, netCash) == years as real * fcf + fcf / r + netCash
  {
    PvSumAtDiscountRate(fcf, r, years);
    PowNonZero(1.0 + r, years);
    var p := Pow(1.0 + r, years);
    assert IntPow(1.0 + r, years) == p;
    assert Horizon(years) == years;
    assert Projected(fcf, r, Horizon(years)) == fcf * p;
    DivCongruent(Projected(fcf, r, Horizon(years)), fcf * p, r);
    DiscountPerpetuity(fcf, p, r);
    DivCongruent(GrowthTerminal(fcf, r, r, years), fcf * p / r, p);
  }

  /** A perpetuity on a cash flow compounded by `p`, discounted by `p`. */
  lemma DiscountPerpetuity(a: real, p: real, r: real)
    requires p != 0.0 && r != 0.0
    ensures a * p / r / p == a / r
  {
    var q := a * p / r;
    var u := q / p;
    assert q * r == a * p;
    assert u * p == q;
    assert (u * r) * p == q * r;
    MulCancel(u * r, a, p);
    assert u * r == a;
  }
}
