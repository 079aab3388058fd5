/** One discounted-cash-flow scenario (`_calc_dcf_scenario`). A zero growth
    rate selects a single perpetuity on the current free cash flow; any other
    growth rate projects the cash flow for `years` periods, discounts each
    year, and adds the discounted perpetuity on the last projected year.
    Money is in millions of yen, per-share values in yen. */
module Dcf {
  import opened Outcomes
  import opened RealMath
  import opened Rounding
  import Ratios

  datatype DcfResult = DcfResult(
    name: string,
    growthRate: real,
    terminalValue: real,   // millions of yen
    equityValue: real,     // millions of yen
    perShare: real,        // yen, rounded to a whole yen
    upside: real           // fraction of the price, rounded to 4 decimals
  )

  /** "the discount rate is 0". */
  const DiscountZeroMessage: string := "割引率が0です"

  /** The number of iterations of the projection loop (`range(1, years + 1)`). */
  function Horizon(years: int): nat {
    if years < 0 then 0 else years
  }

  /** Present value of the projected cash flows of years 1..n, each grown by
      (1 + g) per year and discounted by (1 + r) per year. */
  function PvSum(fcf: real, g: real, r: real, n: nat): real
    requires 1.0 + r != 0.0 || n == 0
    decreases n
  {
    if n == 0 then 0.0
    else
      PowNonZero(1.0 + r, n);
      PvSum(fcf, g, r, n - 1) + Projected(fcf, g, n) / Pow(1.0 + r, n)
  }

  /** Python's `(1 + r) ** years` is undefined exactly when 1 + r is zero and
      the exponent is negative; with a positive exponent the division by it is. */
  predicate DiscountDefined(r: real, years: int) {
    1.0 + r != 0.0 || years == 0
  }

  lemma IntPowNonZero(x: real, n: int)
    requires x != 0.0 || n == 0
    ensures IntPow(x, n) != 0.0
  {
    if n >= 0 {
      if x != 0.0 {
        PowNonZero(x, n);
      }
    } else {
      PowNonZero(x, -n);
    }
  }

  /** The free cash flow compounded for n years. */
  function Projected(fcf: real, g: real, n: nat): real {
    fcf * Pow(1.0 + g, n)
  }

  /** Terminal value of the growth branch: perpetuity on the last projected year. */
  function GrowthTerminal(fcf: real, g: real, r: real, years: int): real
    requires r != 0.0
  {
    Projected(fcf, g, Horizon(years)) / r
  }

  /** Equity value of the growth branch: discounted projected cash flows,
      the discounted terminal value, and net cash. */
  function GrowthEquity(fcf: real, g: real, r: real, years: int, netCash: real): real
    requires r != 0.0 && DiscountDefined(r, years)
  {
    IntPowNonZero(1.0 + r, years);
    PvSum(fcf, g, r, Horizon(years))
      + GrowthTerminal(fcf, g, r, years) / IntPow(1.0 + r, years)
      + netCash
  }

  /** The unrounded equity value of a scenario, whichever branch applies. */
  function EquityValue(fcf: real, g: real, r: real, years: int, netCash: real): real
    requires r != 0.0 && (g == 0.0 || DiscountDefined(r, years))
  {
    if g == 0.0 then fcf / r + netCash
    else GrowthEquity(fcf, g, r, years, netCash)
  }

  /** The terminal value a scenario reports: the perpetuity on the current
      cash flow at zero growth, on the last projected year otherwise. */
  function ScenarioTerminal(fcf: real, g: real, r: real, years: int): (t: real)
    requires r != 0.0
    ensures t * r == if g == 0.0 then fcf else Projected(fcf, g, Horizon(years))
  {
    MulDivCancel(if g == 0.0 then fcf else Projected(fcf, g, Horizon(years)), r);
    if g == 0.0 then fcf / r else GrowthTerminal(fcf, g, r, years)
  }

  /** The scenario fails exactly when Python raises: a zero discount rate is a
      `ValuationError`; a zero `1 + r` in the growth branch, a zero share
      count or a zero price is a division by zero. */
  predicate ScenarioFails(g: real, r: real, years: int, shares: real, price: real) {
    r == 0.0 || (g != 0.0 && !DiscountDefined(r, years)) || shares == 0.0 || price == 0.0
  }

  /** `_calc_dcf_scenario`, as a specification. */
  function DcfScenario(fcf: real, g: real, r: real, years: int, netCash: real,
                       shares: real, price: real, name: string): (res: Result<DcfResult, Fault>)
    ensures res.Err? <==> ScenarioFails(g, r, years, shares, price)
    ensures res.Err? ==> (res.error == ValuationError(DiscountZeroMessage) <==> r == 0.0)
    ensures res.Err? && r != 0.0 ==> res.error == ZeroDivision
    ensures res.Ok? ==> res.value.name == name && res.value.growthRate == g
    ensures res.Ok? ==> res.value.equityValue == EquityValue(fcf, g, r, years, netCash)
    ensures res.Ok? && g == 0.0 ==>
              res.value.terminalValue * r == fcf
              && res.value.equityValue == res.value.terminalValue + netCash
    ensures res.Ok? ==>
              var exact := res.value.equityValue * Ratios.Million / shares;
              -0.5 <= res.value.perShare - exact <= 0.5
              && -0.00005 <= res.value.upside - (exact - price) / price <= 0.00005
  {
    if r == 0.0 then Err(ValuationError(DiscountZeroMessage))
    else if g != 0.0 && !DiscountDefined(r, years) then Err(ZeroDivision)
    else
      var terminal := ScenarioTerminal(fcf, g, r, years);
      var equity := EquityValue(fcf, g, r, years, netCash);
      PerShareResult(name, g, terminal, equity, shares, price)
  }

  /** On either branch the reported terminal value is a perpetuity at the
      discount rate: on the current free cash flow at zero growth, on the
      last projected year's otherwise. */
  lemma ScenarioTerminalIsPerpetuity(fcf: real, g: real, r: real, years: int, netCash: real,
                                     shares: real, price: real, name: string)
    requires DcfScenario(fcf, g, r, years, netCash, shares, price, name).Ok?
    ensures DcfScenario(fcf, g, r, years, netCash, shares, price, name).value.terminalValue * r
            == if g == 0.0 then fcf else Projected(fcf, g, Horizon(years))
  {
    var t := ScenarioTerminal(fcf, g, r, years);
    assert DcfScenario(fcf, g, r, years, netCash, shares, price, name).value.terminalValue == t;
  }

  /** The last step of a scenario: the equity value converted to yen per
      share (rounded to a whole yen) and the upside over the price (rounded
      to 4 decimals); a zero share count or price is a division by zero. */
  function PerShareResult(name: string, g: real, terminal: real, equity: real,
                          shares: real, price: real): (res: Result<DcfResult, Fault>)
    ensures res.Err? <==> shares == 0.0 || price == 0.0
    ensures res.Err? ==> res.error == ZeroDivision
    ensures res.Ok? ==> res.value.name == name && res.value.growthRate == g
                        && res.value.terminalValue == terminal && res.value.equityValue == equity
    ensures res.Ok? ==>
              var exact := equity * Ratios.Million / shares;
              -0.5 <= res.value.perShare - exact <= 0.5
              && -0.00005 <= res.value.upside - (exact - price) / price <= 0.00005
  {
    if shares == 0.0 || price == 0.0 then Err(ZeroDivision)
    else
      var perShare := equity * Ratios.Million / shares;
      var upside := (perShare - price) / price;
      assert Scale(0) == 1.0;
      assert Scale(4) == 10000.0;
      Ok(DcfResult(name, g, terminal, equity, Round(perShare, 0), Round(upside, 4)))
  }

  /** One iteration of the projection loop: compounding the last projected
      cash flow gives year n's, and adding its present value extends the sum
      to year n. */
  lemma ProjectionStep(fcf: real, g: real, r: real, n: nat, projected: real, pv: real)
    requires 1.0 + r != 0.0
    requires n >= 1
    requires projected == Projected(fcf, g, n - 1)
    requires pv == PvSum(fcf, g, r, n - 1)
    ensures Pow(1.0 + r, n) != 0.0
    ensures projected * (1.0 + g) == Projected(fcf, g, n)
    ensures pv + projected * (1.0 + g) / Pow(1.0 + r, n) == PvSum(fcf, g, r, n)
  {
    PowNonZero(1.0 + r, n);
    assert Pow(1.0 + g, n) == (1.0 + g) * Pow(1.0 + g, n - 1);
  }

  /** The projection loop of the growth branch: compounds the free cash
      flow year by year and accumulates each year's present value. Returns
      the accumulated present value and the last projected cash flow; with a
      zero `1 + r` the first division raises. */
  method ProjectCashFlows(fcf: real, g: real, r: real, years: int)
    returns (res: Result<(real, real), Fault>)
    ensures res.Err? <==> 1.0 + r == 0.0 && years >= 1
    ensures res.Err? ==> res.error == ZeroDivision
    ensures res.Ok? ==> res.value.0 == PvSum(fcf, g, r, Horizon(years))
                        && res.value.1 == Projected(fcf, g, Horizon(years))
  {
    if 1.0 + r == 0.0 && years >= 1 {
      // the first iteration divides by (1 + r) ** 1 == 0.0
      return Err(ZeroDivision);
    }
    var pv := 0.0;
    var projected := fcf;
    var year := 1;
    while year <= years
      invariant 1 <= year <= Horizon(years) + 1
      invariant projected == Projected(fcf, g, year - 1)
      invariant pv == PvSum(fcf, g, r, year - 1)
    {
      ProjectionStep(fcf, g, r, year, projected, pv);
      projected := projected * (1.0 + g);
      pv := pv + projected / Pow(1.0 + r, year);
      year := year + 1;
    }
    res := Ok((pv, projected));
  }

  /** The growth branch as the source computes it: the projection loop, then
      the terminal value discounted by `(1 + r) ** years`. Returns the
      terminal value and the equity value. */
  method GrowthBranch(fcf: real, g: real, r: real, years: int, netCash: real)
    returns (res: Result<(real, real), Fault>)
    requires r != 0.0
    ensures res.Err? <==> !DiscountDefined(r, years)
    ensures res.Err? ==> res.error == ZeroDivision
    ensures res.Ok? ==> res.value.0 == GrowthTerminal(fcf, g, r, years)
                        && res.value.1 == GrowthEquity(fcf, g, r, years, netCash)
  {
    var projection := ProjectCashFlows(fcf, g, r, years);
    if projection.Err? {
      return Err(projection.error);
    }
    var (pv, projected) := projection.value;
    var terminal := projected / r;
    if 1.0 + r == 0.0 && years < 0 {
      // 0.0 ** years with a negative exponent raises
      return Err(ZeroDivision);
    }
    IntPowNonZero(1.0 + r, years);
    var pvTerminal := terminal / IntPow(1.0 + r, years);
    var equity := pv + pvTerminal + netCash;
    DivCongruent(projected, Projected(fcf, g, Horizon(years)), r);
    DivCongruent(terminal, GrowthTerminal(fcf, g, r, years), IntPow(1.0 + r, years));
    res := Ok((terminal, equity));
  }

  /** `_calc_dcf_scenario` as the source computes it. */
  method DcfScenarioLoop(fcf: real, g: real, r: real, years: int, netCash: real,
                         shares: real, price: real, name: string) returns (res: Result<DcfResult, Fault>)
    ensures res == DcfScenario(fcf, g, r, years, netCash, shares, price, name)
  {
    if r == 0.0 {
      return Err(ValuationError(DiscountZeroMessage));
    }
    var terminal: real;
    var equity: real;
    if g == 0.0 {
      terminal := fcf / r;
      equity := terminal + netCash;
    } else {
      var branch := GrowthBranch(fcf, g, r, years, netCash);
      if branch.Err? {
        return Err(branch.error);
      }
      terminal, equity := branch.value.0, branch.value.1;
    }
    res := PerShareResult(name, g, terminal, equity, shares, price);
  }
}
