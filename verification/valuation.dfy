/** The valuation engine's entry point (`calculate_valuation`): every ratio
    once, the three DCF scenarios with their fixed labels and order, and the
    presentation rounding of the fixed-shape result. */
module Valuation {
  import opened Outcomes
  import opened Rounding
  import opened Ratios
  import opened Normalize
  import opened Dcf
  import DcfOrdering

  const BearLabel: string := "弱気"      // bearish: growth 0
  const MiddleLabel: string := "ミドル"  // middle: `dcf_growth_middle`
  const StrongLabel: string := "強気"    // bullish: `dcf_growth_strong`

  /** One entry of the result's `dcf` list. */
  datatype DcfRow = DcfRow(
    name: string,
    growthRate: real,
    terminalValue: real,
    equityValue: real,
    perShare: real,
    upside: real
  )

  /** The result record; an undefined ratio is an explicit `None`. */
  datatype Report = Report(
    stockPrice: real,
    shares: real,
    marketCap: real,
    perActual: Option<real>,
    perForecast: Option<real>,
    pbr: real,
    pcr: Option<real>,
    psr: Option<real>,
    dividendYield: Option<real>,
    perXPbr: Option<real>,
    evEbitda: Option<real>,
    nopat: real,
    investedCapital: real,
    roic: Option<real>,
    liquidationDiscount: Option<real>,
    dcf: seq<DcfRow>
  )

  /** `_round`: rounds a present value, keeps an absent one absent. */
  function RoundOpt(v: Option<real>, digits: nat): (r: Option<real>)
    ensures r.None? <==> v.None?
    ensures r.Some? ==> -0.5 / Scale(digits) <= r.value - v.value <= 0.5 / Scale(digits)
  {
    match v
    case None => None
    case Some(x) => Some(Round(x, digits))
  }

  /** The presentation of one scenario: money rounded to 2 decimals; the
      per-share value and upside were already rounded by the scenario. */
  function Row(d: DcfResult): (row: DcfRow)
    ensures row.name == d.name && row.growthRate == d.growthRate
    ensures row.perShare == d.perShare && row.upside == d.upside
    ensures -0.005 <= row.equityValue - d.equityValue <= 0.005
    ensures -0.005 <= row.terminalValue - d.terminalValue <= 0.005
  {
    assert Scale(2) == 100.0;
    DcfRow(d.name, d.growthRate, Round(d.terminalValue, 2), Round(d.equityValue, 2), d.perShare, d.upside)
  }

  /** The growth rates of the three scenarios, in presentation order. */
  function ScenarioGrowth(inp: ValuationInput): seq<real> {
    [0.0, inp.dcfGrowthMiddle, inp.dcfGrowthStrong]
  }

  /** The scenario labels, in presentation order. */
  function ScenarioLabels(): seq<string> {
    [BearLabel, MiddleLabel, StrongLabel]
  }

  /** One scenario of `inp`, sharing every input but the growth rate and label. */
  function Scenario(inp: ValuationInput, i: nat): Result<DcfResult, Fault>
    requires i < 3
  {
    DcfScenario(inp.fcf, ScenarioGrowth(inp)[i], inp.discountRate, inp.dcfYears,
                inp.netCash, inp.shares, inp.stockPrice, ScenarioLabels()[i])
  }

  /** The engine fails exactly when one of its steps raises. */
  predicate ValuationFails(inp: ValuationInput) {
    inp.bps == 0.0
    || ScenarioFails(0.0, inp.discountRate, inp.dcfYears, inp.shares, inp.stockPrice)
    || ScenarioFails(inp.dcfGrowthMiddle, inp.discountRate, inp.dcfYears, inp.shares, inp.stockPrice)
    || ScenarioFails(inp.dcfGrowthStrong, inp.discountRate, inp.dcfYears, inp.shares, inp.stockPrice)
  }

  /** The three scenarios in presentation order; the first failing
      scenario's error is the result. */
  function Scenarios(inp: ValuationInput): (r: Result<seq<DcfRow>, Fault>)
    ensures r.Err? <==> exists i :: 0 <= i < 3 && Scenario(inp, i).Err?
    ensures r.Err? && inp.discountRate == 0.0 ==> r.error == ValuationError(DiscountZeroMessage)
    ensures r.Err? && inp.discountRate != 0.0 ==> r.error == ZeroDivision
    ensures r.Ok? ==> |r.value| == 3
    ensures r.Ok? ==> forall i :: 0 <= i < 3 ==>
              Scenario(inp, i).Ok?
              && r.value[i] == Row(Scenario(inp, i).value)
              && r.value[i].name == ScenarioLabels()[i]
              && r.value[i].growthRate == ScenarioGrowth(inp)[i]
  {
    var bear :- Scenario(inp, 0);
    var middle :- Scenario(inp, 1);
    var strong :- Scenario(inp, 2);
    Ok([Row(bear), Row(middle), Row(strong)])
  }

  /** P/E x P/B on the forecast P/E; undefined when that P/E is. */
  function PerXPbr(perForecast: Option<real>, pbr: real): (r: Option<real>)
    ensures r.None? <==> perForecast.None?
    ensures r.Some? ==> r.value == perForecast.value * pbr
  {
    if perForecast.Some? then Some(perForecast.value * pbr) else None
  }

  /** Every ratio of `inp` given its (defined) P/B, rounded for presentation,
      next to the scenario rows. */
  function Assemble(inp: ValuationInput, pbr: real, rows: seq<DcfRow>): (rep: Report)
    ensures rep.stockPrice == inp.stockPrice && rep.shares == inp.shares && rep.dcf == rows
    ensures rep.perActual.None? <==> Per(inp.stockPrice, inp.epsActual).None?
    ensures rep.perForecast.None? <==> Per(inp.stockPrice, inp.epsForecast).None?
    ensures rep.pcr.None? <==> inp.operatingCf <= 0.0
    ensures rep.psr.None? <==> inp.revenue <= 0.0
    ensures rep.dividendYield.None? <==> inp.dividendAnnual.None? || inp.stockPrice == 0.0
    ensures rep.evEbitda.None? <==> inp.ebitda <= 0.0
    ensures rep.roic.None? <==> InvestedCapital(inp.netAssets, inp.netCash) <= 0.0
    ensures rep.liquidationDiscount.None? <==>
              LiquidationDiscount(inp.liquidationValuePerShare, inp.stockPrice).None?
    ensures rep.perXPbr.None? <==> Per(inp.stockPrice, inp.epsForecast).None?
  {
    var price := inp.stockPrice;
    var mcap := MarketCap(price, inp.shares);
    var perForecast := Per(price, inp.epsForecast);
    var nopat := Nopat(inp.operatingProfit, inp.effectiveTaxRate);
    var ic := InvestedCapital(inp.netAssets, inp.netCash);
    Report(
      stockPrice := price,
      shares := inp.shares,
      marketCap := Round(mcap, 2),
      perActual := RoundOpt(Per(price, inp.epsActual), 2),
      perForecast := RoundOpt(perForecast, 2),
      pbr := Round(pbr, 2),
      pcr := RoundOpt(Pcr(mcap, Some(inp.operatingCf)), 2),
      psr := RoundOpt(Psr(mcap, Some(inp.revenue)), 2),
      dividendYield := RoundOpt(DividendYield(inp.dividendAnnual, price), 4),
      perXPbr := RoundOpt(PerXPbr(perForecast, pbr), 2),
      evEbitda := RoundOpt(EvEbitda(mcap, inp.netCash, Some(inp.ebitda)), 2),
      nopat := Round(nopat, 2),
      investedCapital := Round(ic, 2),
      roic := RoundOpt(Roic(nopat, Some(ic)), 4),
      liquidationDiscount := RoundOpt(LiquidationDiscount(inp.liquidationValuePerShare, price), 4),
      dcf := rows)
  }

  /** `calculate_valuation`: P/B first (its error comes before any
      scenario's), then the three scenarios, then the rounded report. */
  function CalculateValuation(inp: ValuationInput): (r: Result<Report, Fault>)
    ensures r.Err? <==> ValuationFails(inp)
    ensures inp.bps == 0.0 ==> r == Err(ValuationError(BpsZeroMessage))
    ensures inp.bps != 0.0 && inp.discountRate == 0.0 ==> r == Err(ValuationError(DiscountZeroMessage))
    ensures r.Err? && inp.bps != 0.0 && inp.discountRate != 0.0 ==> r.error == ZeroDivision
    ensures r.Ok? ==> Pbr(inp.stockPrice, inp.bps).Ok?
                      && Scenarios(inp).Ok?
                      && r.value == Assemble(inp, Pbr(inp.stockPrice, inp.bps).value, Scenarios(inp).value)
  {
    var pbr :- Pbr(inp.stockPrice, inp.bps);
    var rows :- Scenarios(inp);
    Ok(Assemble(inp, pbr, rows))
  }

  /** P/E x P/B reads the forecast EPS only: changing the actual EPS changes
      neither whether the engine succeeds nor P/E x P/B. */
  lemma PerXPbrIgnoresActual(inp: ValuationInput, eps: Option<real>)
    ensures var r := CalculateValuation(inp);
            var other := CalculateValuation(inp.(epsActual := eps));
            (other.Ok? <==> r.Ok?) && (r.Ok? ==> other.value.perXPbr == r.value.perXPbr)
  {
  }

  /** Presentation rounding moves each reported figure by at most half a
      unit of its last decimal: 0.005 for the two-decimal figures, 0.00005
      for dividend yield, ROIC and liquidation discount. Each figure is
      compared with the unrounded ratio the engine computes. */
  lemma ReportWithinRounding(inp: ValuationInput, pbr: real, rows: seq<DcfRow>)
    ensures var rep := Assemble(inp, pbr, rows);
            var mcap := MarketCap(inp.stockPrice, inp.shares);
            -0.005 <= rep.marketCap - mcap <= 0.005
            && -0.005 <= rep.pbr - pbr <= 0.005
            && -0.005 <= rep.nopat - Nopat(inp.operatingProfit, inp.effectiveTaxRate) <= 0.005
            && -0.005 <= rep.investedCapital - InvestedCapital(inp.netAssets, inp.netCash) <= 0.005
            && (rep.perActual.Some? ==>
                  -0.005 <= rep.perActual.value - Per(inp.stockPrice, inp.epsActual).value <= 0.005)
            && (rep.perForecast.Some? ==>
                  -0.005 <= rep.perForecast.value - Per(inp.stockPrice, inp.epsForecast).value <= 0.005)
            && (rep.perXPbr.Some? ==>
                  -0.005 <= rep.perXPbr.value - Per(inp.stockPrice, inp.epsForecast).value * pbr <= 0.005)
            && (rep.pcr.Some? ==>
                  -0.005 <= rep.pcr.value - Pcr(mcap, Some(inp.operatingCf)).value <= 0.005)
            && (rep.psr.Some? ==>
                  -0.005 <= rep.psr.value - Psr(mcap, Some(inp.revenue)).value <= 0.005)
            && (rep.evEbitda.Some? ==>
                  -0.005 <= rep.evEbitda.value - EvEbitda(mcap, inp.netCash, Some(inp.ebitda)).value <= 0.005)
            && (rep.dividendYield.Some? ==>
                  -0.00005 <= rep.dividendYield.value
                              - DividendYield(inp.dividendAnnual, inp.stockPrice).value <= 0.00005)
            && (rep.roic.Some? ==>
                  -0.00005 <= rep.roic.value
                              - Roic(Nopat(inp.operatingProfit, inp.effectiveTaxRate),
                                     Some(InvestedCapital(inp.netAssets, inp.netCash))).value <= 0.00005)
            && (rep.liquidationDiscount.Some? ==>
                  -0.00005 <= rep.liquidationDiscount.value
                              - LiquidationDiscount(inp.liquidationValuePerShare, inp.stockPrice).value <= 0.00005)
  {
    assert Scale(2) == 100.0;
    assert Scale(4) == 10000.0;
  }

  /** The reported scenarios keep the order bear <= middle <= strong, in
      equity value and in value per share, whenever the free cash flow is
      non-negative, the discount rate positive and 0 <= middle growth <=
      strong growth. */
  lemma ReportedScenariosOrdered(inp: ValuationInput)
    requires CalculateValuation(inp).Ok?
    requires inp.fcf >= 0.0 && inp.discountRate > 0.0
    requires 0.0 <= inp.dcfGrowthMiddle <= inp.dcfGrowthStrong
    ensures var d := CalculateValuation(inp).value.dcf;
            d[0].equityValue <= d[1].equityValue <= d[2].equityValue
    ensures inp.shares > 0.0 ==>
              var d := CalculateValuation(inp).value.dcf;
              d[0].perShare <= d[1].perShare <= d[2].perShare
  {
    var d := CalculateValuation(inp).value.dcf;
    var e := seq(3, i requires 0 <= i < 3 => Scenario(inp, i).value.equityValue);
    DcfOrdering.ScenarioEquityOrdered(inp.fcf, inp.discountRate, inp.dcfYears, inp.netCash,
                                      inp.dcfGrowthMiddle, inp.dcfGrowthStrong);
    assert e[0] <= e[1] <= e[2];
    RoundMonotone(e[0], e[1], 2);
    RoundMonotone(e[1], e[2], 2);
    if inp.shares > 0.0 {
      DcfOrdering.ScenarioPerShareOrdered(inp.fcf, 0.0, inp.dcfGrowthMiddle, inp.discountRate, inp.dcfYears,
                                          inp.netCash, inp.shares, inp.stockPrice, BearLabel, MiddleLabel);
      DcfOrdering.ScenarioPerShareOrdered(inp.fcf, inp.dcfGrowthMiddle, inp.dcfGrowthStrong, inp.discountRate,
                                          inp.dcfYears, inp.netCash, inp.shares, inp.stockPrice,
                                          MiddleLabel, StrongLabel);
    }
  }
}
