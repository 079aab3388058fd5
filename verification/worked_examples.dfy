/** The figures the model gives on the test suite's inputs for two listed
    companies: JECOS (shares given in thousands, outstanding only) and
    CANARE (ex-treasury count given). Each lemma pins the exact value the
    model produces; the tests check some of these figures, within their
    tolerance. */
module WorkedExamples {
  import opened Outcomes
  import opened Normalize
  import opened Dcf
  import opened Valuation
  import Ratios
  import Rounding
  import RealMath
  import DcfOrdering

  /** JECOS: no ex-treasury count, 33,794 thousand shares outstanding. */
  function JecosFacts(): RawFacts {
    RawFacts(
      stockPrice := Some(1668.0),
      sharesOutstandingExTreasury := None,
      sharesOutstanding := Some(33794.0),
      treasuryShares := None,
      sharesUnit := Some("thousands"),
      bps := Some(1861.66),
      epsActual := Some(134.8),
      epsForecast := Some(163.0),
      dividendAnnual := Some(65.0),
      revenue := Some(130000.0),
      operatingProfit := Some(7800.0),
      netIncome := Some(5500.0),
      operatingCf := Some(8781.0),
      fcf := Some(5800.0),
      netCash := Some(5486.0),
      ebitda := Some(12000.0),
      netAssets := Some(62918.0),
      effectiveTaxRate := Some(0.30),
      discountRate := Some(0.10),
      liquidationValuePerShare := Some(1035.0),
      dcfGrowthMiddle := Some(0.10),
      dcfGrowthStrong := Some(0.20),
      dcfYears := Some(5))
  }

  /** The thousands unit scales the share count; nothing else is rescaled
      because every aggregate is below the threshold. */
  lemma JecosNormalized()
    ensures FromDict(JecosFacts()).Ok?
    ensures FromDict(JecosFacts()).value.shares == 33_794_000.0
    ensures FromDict(JecosFacts()).value.netCash == 5486.0
  {
  }

  /** Dropping the only share count makes normalisation fail with the
      message naming both keys. */
  lemma JecosWithoutShares()
    ensures FromDict(JecosFacts().(sharesOutstanding := None))
            == Err(ValuationError(MissingSharesMessage))
  {
  }

  /** A net cash figure above one million is read as thousands of yen. */
  lemma JecosNetCashInThousands()
    ensures FromDict(JecosFacts().(netCash := Some(5_486_000.0))).value.netCash == 5486.0
  {
  }

  /** The bear scenario: 5800 / 0.10 = 58,000 terminal, plus 5,486 net cash;
      63,486 million yen over 33,794,000 shares is 1,878.6 yen, reported as
      1,879, an upside of 12.63%. */
  lemma JecosBear()
    ensures DcfScenario(5800.0, 0.0, 0.10, 5, 5486.0, 33_794_000.0, 1668.0, BearLabel)
            == Ok(DcfResult(BearLabel, 0.0, 58000.0, 63486.0, 1879.0, 0.1263))
  {
  }

  /** CANARE's bear scenario: 1666 / 0.10 + 13,692 = 30,352 million yen over
      6,841,000 shares, 4,436.8 yen, reported as 4,437. */
  lemma CanareBear()
    ensures DcfScenario(1666.0, 0.0, 0.10, 5, 13692.0, 6_841_000.0, 2527.0, BearLabel).Ok?
    ensures DcfScenario(1666.0, 0.0, 0.10, 5, 13692.0, 6_841_000.0, 2527.0, BearLabel).value.equityValue
            == 30352.0
    ensures DcfScenario(1666.0, 0.0, 0.10, 5, 13692.0, 6_841_000.0, 2527.0, BearLabel).value.perShare
            == 4437.0
  {
  }

  /** JECOS's input after normalisation. */
  function JecosInput(): ValuationInput {
    ValuationInput(
      stockPrice := 1668.0, shares := 33_794_000.0, bps := 1861.66,
      epsActual := Some(134.8), epsForecast := Some(163.0), dividendAnnual := Some(65.0),
      revenue := 130000.0, operatingProfit := 7800.0, netIncome := 5500.0,
      operatingCf := 8781.0, fcf := 5800.0, netCash := 5486.0, ebitda := 12000.0,
      netAssets := 62918.0, effectiveTaxRate := 0.30, discountRate := 0.10,
      liquidationValuePerShare := Some(1035.0),
      dcfGrowthMiddle := 0.10, dcfGrowthStrong := 0.20, dcfYears := 5)
  }

  lemma JecosInputNormalized()
    ensures FromDict(JecosFacts()) == Ok(JecosInput())
  {
  }

  /** A scenario's per-share value, from bounds on its equity value. */
  lemma ScenarioPerShare(fcf: real, g: real, r: real, years: int, netCash: real,
                         shares: real, price: real, name: string, lo: real, hi: real, n: int)
    requires !ScenarioFails(g, r, years, shares, price)
    requires shares > 0.0
    requires lo <= EquityValue(fcf, g, r, years, netCash) <= hi
    requires n as real - 0.5 < lo * Ratios.Million / shares
    requires hi * Ratios.Million / shares < n as real + 0.5
    ensures DcfScenario(fcf, g, r, years, netCash, shares, price, name).value.perShare == n as real
  {
    var e := EquityValue(fcf, g, r, years, netCash);
    RealMath.MulLeMono(lo, e, Ratios.Million);
    RealMath.MulLeMono(e, hi, Ratios.Million);
    RealMath.DivLeMono(lo * Ratios.Million, e * Ratios.Million, shares);
    RealMath.DivLeMono(e * Ratios.Million, hi * Ratios.Million, shares);
    assert Rounding.Scale(0) == 1.0;
    Rounding.RoundNear(e * Ratios.Million / shares, 0, n);
    var t := if g == 0.0 then fcf / r else GrowthTerminal(fcf, g, r, years);
    assert DcfScenario(fcf, g, r, years, netCash, shares, price, name)
           == PerShareResult(name, g, t, e, shares, price);
  }

  /** The middle scenario, growth equal to the discount rate: each year
      discounts back to 5,800 (29,000 over five years), the terminal value
      discounts back to 58,000, plus 5,486 net cash: 92,486 million yen,
      2,737 yen per share. */
  lemma JecosMiddle()
    ensures DcfScenario(5800.0, 0.10, 0.10, 5, 5486.0, 33_794_000.0, 1668.0, MiddleLabel).Ok?
    ensures DcfScenario(5800.0, 0.10, 0.10, 5, 5486.0, 33_794_000.0, 1668.0, MiddleLabel).value.equityValue
            == 92486.0
    ensures DcfScenario(5800.0, 0.10, 0.10, 5, 5486.0, 33_794_000.0, 1668.0, MiddleLabel).value.perShare
            == 2737.0
  {
    DcfOrdering.GrowthAtDiscountRate(5800.0, 0.10, 5, 5486.0);
    assert EquityValue(5800.0, 0.10, 0.10, 5, 5486.0) == 92486.0;
    ScenarioPerShare(5800.0, 0.10, 0.10, 5, 5486.0, 33_794_000.0, 1668.0, MiddleLabel, 92486.0, 92486.0, 2737);
  }

  /** The strong scenario's equity value, 133,034.5 million yen: five
      discounted years grown at 20% and the discounted perpetuity on the
      fifth. */
  lemma JecosStrongEquity()
    ensures 133034.0 <= EquityValue(5800.0, 0.20, 0.10, 5, 5486.0) <= 133035.0
  {
    var fcf, g, r := 5800.0, 0.20, 0.10;
    assert RealMath.Pow(1.2, 1) == 1.2;
    assert RealMath.Pow(1.2, 2) == 1.44;
    assert RealMath.Pow(1.2, 3) == 1.728;
    assert RealMath.Pow(1.2, 4) == 2.0736;
    assert RealMath.Pow(1.2, 5) == 2.48832;
    assert RealMath.Pow(1.1, 1) == 1.1;
    assert RealMath.Pow(1.1, 2) == 1.21;
    assert RealMath.Pow(1.1, 3) == 1.331;
    assert RealMath.Pow(1.1, 4) == 1.4641;
    assert RealMath.Pow(1.1, 5) == 1.61051;
    assert PvSum(fcf, g, r, 1) == 5800.0 * 1.2 / 1.1;
    assert PvSum(fcf, g, r, 2) == PvSum(fcf, g, r, 1) + 5800.0 * 1.44 / 1.21;
    assert PvSum(fcf, g, r, 3) == PvSum(fcf, g, r, 2) + 5800.0 * 1.728 / 1.331;
    assert PvSum(fcf, g, r, 4) == PvSum(fcf, g, r, 3) + 5800.0 * 2.0736 / 1.4641;
    assert PvSum(fcf, g, r, 5) == PvSum(fcf, g, r, 4) + 5800.0 * 2.48832 / 1.61051;
    assert GrowthTerminal(fcf, g, r, 5) == 5800.0 * 2.48832 / 0.1;
    assert RealMath.IntPow(1.1, 5) == 1.61051;
  }

  /** The strong scenario (growth 20%): 3,937 yen per share. */
  lemma JecosStrong()
    ensures DcfScenario(5800.0, 0.20, 0.10, 5, 5486.0, 33_794_000.0, 1668.0, StrongLabel).Ok?
    ensures DcfScenario(5800.0, 0.20, 0.10, 5, 5486.0, 33_794_000.0, 1668.0, StrongLabel).value.perShare
            == 3937.0
  {
    JecosStrongEquity();
    ScenarioPerShare(5800.0, 0.20, 0.10, 5, 5486.0, 33_794_000.0, 1668.0, StrongLabel, 133034.0, 133035.0, 3937);
  }

  lemma JecosMarketCap()
    ensures Rounding.Round(Ratios.MarketCap(1668.0, 33_794_000.0), 2) == 56368.39
  {
    assert Rounding.Scale(2) == 100.0;
    Rounding.RoundNear(1668.0 * 33_794_000.0 / Ratios.Million, 2, 5636839);
  }

  lemma JecosPerActual()
    ensures RoundOpt(Ratios.Per(1668.0, Some(134.8)), 2) == Some(12.37)
  {
    assert Rounding.Scale(2) == 100.0;
    Rounding.RoundNear(1668.0 / 134.8, 2, 1237);
  }

  lemma JecosPerForecast()
    ensures RoundOpt(Ratios.Per(1668.0, Some(163.0)), 2) == Some(10.23)
  {
    assert Rounding.Scale(2) == 100.0;
    Rounding.RoundNear(1668.0 / 163.0, 2, 1023);
  }

  lemma JecosPbr()
    ensures Rounding.Round(1668.0 / 1861.66, 2) == 0.90
  {
    assert Rounding.Scale(2) == 100.0;
    Rounding.RoundNear(1668.0 / 1861.66, 2, 90);
  }

  lemma JecosPerXPbr()
    ensures RoundOpt(PerXPbr(Ratios.Per(1668.0, Some(163.0)), 1668.0 / 1861.66), 2) == Some(9.17)
  {
    assert Rounding.Scale(2) == 100.0;
    Rounding.RoundNear(1668.0 / 163.0 * (1668.0 / 1861.66), 2, 917);
  }

  lemma JecosDividendYield()
    ensures RoundOpt(Ratios.DividendYield(Some(65.0), 1668.0), 4) == Some(0.0390)
  {
    assert Rounding.Scale(4) == 10000.0;
    Rounding.RoundNear(65.0 / 1668.0, 4, 390);
  }

  lemma JecosNopat()
    ensures Ratios.Nopat(7800.0, 0.30) == 5460.0
    ensures Rounding.Round(5460.0, 2) == 5460.0
  {
    assert Rounding.Scale(2) == 100.0;
    Rounding.RoundNear(5460.0, 2, 546000);
  }

  lemma JecosInvestedCapital()
    ensures Ratios.InvestedCapital(62918.0, 5486.0) == 57432.0
    ensures Rounding.Round(57432.0, 2) == 57432.0
  {
    assert Rounding.Scale(2) == 100.0;
    Rounding.RoundNear(57432.0, 2, 5743200);
  }

  lemma JecosRoic()
    ensures RoundOpt(Ratios.Roic(5460.0, Some(57432.0)), 4) == Some(0.0951)
  {
    assert Rounding.Scale(4) == 10000.0;
    Rounding.RoundNear(5460.0 / 57432.0, 4, 951);
  }

  /** JECOS's headline ratios, rounded as reported. */
  lemma JecosRatios(rows: seq<DcfRow>)
    ensures var rep := Assemble(JecosInput(), 1668.0 / 1861.66, rows);
            rep.stockPrice == 1668.0
            && rep.marketCap == 56368.39
            && rep.perActual == Some(12.37)
            && rep.perForecast == Some(10.23)
            && rep.pbr == 0.90
            && rep.dividendYield == Some(0.0390)
            && rep.perXPbr == Some(9.17)
            && rep.nopat == 5460.0
            && rep.investedCapital == 57432.0
            && rep.roic == Some(0.0951)
  {
    JecosMarketCap();
    JecosPerActual();
    JecosPerForecast();
    JecosPbr();
    JecosPerXPbr();
    JecosDividendYield();
    JecosNopat();
    JecosInvestedCapital();
    JecosRoic();
  }

  /** JECOS's three scenarios, in order, the per-share values strictly
      increasing. */
  lemma JecosScenarios()
    ensures Scenarios(JecosInput()).Ok?
    ensures var d := Scenarios(JecosInput()).value;
            |d| == 3
            && d[0].name == BearLabel && d[1].name == MiddleLabel && d[2].name == StrongLabel
            && d[0].perShare == 1879.0 && d[1].perShare == 2737.0 && d[2].perShare == 3937.0
  {
    JecosBear();
    JecosMiddle();
    JecosStrong();
  }

  /** JECOS's full report. */
  lemma JecosReport()
    ensures CalculateValuation(JecosInput()).Ok?
    ensures var rep := CalculateValuation(JecosInput()).value;
            rep.pbr == 0.90 && rep.perXPbr == Some(9.17) && rep.roic == Some(0.0951)
            && |rep.dcf| == 3
            && rep.dcf[0].perShare < rep.dcf[1].perShare < rep.dcf[2].perShare
  {
    JecosScenarios();
    assert Ratios.Pbr(1668.0, 1861.66) == Ok(1668.0 / 1861.66);
    JecosRatios(Scenarios(JecosInput()).value);
  }
}
