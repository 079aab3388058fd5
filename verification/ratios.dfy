/** The per-metric ratio functions of the valuation engine. Each is one
    formula; they differ only in how an absent or degenerate divisor is
    treated: no value, no value when the divisor is not positive, or a
    `ValuationError`. Money aggregates are in millions of yen, per-share
    figures in yen. */
module Ratios {
  import opened Outcomes

  /** Yen per million yen. */
  const Million: real := 1_000_000.0

  /** Market capitalisation in millions: price (yen) times share count. */
  function MarketCap(price: real, shares: real): (mcap: real)
    ensures mcap * Million == price * shares
  {
    price * shares / Million
  }

  /** Price/earnings; no value for an absent or zero EPS. */
  function Per(price: real, eps: Option<real>): (r: Option<real>)
    ensures r.None? <==> (eps.None? || eps.value == 0.0)
    ensures r.Some? ==> r.value * eps.value == price
  {
    if eps.None? || eps.value == 0.0 then None
    else Some(price / eps.value)
  }

  /** Price/book; a zero book value per share is a `ValuationError`. */
  function Pbr(price: real, bps: real): (r: Result<real, Fault>)
    ensures r.Err? <==> bps == 0.0
    ensures r.Err? ==> r.error == ValuationError(BpsZeroMessage)
    ensures r.Ok? ==> r.value * bps == price
  {
    if bps == 0.0 then Err(ValuationError(BpsZeroMessage))
    else Ok(price / bps)
  }

  const BpsZeroMessage: string := "BPSが0です"

  /** Price/cash-flow; no value unless operating cash flow is positive. */
  function Pcr(marketCap: real, operatingCf: Option<real>): (r: Option<real>)
    ensures r.None? <==> (operatingCf.None? || operatingCf.value <= 0.0)
    ensures r.Some? ==> r.value * operatingCf.value == marketCap
  {
    if operatingCf.None? || operatingCf.value <= 0.0 then None
    else Some(marketCap / operatingCf.value)
  }

  /** Price/sales; no value unless revenue is positive. */
  function Psr(marketCap: real, revenue: Option<real>): (r: Option<real>)
    ensures r.None? <==> (revenue.None? || revenue.value <= 0.0)
    ensures r.Some? ==> r.value * revenue.value == marketCap
  {
    if revenue.None? || revenue.value <= 0.0 then None
    else Some(marketCap / revenue.value)
  }

  /** Dividend yield; no value for an absent dividend or a zero price. */
  function DividendYield(dividend: Option<real>, price: real): (r: Option<real>)
    ensures r.None? <==> (dividend.None? || price == 0.0)
    ensures r.Some? ==> r.value * price == dividend.value
  {
    if dividend.None? || price == 0.0 then None
    else Some(dividend.value / price)
  }

  /** EV/EBITDA with enterprise value = market cap minus net cash (net cash
      may be negative, i.e. net debt); no value unless EBITDA is positive. */
  function EvEbitda(marketCap: real, netCash: real, ebitda: Option<real>): (r: Option<real>)
    ensures r.None? <==> (ebitda.None? || ebitda.value <= 0.0)
    ensures r.Some? ==> r.value * ebitda.value + netCash == marketCap
  {
    if ebitda.None? || ebitda.value <= 0.0 then None
    else
      var ev := marketCap - netCash;
      Some(ev / ebitda.value)
  }

  /** Net operating profit after tax: the operating profit less its tax share. */
  function Nopat(operatingProfit: real, taxRate: real): (r: real)
    ensures r + operatingProfit * taxRate == operatingProfit
  {
    operatingProfit * (1.0 - taxRate)
  }

  /** A tax rate in [0, 1] leaves a non-negative profit between zero and itself. */
  lemma NopatBounds(operatingProfit: real, taxRate: real)
    requires operatingProfit >= 0.0
    requires 0.0 <= taxRate <= 1.0
    ensures 0.0 <= Nopat(operatingProfit, taxRate) <= operatingProfit
  {
    var keep := 1.0 - taxRate;
    assert 0.0 <= keep <= 1.0;
    assert operatingProfit * keep <= operatingProfit * 1.0;
  }

  /** Invested capital: net assets not held as net cash. */
  function InvestedCapital(netAssets: real, netCash: real): (r: real)
    ensures r + netCash == netAssets
  {
    netAssets - netCash
  }

  /** Return on invested capital; no value unless invested capital is positive. */
  function Roic(nopat: real, investedCapital: Option<real>): (r: Option<real>)
    ensures r.None? <==> (investedCapital.None? || investedCapital.value <= 0.0)
    ensures r.Some? ==> r.value * investedCapital.value == nopat
  {
    if investedCapital.None? || investedCapital.value <= 0.0 then None
    else Some(nopat / investedCapital.value)
  }

  /** Discount of the price to the liquidation value per share; no value for
      an absent or zero liquidation value. */
  function LiquidationDiscount(liquidationValue: Option<real>, price: real): (r: Option<real>)
    ensures r.None? <==> (liquidationValue.None? || liquidationValue.value == 0.0)
    ensures r.Some? ==> r.value * liquidationValue.value == liquidationValue.value - price
    ensures r.Some? && liquidationValue.value > 0.0 ==>
              (r.value > 0.0 <==> liquidationValue.value > price)
  {
    if liquidationValue.None? || liquidationValue.value == 0.0 then None
    else
      var lv := liquidationValue.value;
      SignOfQuotient(lv - price, lv);
      Some((lv - price) / lv)
  }

  /** A quotient by a positive divisor has the sign of its dividend. */
  lemma SignOfQuotient(x: real, d: real)
    requires d != 0.0
    ensures d > 0.0 ==> (x / d > 0.0 <==> x > 0.0)
  {
    assert x / d * d == x;
    if d > 0.0 && x / d > 0.0 {
      assert x / d * d > 0.0;
    }
  }
}
