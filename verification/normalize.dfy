/** The input normaliser: turns a loosely keyed record of financial facts
    into the engine's fixed-unit input (`ValuationInput.from_dict`). Share
    counts end up in shares, money aggregates in millions of yen. */
module Normalize {
  import opened Outcomes

  /** The raw input record, one field per key the normaliser reads; `None`
      means the key is absent. */
  datatype RawFacts = RawFacts(
    stockPrice: Option<real>,
    sharesOutstandingExTreasury: Option<real>,
    sharesOutstanding: Option<real>,
    treasuryShares: Option<real>,
    sharesUnit: Option<string>,
    bps: Option<real>,
    epsActual: Option<real>,
    epsForecast: Option<real>,
    dividendAnnual: Option<real>,
    revenue: Option<real>,
    operatingProfit: Option<real>,
    netIncome: Option<real>,
    operatingCf: Option<real>,
    fcf: Option<real>,
    netCash: Option<real>,
    ebitda: Option<real>,
    netAssets: Option<real>,
    effectiveTaxRate: Option<real>,
    discountRate: Option<real>,
    liquidationValuePerShare: Option<real>,
    dcfGrowthMiddle: Option<real>,
    dcfGrowthStrong: Option<real>,
    dcfYears: Option<int>
  )

  /** The normalised, immutable input of the valuation engine. */
  datatype ValuationInput = ValuationInput(
    stockPrice: real,                        // yen
    shares: real,                            // shares, excluding treasury stock
    bps: real,                               // yen
    epsActual: Option<real>,                 // yen
    epsForecast: Option<real>,               // yen
    dividendAnnual: Option<real>,            // yen
    revenue: real,                           // millions of yen
    operatingProfit: real,                   // millions of yen
    netIncome: real,                         // millions of yen
    operatingCf: real,                       // millions of yen
    fcf: real,                               // millions of yen
    netCash: real,                           // millions of yen
    ebitda: real,                            // millions of yen
    netAssets: real,                         // millions of yen
    effectiveTaxRate: real,                  // fraction
    discountRate: real,                      // fraction
    liquidationValuePerShare: Option<real>,  // yen
    dcfGrowthMiddle: real,                   // fraction
    dcfGrowthStrong: real,                   // fraction
    dcfYears: int
  )

  const DefaultTaxRate: real := 0.30
  const DefaultDiscountRate: real := 0.10
  const DefaultGrowthMiddle: real := 0.05
  const DefaultGrowthStrong: real := 0.10
  const DefaultYears: int := 5

  /** Aggregates whose magnitude exceeds this are taken to be in thousands of yen. */
  const RescaleThreshold: real := 1_000_000.0

  const ExTreasuryKey: string := "shares_outstanding_ex_treasury"
  const OutstandingKey: string := "shares_outstanding"

  /** "shares_outstanding_ex_treasury or shares_outstanding is required". */
  const MissingSharesMessage: string := ExTreasuryKey + " または " + OutstandingKey + " が必要です"

  /** `t` occurs in `s` starting at index `i`. */
  predicate OccursAt(s: string, t: string, i: int) {
    0 <= i <= |s| - |t| && s[i..i + |t|] == t
  }

  /** `t` occurs in `s` as a contiguous slice. */
  ghost predicate ContainsText(s: string, t: string) {
    exists i :: OccursAt(s, t, i)
  }

  function Abs(x: real): real {
    if x < 0.0 then -x else x
  }

  /** The share count before the unit conversion: the ex-treasury count when
      given, else outstanding minus treasury (treasury defaulting to zero). */
  function ResolveShares(data: RawFacts): (r: Result<real, Fault>)
    ensures r.Err? <==> data.sharesOutstandingExTreasury.None? && data.sharesOutstanding.None?
    ensures r.Err? ==> r.error.ValuationError?
                       && ContainsText(r.error.message, ExTreasuryKey)
                       && ContainsText(r.error.message, OutstandingKey)
    ensures data.sharesOutstandingExTreasury.Some? ==>
              r == Ok(data.sharesOutstandingExTreasury.value)
    ensures data.sharesOutstandingExTreasury.None? && data.sharesOutstanding.Some? ==>
              r.Ok? && r.value + data.treasuryShares.GetOr(0.0) == data.sharesOutstanding.value
  {
    if data.sharesOutstandingExTreasury.Some? then
      Ok(data.sharesOutstandingExTreasury.value)
    else if data.sharesOutstanding.None? then
      var m := MissingSharesMessage;
      var at := |ExTreasuryKey + " または "|;
      assert m[0..|ExTreasuryKey|] == ExTreasuryKey;
      assert m[at..at + |OutstandingKey|] == OutstandingKey;
      assert OccursAt(m, ExTreasuryKey, 0);
      assert OccursAt(m, OutstandingKey, at);
      Err(ValuationError(MissingSharesMessage))
    else
      Ok(data.sharesOutstanding.value - data.treasuryShares.GetOr(0.0))
  }

  /** Converts a count given in thousands of shares to shares. */
  function ApplySharesUnit(count: real, unit: Option<string>): (shares: real)
    ensures unit == Some("thousands") ==> shares == 1000.0 * count
    ensures unit != Some("thousands") ==> shares == count
  {
    if unit.GetOr("shares") == "thousands" then count * 1000.0 else count
  }

  /** Rescales one money aggregate given in thousands of yen (heuristically:
      magnitude above one million) to millions of yen. */
  function NormalizeMillions(v: Option<real>): (r: Option<real>)
    ensures r.None? <==> v.None?
    ensures v.Some? && Abs(v.value) > RescaleThreshold ==> r.value * 1000.0 == v.value
    ensures v.Some? && Abs(v.value) <= RescaleThreshold ==> r == v
  {
    match v
    case None => None
    case Some(x) => if Abs(x) > RescaleThreshold then Some(x / 1000.0) else Some(x)
  }

  /** The rescale never increases a magnitude. */
  lemma NormalizeMillionsShrinks(v: real)
    ensures Abs(NormalizeMillions(Some(v)).value) <= Abs(v)
  {
  }

  /** The rescale is not idempotent: a value still above the threshold after
      one division is divided again. */
  lemma NormalizeMillionsNotIdempotent()
    ensures NormalizeMillions(NormalizeMillions(Some(5_000_000_000.0)))
            != NormalizeMillions(Some(5_000_000_000.0))
  {
    assert NormalizeMillions(Some(5_000_000_000.0)) == Some(5_000_000.0);
  }

  /** `data[key]`: the value, or a KeyError naming the key. */
  function Require(v: Option<real>, key: string): (r: Result<real, Fault>)
    ensures r.Ok? <==> v.Some?
    ensures r.Ok? ==> r.value == v.value
    ensures r.Err? ==> r.error == MissingKey(key)
  {
    if v.Some? then Ok(v.value) else Err(MissingKey(key))
  }

  /** The keys read with `data[key]`, in the order the constructor call reads them. */
  function RequiredKeys(data: RawFacts): seq<(string, Option<real>)> {
    [("stock_price", data.stockPrice), ("bps", data.bps), ("revenue", data.revenue),
     ("operating_profit", data.operatingProfit), ("net_income", data.netIncome),
     ("operating_cf", data.operatingCf), ("fcf", data.fcf), ("net_cash", data.netCash),
     ("ebitda", data.ebitda), ("net_assets", data.netAssets)]
  }

  /** The first key of `keys` that is absent, if any. */
  function FirstMissing(keys: seq<(string, Option<real>)>): (r: Option<string>)
    ensures r.None? <==> forall i :: 0 <= i < |keys| ==> keys[i].1.Some?
    ensures r.Some? ==> exists i :: 0 <= i < |keys| && keys[i].0 == r.value && keys[i].1.None?
                                    && forall j :: 0 <= j < i ==> keys[j].1.Some?
  {
    if |keys| == 0 then None
    else if keys[0].1.None? then Some(keys[0].0)
    else FirstMissing(keys[1..])
  }

  /** The first absent required key, spelled out in reading order. */
  lemma FirstMissingRequired(data: RawFacts)
    ensures FirstMissing(RequiredKeys(data)) ==
      if data.stockPrice.None? then Some("stock_price")
      else if data.bps.None? then Some("bps")
      else if data.revenue.None? then Some("revenue")
      else if data.operatingProfit.None? then Some("operating_profit")
      else if data.netIncome.None? then Some("net_income")
      else if data.operatingCf.None? then Some("operating_cf")
      else if data.fcf.None? then Some("fcf")
      else if data.netCash.None? then Some("net_cash")
      else if data.ebitda.None? then Some("ebitda")
      else if data.netAssets.None? then Some("net_assets")
      else None
  {
    var ks := RequiredKeys(data);
    assert ks[10..] == [];
    assert FirstMissing(ks[9..]) == if ks[9].1.None? then Some(ks[9].0) else FirstMissing(ks[10..]);
    assert FirstMissing(ks[8..]) == if ks[8].1.None? then Some(ks[8].0) else FirstMissing(ks[9..]);
    assert FirstMissing(ks[7..]) == if ks[7].1.None? then Some(ks[7].0) else FirstMissing(ks[8..]);
    assert FirstMissing(ks[6..]) == if ks[6].1.None? then Some(ks[6].0) else FirstMissing(ks[7..]);
    assert FirstMissing(ks[5..]) == if ks[5].1.None? then Some(ks[5].0) else FirstMissing(ks[6..]);
    assert FirstMissing(ks[4..]) == if ks[4].1.None? then Some(ks[4].0) else FirstMissing(ks[5..]);
    assert FirstMissing(ks[3..]) == if ks[3].1.None? then Some(ks[3].0) else FirstMissing(ks[4..]);
    assert FirstMissing(ks[2..]) == if ks[2].1.None? then Some(ks[2].0) else FirstMissing(ks[3..]);
    assert FirstMissing(ks[1..]) == if ks[1].1.None? then Some(ks[1].0) else FirstMissing(ks[2..]);
    assert ks[0..] == ks;
  }

  /** `ValuationInput.from_dict`. */
  function FromDict(data: RawFacts): (r: Result<ValuationInput, Fault>)
    // the share count is resolved first, so its error takes precedence
    ensures ResolveShares(data).Err? ==> r == Err(ResolveShares(data).error)
    // then the first absent required key raises a KeyError
    ensures ResolveShares(data).Ok? ==>
              (r.Err? <==> FirstMissing(RequiredKeys(data)).Some?)
    ensures ResolveShares(data).Ok? && r.Err? ==>
              r.error == MissingKey(FirstMissing(RequiredKeys(data)).value)
    ensures r.Ok? ==> r.value.shares == ApplySharesUnit(ResolveShares(data).value, data.sharesUnit)
    ensures r.Ok? ==> Some(r.value.stockPrice) == data.stockPrice && Some(r.value.bps) == data.bps
                      && Some(r.value.revenue) == data.revenue
                      && Some(r.value.operatingProfit) == data.operatingProfit
                      && Some(r.value.netIncome) == data.netIncome
    ensures r.Ok? ==> r.value.epsActual == data.epsActual && r.value.epsForecast == data.epsForecast
                      && r.value.dividendAnnual == data.dividendAnnual
                      && r.value.liquidationValuePerShare == data.liquidationValuePerShare
    ensures r.Ok? ==> Some(r.value.operatingCf) == NormalizeMillions(data.operatingCf)
                      && Some(r.value.fcf) == NormalizeMillions(data.fcf)
                      && Some(r.value.netCash) == NormalizeMillions(data.netCash)
                      && Some(r.value.ebitda) == NormalizeMillions(data.ebitda)
                      && Some(r.value.netAssets) == NormalizeMillions(data.netAssets)
    ensures r.Ok? ==> r.value.effectiveTaxRate == data.effectiveTaxRate.GetOr(DefaultTaxRate)
                      && r.value.discountRate == data.discountRate.GetOr(DefaultDiscountRate)
                      && r.value.dcfGrowthMiddle == data.dcfGrowthMiddle.GetOr(DefaultGrowthMiddle)
                      && r.value.dcfGrowthStrong == data.dcfGrowthStrong.GetOr(DefaultGrowthStrong)
                      && r.value.dcfYears == data.dcfYears.GetOr(DefaultYears)
  {
    FirstMissingRequired(data);
    var sharesRaw :- ResolveShares(data);
    var shares := ApplySharesUnit(sharesRaw, data.sharesUnit);
    var stockPrice :- Require(data.stockPrice, "stock_price");
    var bps :- Require(data.bps, "bps");
    var revenue :- Require(data.revenue, "revenue");
    var operatingProfit :- Require(data.operatingProfit, "operating_profit");
    var netIncome :- Require(data.netIncome, "net_income");
    var operatingCf :- Require(data.operatingCf, "operating_cf");
    var fcf :- Require(data.fcf, "fcf");
    var netCash :- Require(data.netCash, "net_cash");
    var ebitda :- Require(data.ebitda, "ebitda");
    var netAssets :- Require(data.netAssets, "net_assets");
    Ok(ValuationInput(
      stockPrice := stockPrice,
      shares := shares,
      bps := bps,
      epsActual := data.epsActual,
      epsForecast := data.epsForecast,
      dividendAnnual := data.dividendAnnual,
      revenue := revenue,
      operatingProfit := operatingProfit,
      netIncome := netIncome,
      operatingCf := NormalizeMillions(Some(operatingCf)).value,
      fcf := NormalizeMillions(Some(fcf)).value,
      netCash := NormalizeMillions(Some(netCash)).value,
      ebitda := NormalizeMillions(Some(ebitda)).value,
      netAssets := NormalizeMillions(Some(netAssets)).value,
      effectiveTaxRate := data.effectiveTaxRate.GetOr(DefaultTaxRate),
      discountRate := data.discountRate.GetOr(DefaultDiscountRate),
      liquidationValuePerShare := data.liquidationValuePerShare,
      dcfGrowthMiddle := data.dcfGrowthMiddle.GetOr(DefaultGrowthMiddle),
      dcfGrowthStrong := data.dcfGrowthStrong.GetOr(DefaultGrowthStrong),
      dcfYears := data.dcfYears.GetOr(DefaultYears)))
  }

  /** Without a unit marker the resolved share count passes through unchanged. */
  lemma DefaultUnitIsIdentity(data: RawFacts)
    requires data.sharesUnit.None?
    requires FromDict(data).Ok?
    ensures FromDict(data).value.shares == ResolveShares(data).value
  {
  }

  /** An ex-treasury count, when present, decides the share count whatever
      the outstanding and treasury counts say. */
  lemma ExTreasuryTakesPriority(data: RawFacts, outstanding: Option<real>, treasury: Option<real>)
    requires data.sharesOutstandingExTreasury.Some?
    ensures var other := data.(sharesOutstanding := outstanding, treasuryShares := treasury);
            FromDict(other) == FromDict(data)
  {
  }
}
