# corporate-reports valuation engine, in Dafny

This project models the valuation engine of `corporate-reports` and the
filter chain of its EDINET filing search. The engine turns one company's
financial facts into a fixed-shape valuation report.

- **Normalisation (`ValuationInput.from_dict`).** The share count comes from the
  ex-treasury count. When that is absent, it is outstanding minus treasury. A
  unit marker of thousands multiplies it by 1000. Five aggregates are
  rescaled when their magnitude exceeds one million: operating cash flow,
  free cash flow, net cash, EBITDA and net assets. Such a value is read as
  thousands of yen and divided by 1000. Revenue, operating profit and net
  income are never rescaled, whatever their size.
  Ten keys are required. The tax rate, discount rate, the two growth rates and
  the horizon have defaults.
- **Ratios (`calc_*`).** Market capitalisation, P/E, P/B, P/CF, P/S, dividend
  yield, EV/EBITDA, NOPAT, invested capital, ROIC and liquidation discount.
  Each has its own rule for an absent or degenerate divisor: no value, no
  value unless positive, or a `ValuationError`.
- **One DCF scenario (`_calc_dcf_scenario`).** A zero growth rate selects a
  single perpetuity on the free cash flow. Any other rate projects the cash
  flow year by year, discounts each year, and adds the discounted perpetuity
  on the last projected year. The result is converted to yen per share and to
  the upside over the price.
- **The report (`calculate_valuation`).** Every ratio, then the bear (growth 0),
  middle and strong scenarios in that fixed order, then presentation rounding:
  2 decimals, or 4 for dividend yield, ROIC and liquidation discount.
- **The filing search (`search_documents`).** Once the listing is received, the
  status must be "200". Three optional filters then apply in turn: the first
  four characters of the security code, the exact ordinance code and the exact
  form code.

Numbers are exact reals. Python's `round` is modelled exactly as round half to
even on those reals. Python exceptions become `Err` values of `Outcomes.Fault`:
- `ValuationError(message)`;
- `MissingKey(key)`, for a `KeyError`;
- `ZeroDivision`, for a `ZeroDivisionError`.

The modules are:
- `Outcomes`
- `RealMath`
- `Rounding`
- `Ratios`
- `Normalize`
- `Dcf`
- `DcfOrdering`
- `Valuation`
- `Edinet`
- `WorkedExamples`

`WorkedExamples` states, as lemmas, the figures the model gives on the test suite's JECOS and CANARE inputs. The tests check some of these figures, within their tolerance.

## Model

| member | source | states |
|---|---|---|
| Ratios.MarketCap | src/corporate_reports/valuation.py:116-118 | market cap in millions times one million is price times shares |
| Ratios.Per | src/corporate_reports/valuation.py:121-125 | no P/E exactly when EPS is absent or zero; otherwise P/E times EPS is the price |
| Ratios.Pbr | src/corporate_reports/valuation.py:128-132 | error exactly when BPS is zero, and it is the "BPS is 0" ValuationError; otherwise P/B times BPS is the price |
| Ratios.Pcr | src/corporate_reports/valuation.py:135-139 | no P/CF exactly when operating CF is absent or not positive; otherwise P/CF times operating CF is the market cap |
| Ratios.Psr | src/corporate_reports/valuation.py:142-146 | no P/S exactly when revenue is absent or not positive; otherwise P/S times revenue is the market cap |
| Ratios.DividendYield | src/corporate_reports/valuation.py:149-153 | no yield exactly when the dividend is absent or the price is zero; otherwise yield times price is the dividend |
| Ratios.EvEbitda | src/corporate_reports/valuation.py:156-161 | no value exactly when EBITDA is absent or not positive; otherwise value times EBITDA plus net cash is the market cap |
| Ratios.Nopat | src/corporate_reports/valuation.py:164-166 | NOPAT plus the tax on operating profit is operating profit |
| Ratios.NopatBounds | src/corporate_reports/valuation.py:164-166 | for non-negative profit and a tax rate in [0, 1], NOPAT lies between 0 and operating profit |
| Ratios.InvestedCapital | src/corporate_reports/valuation.py:169-171 | invested capital plus net cash is net assets |
| Ratios.Roic | src/corporate_reports/valuation.py:174-178 | no ROIC exactly when invested capital is absent or not positive; otherwise ROIC times invested capital is NOPAT |
| Ratios.LiquidationDiscount | src/corporate_reports/valuation.py:181-187 | no value exactly when the liquidation value is absent or zero; otherwise discount times value is value minus price; for a positive liquidation value the discount is positive exactly when that value exceeds the price |
| Normalize.ResolveShares | src/corporate_reports/valuation.py:52-60 | error exactly when both share keys are absent, and its message names both keys; the ex-treasury count wins when present; otherwise the count plus treasury (default 0) is the outstanding count |
| Normalize.ApplySharesUnit | src/corporate_reports/valuation.py:63-67 | the marker "thousands" multiplies the count by 1000; any other or no marker leaves it unchanged |
| Normalize.NormalizeMillions | src/corporate_reports/valuation.py:70-75 | absent stays absent; a magnitude above one million becomes a thousandth; anything else is unchanged |
| Normalize.NormalizeMillionsShrinks | src/corporate_reports/valuation.py:70-75 | the rescale never increases a magnitude |
| Normalize.NormalizeMillionsNotIdempotent | src/corporate_reports/valuation.py:70-75 | applying the rescale twice differs from applying it once (5e9), so it must run exactly once |
| Normalize.Require | src/corporate_reports/valuation.py:78-91 | a present key yields its value; an absent one is a KeyError naming that key |
| Normalize.FirstMissing | src/corporate_reports/valuation.py:78-91 | no missing key is reported exactly when every required key is present; a reported key is absent, and every key before it in reading order is present |
| Normalize.FromDict | src/corporate_reports/valuation.py:49-98 | a share-count error takes precedence; then an error exactly when a required key is absent, naming the first in evaluation order; on success the share count gets the unit conversion, the five aggregates are rescaled, the others pass through, and the five defaults are 0.30, 0.10, 0.05, 0.10 and 5 |
| Normalize.DefaultUnitIsIdentity | src/corporate_reports/valuation.py:63-67 | without a unit marker the resolved share count is used as is |
| Normalize.ExTreasuryTakesPriority | src/corporate_reports/valuation.py:52-60 | once an ex-treasury count is present, the outstanding and treasury counts do not affect the result |
| RealMath.IntPow | src/corporate_reports/valuation.py:218-222 | a power with a non-negative integer exponent is the repeated product; a negative exponent gives the reciprocal |
| Rounding.RoundHalfEven | src/corporate_reports/valuation.py:298-301 | the nearest integer, and an even one at a tie |
| Rounding.RoundHalfEvenUnique | src/corporate_reports/valuation.py:298-301 | exactly one integer is nearest with ties to even |
| Rounding.Round | src/corporate_reports/valuation.py:298-301 | rounding to d decimals moves a value by at most half a unit of the d-th decimal |
| Rounding.RoundMonotone | src/corporate_reports/valuation.py:298-301 | rounding preserves order |
| Rounding.RoundIdempotent | src/corporate_reports/valuation.py:298-301 | rounding an already rounded value changes nothing |
| Rounding.RoundNear | src/corporate_reports/valuation.py:298-301 | a value strictly within half a unit of n / 10^d rounds to exactly n / 10^d |
| Dcf.DcfScenario | src/corporate_reports/valuation.py:190-236 | error exactly when the discount rate is zero (the "discount rate is 0" ValuationError), or 1 + r is zero on the growth branch with a non-zero horizon, or shares or price is zero (a ZeroDivisionError); on success the label and growth rate are kept; the zero-growth terminal value times r is the cash flow and equity is terminal plus net cash; per share lies within half a yen of equity in yen over shares, and the upside within half a unit of the 4th decimal of per share's gain over the price |
| Dcf.ScenarioTerminal | src/corporate_reports/valuation.py:207-221 | the terminal value times the discount rate is the current free cash flow at zero growth, and the last projected year's cash flow otherwise |
| Dcf.ScenarioTerminalIsPerpetuity | src/corporate_reports/valuation.py:207-221 | on a successful scenario the reported terminal value times the discount rate is the current free cash flow at zero growth, and the cash flow compounded over the horizon otherwise |
| Dcf.PerShareResult | src/corporate_reports/valuation.py:226-236 | the conversion fails exactly on zero shares or zero price; it keeps terminal and equity; per share and upside are rounded as above |
| Dcf.ProjectCashFlows | src/corporate_reports/valuation.py:213-218 | the loop fails exactly when 1 + r is zero and it runs at least once; otherwise it returns the sum of the discounted cash flows of years 1..years and the cash flow of the last year |
| Dcf.GrowthBranch | src/corporate_reports/valuation.py:212-224 | the growth branch fails exactly when the power of 1 + r is undefined; otherwise terminal and equity equal the closed-form definitions |
| Dcf.DcfScenarioLoop | src/corporate_reports/valuation.py:190-236 | the loop-based computation equals the specification DcfScenario on every input |
| DcfOrdering.AnnuityIdentity | src/corporate_reports/valuation.py:208-224 | at zero growth, the discounted cash flows of n years plus the discounted perpetuity equal the perpetuity |
| DcfOrdering.GrowthBranchAtZero | src/corporate_reports/valuation.py:208-224 | the growth branch at growth 0 (non-negative horizon) gives exactly the bear formula fcf / r + net cash |
| DcfOrdering.NegativeHorizonAtLeastBear | src/corporate_reports/valuation.py:216-222 | with a negative horizon the perpetuity is compounded rather than discounted, never below the bear value |
| DcfOrdering.PvSumMonotone | src/corporate_reports/valuation.py:214-218 | the discounted projected cash flows grow with the growth rate |
| DcfOrdering.GrowthEquityMonotone | src/corporate_reports/valuation.py:212-224 | the growth branch's equity grows with the growth rate |
| DcfOrdering.AtLeastBear | src/corporate_reports/valuation.py:208-224 | a non-negative growth rate never values the equity below the bear scenario |
| DcfOrdering.PvSumAtDiscountRate | src/corporate_reports/valuation.py:214-218 | when growth equals the discount rate, each projected year discounts back to today's cash flow, so n years sum to n times it |
| DcfOrdering.GrowthAtDiscountRate | src/corporate_reports/valuation.py:212-224 | when growth equals the discount rate, equity is years times the cash flow, plus the undiscounted perpetuity, plus net cash |
| DcfOrdering.ScenarioEquityOrdered | src/corporate_reports/valuation.py:266-296 | with fcf >= 0, r > 0 and 0 <= middle growth <= strong growth, equity is ordered bear <= middle <= strong |
| DcfOrdering.ScenarioEquityStrictlyOrdered | tests/test_valuation.py:280-313 | with a positive cash flow and at least one year, a higher growth rate gives strictly more equity |
| DcfOrdering.ScenarioPerShareOrdered | src/corporate_reports/valuation.py:226-234 | of two scenarios over the same shares and price, the larger equity gives the larger or equal whole-yen value per share |
| Valuation.RoundOpt | src/corporate_reports/valuation.py:298-301 | an absent ratio stays absent; a present one moves by at most half a unit of the last decimal |
| Valuation.Row | src/corporate_reports/valuation.py:319-329 | a report row keeps label, growth rate, per share and upside, and is within 0.005 of terminal and equity |
| Valuation.Scenarios | src/corporate_reports/valuation.py:266-296 | error exactly when one of the three scenarios fails, the discount-rate error first and a division by zero otherwise; on success exactly three rows labelled bear, middle and strong, with growth 0, middle and strong, each from a scenario sharing every other input |
| Valuation.PerXPbr | src/corporate_reports/valuation.py:261-264 | P/E x P/B is absent exactly when the forecast P/E is; otherwise it is their product |
| Valuation.Assemble | src/corporate_reports/valuation.py:303-318 | price and shares pass through; each ratio is absent exactly when its defining condition says so |
| Valuation.CalculateValuation | src/corporate_reports/valuation.py:242-330 | error exactly when BPS is zero or a scenario fails; a zero BPS gives the P/B error before any scenario's; with a non-zero BPS, a zero discount rate gives the discount-rate error and any other failure is a division by zero; otherwise the report assembles the P/B and the three scenarios |
| Valuation.PerXPbrIgnoresActual | src/corporate_reports/valuation.py:261-264 | changing the actual EPS changes neither success nor P/E x P/B |
| Valuation.ReportWithinRounding | src/corporate_reports/valuation.py:242-318 | every reported figure is within half a unit of its last decimal of the unrounded ratio the engine computes: 0.005 for market cap, P/E (actual and forecast), P/B, P/CF, P/S, P/E x P/B, EV/EBITDA, NOPAT and invested capital; 0.00005 for dividend yield, ROIC and liquidation discount |
| Valuation.ReportedScenariosOrdered | src/corporate_reports/valuation.py:266-330 | with fcf >= 0, r > 0 and 0 <= middle <= strong growth, the reported rows are ordered bear <= middle <= strong in equity, and also in per-share value when shares are positive |
| WorkedExamples.JecosNormalized | tests/test_valuation.py:84-88 | 33,794 thousand shares normalise to 33,794,000 shares |
| WorkedExamples.JecosWithoutShares | tests/test_valuation.py:106-111 | without any share count, normalisation fails with the message naming both keys |
| WorkedExamples.JecosNetCashInThousands | tests/test_valuation.py:113-120 | a net cash of 5,486,000 becomes 5486 |
| WorkedExamples.JecosInputNormalized | src/corporate_reports/valuation.py:49-98 | JECOS's raw facts normalise to the expected input, field by field |
| WorkedExamples.JecosBear | tests/test_valuation.py:246-261 | on the test's JECOS bear inputs the model gives terminal 58,000, equity 63,486, 1,879 yen per share and upside 0.1263; the test checks the first three within its tolerance |
| WorkedExamples.CanareBear | tests/test_valuation.py:263-278 | on the test's CANARE bear inputs the model gives equity 30,352 and 4,437 yen per share, within the test's 4,436 ± 2 |
| WorkedExamples.JecosMiddle | tests/test_valuation.py:280-313 | on the test's JECOS middle inputs the model gives equity 92,486 and 2,737 yen per share; the test checks only that middle exceeds bear |
| WorkedExamples.JecosStrong | tests/test_valuation.py:280-313 | on the test's JECOS strong inputs the model gives 3,937 yen per share; the test checks only that strong exceeds middle |
| WorkedExamples.JecosRatios | tests/test_valuation.py:132-217 | the model's rounded JECOS report figures: market cap 56,368.39, P/E 12.37 and 10.23, P/B 0.90, yield 0.0390, P/E x P/B 9.17, NOPAT 5,460, invested capital 57,432, ROIC 0.0951; the unit tests check all but P/E x P/B within their tolerance |
| WorkedExamples.JecosScenarios | tests/test_valuation.py:344-348 | JECOS gets three rows, labelled bear, middle and strong as the test checks, worth 1,879, 2,737 and 3,937 yen per share in the model |
| WorkedExamples.JecosReport | tests/test_valuation.py:332-348 | in the model, JECOS's full report succeeds with P/B 0.90, P/E x P/B 9.17, ROIC 0.0951 and strictly increasing per-share values; the test checks success, P/B within its tolerance and the three labels |
| Edinet.Prefix | src/corporate_reports/edinet.py:87-94 | Python's `s[:4]`: a prefix of s of length min(4, \|s\|) |
| Edinet.Keep | src/corporate_reports/edinet.py:90-100 | the result never grows, and holds exactly the records of the input that the condition accepts; an accepted record occurs as often as in the input, a rejected one not at all |
| Edinet.SearchDocuments | src/corporate_reports/edinet.py:76-106 | a failed request or a status other than "200" is an error carrying that status; otherwise a record is returned exactly when it is in the results (absent counts as empty) and meets every given filter, and every copy of such a record is returned |
| Edinet.KeepIsSubsequence | src/corporate_reports/edinet.py:90-100 | filtering keeps records in listing order |
| Edinet.KeepMultiset | src/corporate_reports/edinet.py:90-100 | filtering never duplicates a record |
| Edinet.KeepKeep | src/corporate_reports/edinet.py:86-100 | two filters in a row are one filter on both conditions |
| Edinet.KeepIdempotent | src/corporate_reports/edinet.py:90-100 | filtering twice on one condition is filtering once |
| Edinet.FiltersCommute | src/corporate_reports/edinet.py:86-100 | the order of the filters does not matter |
| Edinet.SearchIsOneFilter | src/corporate_reports/edinet.py:81-100 | with status "200" the chained filters equal one filter on the combined condition |
| Edinet.SearchKeepsOrder | src/corporate_reports/edinet.py:84-100 | the search result is an ordered sub-list of the listing; each accepted record occurs exactly as often as in the listing, and no rejected record occurs |
| Edinet.NoFilterReturnsAll | src/corporate_reports/edinet.py:84-100 | with no truthy filter argument the whole listing is returned |
| Edinet.SecCodeUsesPrefixOnly | src/corporate_reports/edinet.py:87-94 | two security codes with the same first four characters return the same records |
| Edinet.SecCodeExample | tests/test_edinet_api.py:55-75 | query 5819 keeps 58190 and 58195 and drops 12340 |
| Edinet.OrdinanceAndFormExample | tests/test_edinet_api.py:78-106 | ordinance 010 with form 030000 keeps only the annual report |
| Edinet.BadStatusExample | tests/test_edinet_api.py:108-119 | status "400" is an error whatever the results |

## Left out

- Floating point. All arithmetic is exact over reals, so IEEE-754 rounding of intermediate results is not modelled. Python's `round` is modelled exactly as round half to even on the exact value, not on the nearest double.
- Dcf.DcfScenario: states the per-share value and upside only to within half a rounding unit. The exact tie-breaking rule lives in `Rounding.RoundHalfEven` and is not repeated in this contract.
- Dcf.DcfScenario: fixes the terminal value only at zero growth. On the growth branch, the terminal value is stated by the separate lemma `Dcf.ScenarioTerminalIsPerpetuity`, because putting it in this contract makes the function's own proof too expensive.
- Valuation.Assemble: states only when each ratio is absent. The values it reports are bounded by the lemma `Valuation.ReportWithinRounding`, to within half a unit of their last decimal.
- Input values of the wrong type, and keys whose value is an explicit JSON `null`, are not modelled. Each key is either absent or holds a number or string. In the source, the effect of a present `null` depends on the key:
  - For `stock_price`, `bps`, `operating_profit`, `fcf`, `net_cash` and `net_assets`, the `null` reaches the arithmetic and Python raises a `TypeError`.
  - For `operating_cf`, `revenue` and `ebitda`, it gives an absent P/CF, P/S or EV/EBITDA, and no error.
  - `net_income` is never read after loading.
  - `data.get(key, default)` returns a present `null` instead of the default, and the model applies the default there. What Python then does depends on the key:
    - A `null` for `effective_tax_rate` or `discount_rate` raises a `TypeError` in the arithmetic.
    - A `null` for `treasury_shares` is read only when `shares_outstanding_ex_treasury` is absent and `shares_outstanding` is present, and then raises a `TypeError`.
    - A `null` for `dcf_growth_middle` or `dcf_growth_strong` takes the growth branch (`None == 0` is false). It raises a `TypeError` only when the projection loop runs, that is when `dcf_years >= 1`. With a horizon of 0 the report carries a growth rate of `None`.
    - A `null` for `dcf_years` raises a `TypeError` only when some scenario takes the growth branch.
  - A `null` for `shares_unit`, `eps_actual`, `eps_forecast`, `dividend_annual` or `liquidation_value_per_share` behaves as if the key were absent.
- Exceptions are reduced to their kind, as `Outcomes.Fault` and `Edinet.EdinetApiError`. `ValuationError` keeps its message and `MissingKey` its key. `ZeroDivision` and `RequestFailed` carry no message. The exception class hierarchy and tracebacks are not modelled. The EDINET status error carries only the status, not the text of the whole metadata record.
- `load_input` and `format_output` (valuation.py) are not modelled. They read and write JSON files.
- The HTTP request in `search_documents` is a parameter of the model: a listing, or `None` for a transport failure. The API key check, the sleep that enforces the rate limit (0.35 s), and `download_document` are not modelled. They are network, clock and filesystem effects.
- A `metadata` or `results` value that is `null` or not a string or list is not modelled. An absent `results` is treated as the empty list, as `dict.get` does.
- `cli.py`, `build_report.py` and `__init__.py` are not modelled. They are argument parsing and report rendering.
- In `Dcf.ProjectCashFlows`, the division by zero on a zero `1 + r` is checked before the loop rather than inside the first iteration. The outcome is the same, and no state escapes the loop.
- On the security-code filter, the model follows the code where it diverges from its documentation, as `Edinet.SecCodeUsesPrefixOnly` proves.
  - The docstring of `search_documents` (edinet.py:60) accepts a 4- or 5-digit code.
  - The comment on the filter (edinet.py:88) speaks of a prefix match only for a 4-digit code.
  - The code truncates every query with `sec_code[:4]`, so a 5-digit query "58190" also returns records coded "58195".
  - A query shorter than four characters matches only a record whose code is exactly that string.
