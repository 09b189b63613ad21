# IV engine of the option-chain dashboard server, in Dafny

This project models the implied-volatility (IV) engine of the dashboard
server `backend/server.py`. The engine does the following:
- It decodes the market-data vendor's positional option-chain records into
  strike quotes, dividing open interest and volume by the instrument's lot size.
- It prices European options with Black-Scholes.
- It solves each option's implied volatility by clamped Newton-Raphson,
  falling back to bisection.
- It collapses the solved IVs of a chain into one representative IV: a
  stable ranking by distance of the strike from spot, then the mean of the
  in-band ones among the ten nearest, as a percentage rounded to 0.01.
- It ranks a current IV against a history of IVs (the IV percentile).
- It works out the next monthly expiry, the last Thursday of next month
  written DD-MM-YYYY.
- It has a few small decisions around these: the time to expiry, the day's
  change and dashboard signal, and the certificate-bypass option added to the
  database URL.

Modules:
- `Common`: the optional value, `abs`, Python's `round(x, 2)` as exact
  round-half-even to 0.01, and sum and mean.
- `OptionRecord`: the vendor's dynamically typed fields (`Value`), the lot
  size, and record decoding.
- `BlackScholes`: price and vega. The transcendental pieces are a
  `ClosedForm` parameter: d1, the square root, the exponential, and the
  normal CDF and PDF.
- `ImpliedVol`: the solver, over a `Query` that carries the price and vega as
  functions of volatility. `BlackScholesQuery` builds the query for one option.
- `ChainIv`: the chain aggregation, including the in-place stable insertion
  sort on an array.
- `Percentile`: the strict-less-than rank count.
- `Expiry`: proleptic Gregorian dates numbered as Python's `toordinal`
  numbers them, the step-back loop, and the DD-MM-YYYY format with a reader
  that inverts it.
- `ServerHelpers`: time to expiry, change percent, signal, and the database
  URL rule.

The loops of the source are methods, and each method is proved equal to a
function that states what it computes:
- `CalculateImpliedVolatility` and `CalculateIvBisection`
- the record scan, the in-place sort and the band collection of
  `ExtractIvFromOptionChain`
- the step-back loop of `GetNextExpiry`

The properties are then proved about those functions.

Where the comments and the code of `backend/server.py` disagree, the model
follows the code:
- The band test is "within 5% of spot" (`< 0.05`, line 635). The comment at
  line 632 says 2%.
- The clamp's lower bound is 0.001, i.e. 0.1% (line 361). The comment at
  line 360 says 0.001%.
- The call volume always comes from index 9. The fallback to index 10 at
  line 502 cannot be reached once records shorter than 21 fields are rejected
  (line 484).

## Model

| member | source | states |
|---|---|---|
| OptionRecord.GetLotSize | backend/server.py:438-451 | The lot size is 50 exactly for NIFTY, 15 exactly for BANKNIFTY, and 500 for every other symbol; it is always positive. |
| OptionRecord.Normalise | backend/server.py:514-518 | `raw / lot` is None exactly when the raw value is falsy (None, 0, 0.0, "", [] or False). It raises (TypeError) exactly when the raw value is truthy but not a number. Otherwise it is a non-zero amount that gives the raw value back when multiplied by the lot. |
| OptionRecord.ParseRecord | backend/server.py:484-543 | A record decodes exactly when it is a list of at least 21 fields whose index 11 is an int, float or bool and whose four quantity fields can be divided. The decoded strike is the raw index-11 value, unchanged. Each open interest and volume (indices 3, 9, 16, 19) is the raw value divided by the lot size, whether it arrives as an int, a float or a bool; a falsy raw value reads as None. The last price, bid, bid quantity, ask and ask quantity of each side are copied from their indices as received. |
| OptionRecord.ParseReadsOnlyUsedFields | backend/server.py:491-511 | Two full-width records that agree on the fifteen fixed indices that are read decode identically. The symbol, expiry, timestamps and index 10 never matter, so the call volume always comes from index 9. |
| OptionRecord.RawRoundTrip | backend/server.py:515-518 | Normalising a quantity multiplied back by a positive lot size returns the quantity; a missing quantity stays missing. |
| OptionRecord.ParseEncodeRoundTrip | backend/server.py:484-540 | Decoding the record that carries a quote gives exactly that quote back, with every other field copied verbatim from its fixed index. This needs a numeric strike and no quantity equal to zero. |
| OptionRecord.ZeroQuantityIsMissing | backend/server.py:515-518 | A raw open interest or volume of 0, 0.0 or None decodes to None, never to 0 and never to an error. |
| BlackScholes.Intrinsic | backend/server.py:270-280 | The intrinsic value is `max(S - K, 0)` for a call and `max(K - S, 0)` for a put: never negative, and either 0 or the payoff. |
| BlackScholes.Price | backend/server.py:246-290 | The price is never negative. It is exactly the intrinsic value when T <= 0 or sigma <= 0. Otherwise it is the closed form floored at 0, so it equals the closed form whenever it is positive. |
| BlackScholes.Vega | backend/server.py:293-309 | Vega is 0 when T <= 0 or sigma <= 0. It is positive off those inputs whenever the spot, sqrt(T) and the density at d1 are positive. |
| BlackScholes.DegenerateParity | backend/server.py:268-280 | With no time left or no volatility, call minus put is exactly S - K. |
| ImpliedVol.BlackScholesQuery | backend/server.py:347-350 | The solver's price and vega at any volatility are the Black-Scholes price and vega of that option at that volatility. |
| ImpliedVol.Clamp | backend/server.py:361 | `max(0.001, min(5.0, v))` lies in [0.001, 5.0], is v inside that range, and is the nearer bound outside it. |
| ImpliedVol.NewtonStep | backend/server.py:356-361 | Every Newton update lands in [0.001, 5.0]. |
| ImpliedVol.NewtonFrom | backend/server.py:345-367 | A converged Newton answer lies in [0.001, 5.0]. |
| ImpliedVol.NewtonConvergedIsSmallStep | backend/server.py:356-365 | A converged Newton answer is the clamped step from some volatility with non-zero vega, and that step moved less than the tolerance 0.0001. |
| ImpliedVol.BisectFromSound | backend/server.py:396-406 | Without assuming any monotonicity, a bisection hit lies in the bracket and prices within 0.0001 of the target. A final bracket is nested in the first one. If price(lo) <= target <= price(hi) held at the start, it still holds at the end. |
| ImpliedVol.BisectFromWidth | backend/server.py:396-408 | A final bracket is the starting bracket halved once per remaining iteration. |
| ImpliedVol.IvBisection | backend/server.py:373-408 | Bisection gives None exactly when the target is below price(0.001) or above price(5.0). Otherwise it gives a volatility in [0.001, 5.0]. |
| ImpliedVol.ImpliedVolatility | backend/server.py:312-370 | The solve gives None when T <= 0. Any answer lies in [0.001, 5.0]. |
| ImpliedVol.CalculateIvBisection | backend/server.py:373-408 | The bisection loop keeps 0.001 <= vol_low <= vol_high <= 5.0 and price(vol_low) <= target <= price(vol_high), and returns exactly `IvBisection`. |
| ImpliedVol.CalculateImpliedVolatility | backend/server.py:312-370 | The Newton loop, with its hand-over to the bisection loop, returns exactly `ImpliedVolatility`. |
| ImpliedVol.ZeroVegaFallsBackToBisection | backend/server.py:352-354 | Zero vega at the 20% starting guess hands the solve straight to bisection. |
| ImpliedVol.BisectionRecoversRoot | backend/server.py:393-408 | Take a price that rises strictly with volatility and a volatility in [0.001, 5.0] that reproduces the target. Then bisection always answers, with the outcome of its halving of [0.001, 5.0]: a hit, or the midpoint of the final bracket. Any final bracket contains that volatility. |
| ChainIv.Candidates | backend/server.py:598-623 | The scan yields at most two entries per record, and every IV it keeps lies in [0.05, 2.0]. |
| ChainIv.ScanSide | backend/server.py:609-623 | One side of a strike adds an entry only for a truthy positive numeric last price, and only when its IV solves into [0.05, 2.0]. The entry carries the strike's distance from spot. |
| ChainIv.ScanRecord | backend/server.py:599-623 | For one record the loop body appends the call entry and then the put entry, each only for a positive numeric last price whose IV solves into [0.05, 2.0]. Records that do not decode add nothing. |
| ChainIv.ScanChain | backend/server.py:598-623 | The scan loop builds exactly the scan-ordered list of `Candidates`. |
| ChainIv.InsertByDistancePermutes | backend/server.py:630 | Inserting an entry into the ranking adds exactly that entry. |
| ChainIv.InsertByDistanceSorted | backend/server.py:630 | Inserting into a list sorted by distance keeps it sorted. |
| ChainIv.InsertByDistanceStable | backend/server.py:630 | Inserting after every entry of equal distance keeps equal-distance entries in their arrival order. |
| ChainIv.SortByDistanceFacts | backend/server.py:630 | `sort(key=distance)` gives a list that is sorted by distance and is a permutation of the scan. It is stable: at every distance the entries keep their scan order. |
| ChainIv.InsertIntoSortedPrefix | backend/server.py:630 | One pass of the in-place insertion sort turns the array prefix into the insertion of the next entry and leaves the rest of the array alone. |
| ChainIv.SortByDistanceInPlace | backend/server.py:630 | The in-place sort leaves the array holding exactly the stable ranking of its old contents. |
| ChainIv.CollectInBand | backend/server.py:633-636 | The band loop collects, in order, the IVs of the first `top` ranked entries whose distance divided by spot is below 0.05. |
| ChainIv.Aggregate | backend/server.py:625-647 | For the scanned entries the answer is None exactly when there are none or spot is 0. Otherwise it lies in [5, 200]. |
| ChainIv.ChainIv | backend/server.py:570-653 | The chain IV is None exactly when no entry was kept or spot is 0 (the band test divides by spot). Otherwise it is a percentage in [5, 200]. |
| ChainIv.PlausibleSurvivesRanking | backend/server.py:630 | Ranking keeps the length, and every ranked IV still lies in [0.05, 2.0]. |
| ChainIv.InBandIvsPlausible | backend/server.py:633-636 | Every in-band IV lies in [0.05, 2.0], so their mean does too. |
| ChainIv.NearestComesFirst | backend/server.py:630-647 | The fallback entry `atm_options[0]` is an entry of the scan. No entry is nearer to spot, and among the entries at that distance it is the first one scanned. |
| ChainIv.RankAndAverage | backend/server.py:625-647 | Copying the entries into an array, sorting in place, collecting the band among the first ten, and averaging or falling back to the nearest gives exactly `Aggregate`. |
| ChainIv.ExtractIvFromOptionChain | backend/server.py:546-653 | The whole records path returns exactly `ChainIv`. |
| Common.Round2 | backend/server.py:642 | `round(y, 2)` is a whole number of cents within 0.005 of y. |
| Common.MeanBounds | backend/server.py:640-642 | The mean of values that all lie in [lo, hi] lies in [lo, hi]. |
| Percentile.CountBelow | backend/server.py:686 | `days_below` never exceeds the number of days. |
| Percentile.IvPercentile | backend/server.py:665-693 | The percentile is None exactly when there is no current IV or no history. Otherwise it lies in [0, 100]. |
| Percentile.CountBelowExtremes | backend/server.py:686 | The count is the whole history exactly when every day was below, and 0 exactly when no day was below. |
| Percentile.CountBelowMonotone | backend/server.py:686 | A higher current IV never has fewer days below it. |
| Percentile.CountBelowPermutation | backend/server.py:674-686 | The count does not depend on the order the history was fetched in. |
| Percentile.TiesNotCounted | backend/server.py:686 | A day whose IV equals the current IV is not counted (strict `<`). |
| Percentile.IvPercentileMonotone | backend/server.py:686-693 | Over the same history, a higher current IV never has a lower percentile. |
| Percentile.PercentileExamples | backend/server.py:686-693 | Over the history [10, 15, 20, 25, 30]: 22 gives 60.0, 5 gives 0.0, 35 gives 100.0, and 20 gives 40.0 (ties are not counted). |
| Expiry.DaysInMonth | backend/server.py:758-763 | `monthrange(...)[1]` lies between 28 and 31, and February has 29 days exactly in leap years. |
| Expiry.PreviousDay | backend/server.py:768 | `d - timedelta(days=1)` is again a valid date. |
| Expiry.PreviousDayOrdinal | backend/server.py:768 | Stepping back one day, including across a month or a year end, lowers the day number by exactly one. |
| Expiry.PreviousDayWeekday | backend/server.py:767-768 | Each step back moves the weekday back by one, modulo 7. |
| Expiry.FollowingMonth | backend/server.py:751-755 | The month after today's: the month number advances by exactly one, and December rolls over to January of the next year. It is None only from December 9999, where `datetime` cannot represent the next year. |
| Expiry.LastThursdayFacts | backend/server.py:758-768 | The last Thursday is a Thursday of that month, and no later day of the month is one. A week later is already the next month, and it lies at most six days before the month's end, so the step-back loop runs at most six times. |
| Expiry.NextExpiryDate | backend/server.py:748-768 | There is an expiry date exactly when the following month exists. |
| Expiry.NextExpiryIsLastThursdayOfNextMonth | backend/server.py:748-768 | The expiry is a valid date in the month after today's. It is the same year for January to November, and January of the next year from December. It is a Thursday, and seven days later falls outside its month. |
| Expiry.ZFill2 | backend/server.py:771-772 | `zfill(2)` leaves strings of two or more characters alone and left-pads shorter ones with zeros to exactly two. |
| Expiry.DigitsRoundTrip | backend/server.py:771-775 | `str(n)` reads back as n. |
| Expiry.PaddedTwoDigits | backend/server.py:771-772 | A day or month padded by `zfill(2)` is exactly two digits and reads back as itself. |
| Expiry.FormatParseRoundTrip | backend/server.py:771-775 | Reading back the DD-MM-YYYY text of any valid date gives that date. |
| Expiry.FormatExpiryShape | backend/server.py:771-775 | For a four-digit year the text is ten characters with dashes at positions 2 and 5. |
| Expiry.NextExpiry | backend/server.py:748-775 | The formatted next expiry exists exactly when the expiry date does. |
| Expiry.GetNextExpiry | backend/server.py:748-775 | The step-back loop stops on the month's last Thursday, and the method returns exactly `NextExpiry`. |
| Expiry.NextExpiryAcrossYearEnd | backend/server.py:748-775 | From 15 December 2023 the answer is "25-01-2024", which checks the day numbering against the real calendar. |
| Expiry.NextExpiryOnLeapDay | backend/server.py:748-775 | From 10 January 2024 the answer is "29-02-2024", a Thursday on the leap day. |
| ServerHelpers.TimeToExpiry | backend/server.py:421-435 | The time is always positive. It is 0.0001 once the expiry is not in the future; otherwise, times 365.25 days of 86400 seconds, it gives back the seconds left. |
| ServerHelpers.TimeToExpiryDipsBeforeExpiry | backend/server.py:432-435 | An expiry 864 seconds ahead gives a shorter time than one already passed. |
| ServerHelpers.FlooredTimeToExpiry | backend/server.py:432-435 | With 0.0001 as a floor, the time is at least 0.0001 and is the exact time left wherever it is above the floor. |
| ServerHelpers.FlooredTimeToExpiryMonotone | backend/server.py:432-435 | With the floor, a later expiry never gives a shorter time. |
| ServerHelpers.FlooredAgreesAwayFromExpiry | backend/server.py:432-435 | The floored time equals the server's wherever the server's is at least 0.0001. |
| ServerHelpers.ChangePercent | backend/server.py:994-999 | The change is computed exactly when the previous close is positive. It is then within 0.005 of `(ltp - close) / close * 100`. |
| ServerHelpers.ChangePercentSign | backend/server.py:997-999 | A rise gives a change of at least 0, and a fall a change of at most 0, even after rounding. |
| ServerHelpers.ClassifySignal | backend/server.py:1017-1025 | The signal is "High Volatility" exactly when the absolute change is over 2, "Bullish" exactly on (1, 2], "Bearish" exactly on [-2, -1), and "Neutral" exactly on [-1, 1]. |
| ServerHelpers.ClassifySignalSymmetric | backend/server.py:1017-1025 | Negating the change swaps Bullish and Bearish and keeps the other two signals. |
| ServerHelpers.WithTlsBypass | backend/server.py:52-55 | The URL is kept as a prefix. The result always has a query and always contains `tlsAllowInvalidCertificates`. A URL without `?` gets `?tlsAllowInvalidCertificates=true`. A URL with a query that lacks the option gets `&tlsAllowInvalidCertificates=true`. A URL that already has both is left unchanged. |
| ServerHelpers.WithTlsBypassIdempotent | backend/server.py:52-55 | Applying the rule twice adds nothing more. |

## Left out

- Floating point: every quantity is an exact real. IEEE rounding, overflow,
  NaN and infinities are not modelled. `round(x, 2)` is modelled as exact
  round-half-even to 0.01, which on floats can differ by one cent in the last
  place.
- The transcendental functions behind d1, `math.sqrt`, `math.exp`,
  `normal_cdf` and `normal_pdf` are the `ClosedForm` parameter.
  - Nothing is proved about their values.
  - Put-call parity off the degenerate inputs and the recovery of a
    volatility from its own price are not claimed.
  - Their domain errors are not modelled. A zero strike makes `spot /
    strike` raise ZeroDivisionError before `math.log` is reached, and a
    non-positive spot/strike ratio makes `math.log` raise ValueError
    (backend/server.py:282 and :307). Either exception aborts the whole
    chain extraction (None, backend/server.py:651-653); the model computes
    with whatever d1 returns.
- ImpliedVol.BisectionRecoversRoot: stated for a price that rises strictly
  with volatility. For a merely non-decreasing price, only the bracket
  invariant of `BisectFromSound` is proved.
- `option_type` is modelled as `Call | Put`. The source treats every string
  whose lower case is not "call" as a put.
- In `extract_iv_from_option_chain`:
  - The shortcut keys `IV`, `impliedVolatility` and `iv` (lines 559-568) and
    the dictionary and list checks are not modelled.
  - The expiry read from `records[0][1]`, its parsing by `strptime` and the
    resulting time to expiry are passed in as `time`.
  - The symbol read from `records[0][0]` is passed in as `symbol`.
  - When that expiry cannot be parsed the source returns None; the model
    has no such input.
- The IV percentile's database access: the `db is None` check, the query of
  the last 252 days with a non-null IV, and the conversion to float. The
  history is passed in as a sequence of reals. The function does not change
  it, since it is a value.
- The clock: `datetime.now` is replaced by the `today` date of
  `GetNextExpiry` and the `now` timestamp of `TimeToExpiry`. The expiry's
  time-zone normalisation (a naive expiry is read as UTC) is left to the
  caller.
- `parse_expiry_date` (`strptime`) is not modelled. `ParseExpiry` is the
  inverse of the DD-MM-YYYY format, written for the round trip; it is not a
  model of `strptime`.
- `get_next_expiry` from December of year 9999 raises in `datetime`. The
  model returns None there.
- The database URL rule does not model the stripping of quotes from the
  environment variables (lines 47-48) or the connection itself.
- In the dashboard entry:
  - the day's change when there is no previous close is random mock data;
  - the volume is mock data;
  - the fetches from the vendor and the database are I/O.
- HTTP clients, MongoDB reads and writes, FastAPI routes, the scheduler,
  concurrency, `api/index.py` and the test scripts are outside this model.

## Findings

| source | as written | input that shows it | evidently intended | confidence | as-written member | corrected member |
|---|---|---|---|---|---|---|
| backend/server.py:432-435 | 0.0001 years replaces the time only once the expiry has passed | an expiry 864 seconds (0.01 days) ahead gives 0.01 / 365.25 ≈ 0.0000274 years, less than the 0.0001 of an expiry already passed | 0.0001 as a floor for every near or past expiry, so that a later expiry never gives a shorter time | low, not executed | ServerHelpers.TimeToExpiryDipsBeforeExpiry | ServerHelpers.FlooredTimeToExpiryMonotone |
