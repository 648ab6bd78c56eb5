# Trading-journal analytics, modelled in Dafny

The trading-journal app (`app.py`) keeps a small analytics engine inside its Streamlit UI, database and payment code. This project models that engine and proves properties of it:

- **per-trade metrics** (`compute_metrics`): futures priced by a dollar value per point, forex pairs priced in pips;
- **input normalisers** for instrument, direction and clock time, and the trade duration;
- **summary figures** (`summarize_performance`): totals, win rate, average win and loss, profit factor, maximum drawdown, best and worst trading day;
- **equity curves**: balance, running peak, drawdown and the 5-day smoothed balance;
- **streaks** (`compute_streaks`): current and record runs of winning days and weeks;
- **composite score** (`compute_zylo_score`);
- **tag handling**: the confluence parser and the tag collector;
- **monthly calendar**: its shading scale and week totals;
- **entitlement rule** (`is_unlimited`).

Prices and P&L are `real`. A missing or unparseable number is `None`. Where pandas coerces such a value to 0 (`fillna(0.0)`), the model says so explicitly (`Series.Filled`).

Library parsers are function parameters:

- `strptime("%H:%M")`, `strptime("%H:%M:%S")` and `strptime("%Y-%m-%d")` are `Clock.TimeParser` / `Clock.DateParser` values.

Library results are inputs:

- pandas' weekly resample;
- `calendar.monthdatescalendar`.

Modules:

| Module | File | What it models |
|---|---|---|
| `Wrappers` | `wrappers.dfy` | `Option` |
| `Text` | `text.dfy` | The `str` methods used: `strip`, ASCII `lower`/`upper`, `replace`, `split`; plus `Join`, the inverse of `split` that states what splitting preserves |
| `Instruments` | `instruments.dfy` | The catalog (`INSTRUMENTS`, `FOREX_PAIRS`) and the instrument and direction normalisers |
| `Clock` | `clock.dfy` | Duration, `parse_time_hour`, `normalize_time_input` |
| `Metrics` | `metrics.dfy` | `compute_metrics`, with the futures and forex branches as separate functions |
| `Series` | `series.dfy` | Folds over a P&L column: sums, wins and losses, counts, means, win rate |
| `Equity` | `equity.dfy` | `cumsum`, `cummax`, drawdown, `_max_drawdown`, `_profit_factor`, rolling mean, the daily equity chart |
| `Streaks` | `streaks.dfy` | `compute_streaks`, with its loops as methods |
| `Score` | `score.dfy` | `clamp01`, `scale_linear`, `compute_zylo_score` |
| `Summary` | `summary.dfy` | `summarize_performance`, including the group-by-day breakdown |
| `Tags` | `tags.dfy` | `parse_custom_confluences` and `collect_tags`, with their loops as methods |
| `Calendar` | `calendar.dfy` | The month's day map, `max_abs` and shading, the stats line, the week-total loop |
| `Entitlements` | `entitlements.dfy` | `safe_str` and `is_unlimited` |

## Model

| member | source | states |
|---|---|---|
| Text.TrimIdempotent | app.py:1959 | stripping a stripped string changes nothing |
| Text.TrimWithin | app.py:1959 | strip only removes characters; every character of the result occurs in the input |
| Text.JoinSplit | app.py:2153 | joining the pieces of `split(",")` with "," gives back the original string, so splitting loses no text |
| Text.Lower | app.py:1966 | `lower()` maps each ASCII capital to its small letter, keeps every other character, and keeps the length |
| Text.Trim | app.py:1959 | `strip()` never lengthens, and the result is empty or has no whitespace at either end |
| Text.Split | app.py:2153 | `split(",")` gives at least one piece, and no piece holds the separator |
| Text.Join | app.py:2153 | not called by the modelled code: the inverse of the `split(",")` at line 2153, used to state `Text.JoinSplit`; every character of every part occurs in the joined text |
| Instruments.Lookup | app.py:248-254 | a symbol has a convention exactly when it is a forex pair or a known future; a future's convention is its catalog dollars per point |
| Instruments.CatalogDisjoint | app.py:248-254 | no symbol is both a future and a forex pair, so testing forex membership first changes nothing |
| Instruments.ForexConventions | app.py:2045-2056 | USDJPY has a 0.01 pip worth 1000 / reference price; every other pair has a 0.0001 pip worth 10 dollars per lot |
| Instruments.NormalizeInstrument | app.py:1956-1960 | None stays None; the result is None exactly when the stripped text is empty; otherwise it is non-empty, stripped and has no lower-case ASCII letter |
| Instruments.NormalizeInstrumentIdempotent | app.py:1956-1960 | normalising a normalised symbol changes nothing |
| Instruments.NormalizeDirection | app.py:1963-1971 | "Long" exactly for the long spellings, "Short" exactly for the short ones, after strip and lower-casing; any other value comes back unchanged; None exactly for None |
| Instruments.NormalizeDirectionIdempotent | app.py:1963-1971 | normalising a normalised direction changes nothing |
| Instruments.UnrecognizedIsNotCanonical | app.py:1967-1971 | a spelling that is neither long nor short is neither "Long" nor "Short", so the pass-through never forges a canonical direction |
| Clock.DurationMinutes | app.py:2008-2021 | None exactly when the date or a time is missing, empty or unparseable; otherwise a value in [0, 1440) that leads from entry to exit modulo a day; an earlier exit wraps by exactly one day; 0 exactly when the times are equal |
| Clock.DurationIsForwardDistance | app.py:2017-2021 | the duration is the only amount under a day that leads from the entry minute to the exit minute |
| Clock.ParseTimeHour | app.py:1999-2005 | a result exactly when the value is present and parses as "HH:MM", and then it is the parsed time's hour, in [0, 24) |
| Clock.FormatClockIsClockText | app.py:1978 | every formatted time is "HH:MM" with hours below 24 and minutes below 60 |
| Clock.DigitFallback | app.py:1992-1995 | as written: a result exactly for three or four ASCII digits; it has the "DD:DD" shape, and removing its colon gives the digits, padded with a leading 0 to four |
| Clock.NormalizeTimeInput | app.py:1974-1996 | as written: None for no value or blank text; a picked time is formatted as "HH:MM"; other text is stripped, then re-formatted by the first of "%H:%M" and "%H:%M:%S" that parses it, and otherwise handed to the digit fallback; every result has the "DD:DD" shape |
| Clock.DigitFallbackAcceptsInvalidTime | app.py:1992-1995 | as written, "2575" becomes "25:75", which is not a time of day; the corrected version returns None |
| Clock.NormalizeTimeInputChecked | app.py:1974-1996 | corrected: an as-written result that is a valid time of day is kept, one that is not becomes None; so every text returned is a valid time of day |
| Clock.DigitFallbackPadsThreeDigits | app.py:1993-1995 | "930" is padded and becomes "09:30" |
| Clock.FormattedTimeRoundTrips | app.py:1981-1985 | a formatted time that the "%H:%M" parser reads back comes through unchanged |
| Clock.FormatClock | app.py:1978 | `strftime("%H:%M")` gives five characters |
| Clock.DigitFallbackChecked | app.py:1992-1995 | corrected fallback: a result is a valid time of day and is the as-written result; an as-written result that is valid is kept |
| Clock.NormalizeWith | app.py:1974-1996 | the shared shape of both versions: None for no value or blank text; a picked time formatted; stripped text re-formatted by the first parser that reads it; the fallback consulted only when neither does |
| Metrics.Ratio | app.py:2111 | None exactly when the divisor is 0; otherwise the value times the divisor is the dividend |
| Metrics.RiskPercent | app.py:2086-2088 | None exactly when the account size is missing or 0; otherwise the value times the account size is 100 times the dollar risk |
| Metrics.PipValue | app.py:2052-2056 | a fixed rule gives its dollars; the yen rule divides by the entry price when it is positive, else by the exit price, and gives 0 when that price is 0 |
| Metrics.Lots | app.py:2047 | a size of 0 counts as one lot; any other size is itself |
| Metrics.FuturesMetrics | app.py:2103-2145 | the futures branch: points are the move in the trade's favour; gross, net and dollar risk are always present; the duration is passed through |
| Metrics.ForexMetrics | app.py:2044-2101 | the forex branch: points, gross, net and dollar risk are always present; the duration is passed through |
| Metrics.FuturesPnl | app.py:2106-2108 | gross is points × dollars per point × contracts; net is gross less commission and slippage; per-contract P&L is defined exactly for a non-zero size and multiplies back to net; risk is the stop distance × point value × contracts |
| Metrics.FuturesRisk | app.py:2109-2119 | R, target R, MFE R and MAE R are point ratios to the stop distance, each None exactly when that distance is 0 (or its input is missing) |
| Metrics.FuturesExcursions | app.py:2121-2129 | MFE is measured in the trade's favour and MAE against it; missed P&L is the MFE priced like the trade, less the gross P&L |
| Metrics.ForexPnl | app.py:2044-2064 | pips × pip size is the price move; gross is pips × pip value × lots; net subtracts the fees; per-lot P&L is always defined; dollar risk is the stop distance in pips priced the same way |
| Metrics.ForexRMultiple | app.py:2064 | forex R is NET P&L (fees included) over the dollar risk, None exactly when that risk is 0 |
| Metrics.ForexTargetR | app.py:2066-2072 | target R is the pip distance to the take-profit over the pip stop distance, None when there is no take-profit or no risk |
| Metrics.ForexFavourableR | app.py:2074-2084 | MFE in R is a pip ratio to the stop distance, None when either is missing |
| Metrics.ForexAdverseR | app.py:2074-2084 | MAE in R is a pip ratio to the stop distance, None when either is missing |
| Metrics.ForexExcursions | app.py:2074-2084 | excursions are counted in pips; missed P&L is the MFE priced at the pip value and lots, less the gross P&L |
| Metrics.FillOf | app.py:2035-2041 | the side is long exactly for the direction "Long"; prices and size are taken as given; missing commission and slippage count as 0 |
| Metrics.ComputeMetrics | app.py:2024-2145 | all fourteen columns None exactly for an incomplete trade (no instrument or direction, a missing entry, stop, exit or size, an unknown symbol); otherwise points, gross, net and dollar risk are present and the duration is the trade's |
| Metrics.ForexPipSizePositive | app.py:2045 | every forex pair's pip size is positive |
| Metrics.DispatchFutures | app.py:2103-2145 | a complete trade on a future is priced by the futures branch at its catalog point value |
| Metrics.DispatchForex | app.py:2044-2101 | a complete trade on a forex pair is priced by the forex branch at its pair's conventions |
| Metrics.ComputeMetricsFutures | app.py:2035-2038 | for a future, points are exit − entry for "Long" and entry − exit otherwise; a stop at the entry leaves every R ratio None; otherwise R × stop distance is the points |
| Metrics.ComputeMetricsRiskPercent | app.py:2086-2088 | for both conventions the risk percentage is None exactly when the account size is missing or 0 |
| Metrics.ForexZeroLotsIsOneLot | app.py:2047 | a forex size of 0 is priced exactly as one lot |
| Metrics.NonLongIsShort | app.py:2035-2038 | any direction other than exactly "Long" gives the metrics of the same trade marked "Short" |
| Metrics.FuturesShortIsMirroredLong | app.py:2103-2145 | a futures trade and its mirror image (side flipped, every price negated) have the same metrics |
| Metrics.MirrorPnl | app.py:2106-2108 | mirroring keeps the points, the gross, net and per-contract P&L, and the duration |
| Metrics.MirrorRisk | app.py:2109-2110 | mirroring keeps the dollar risk and the risk percentage |
| Metrics.MirrorRatios | app.py:2111-2119 | mirroring keeps every R ratio |
| Metrics.MirrorExcursions | app.py:2121-2129 | mirroring keeps the excursions and the missed P&L |
| Metrics.MirrorDistances | app.py:2035-2038 | flipping the side and negating both prices keeps the favourable and adverse distances |
| Metrics.FuturesNetSignFollowsPoints | app.py:2106-2108 | with positive size and point value and fees smaller than the gross, net P&L has the sign of the points |
| Metrics.ExampleNasdaqLong | app.py:2024-2145 | NQ long 18000 → 18050, stop 17980, fees 4 + 1: 50 points, 1000 gross, 995 net, 400 at risk, R 2.5 |
| Metrics.ExampleUsdJpyLong | app.py:2044-2101 | USDJPY long 150 → 150.75, stop 149.5, one lot: 75 pips, 500 gross and net, 1000/3 at risk, R 1.5 |
| Series.SumAppend | app.py:2374 | the sum of a concatenation is the sum of its parts |
| Series.SumBounds | app.py:3520 | entries in [lo, hi] sum to between n·lo and n·hi |
| Series.Filled | app.py:2370 | `fillna(0.0)`: same length, a missing entry is 0 and a present one is kept |
| Series.Present | app.py:2231 | NaN-skipping reductions see no entry exactly when every entry is missing |
| Series.Gains | app.py:2361 | the sum of the positive entries is never negative, and is 0 exactly when no entry is positive |
| Series.Losses | app.py:2362 | the sum of the negative entries is never positive, and is 0 exactly when no entry is negative |
| Series.GainsPlusLosses | app.py:2361-2362 | wins and losses partition the total: flat entries add nothing |
| Series.WinCount | app.py:2372 | at most the number of entries, and 0 exactly when no entry is positive |
| Series.LossCount | app.py:2377 | at most the number of entries, and 0 exactly when no entry is negative |
| Series.WinsAndLossesDisjoint | app.py:2376-2377 | no entry is both a win and a loss |
| Series.WinRate | app.py:2373 | a percentage in [0, 100], and 0 with no entries |
| Series.WinRateIsShare | app.py:2373 | the win rate times the number of entries is 100 times the number of wins |
| Series.Mean | app.py:2378-2379 | 0 with no entries; otherwise it has the sign of the total |
| Series.MeanTimesCount | app.py:2378-2379 | the mean times the number of entries is the total |
| Series.AverageWin | app.py:2378 | never negative, and 0 without wins |
| Series.AverageLoss | app.py:2379 | never positive, and 0 exactly when there is no loss |
| Series.AverageWinIsMean | app.py:2378 | the average win times the number of wins is the gross win |
| Series.AverageLossIsMean | app.py:2379 | the average loss times the number of losses is the gross loss |
| Equity.CumSumIsPrefixSum | app.py:3519 | the balance after row i is the sum of the first i + 1 rows; successive differences give back the P&L column |
| Equity.CumSum | app.py:3519 | `cumsum()` has one balance per row (its prefix sums are stated by `Equity.CumSumIsPrefixSum`) |
| Equity.RunningMax | app.py:3521 | `cummax()` has one peak per row (its prefix maxima are stated by `Equity.RunningMaxIsPrefixMax`) |
| Equity.Drawdown | app.py:3522 | one drawdown per row (its meaning is stated by `Equity.DrawdownIsFallFromPeak`) |
| Equity.Smooth | app.py:3520 | one smoothed value per row (bounded by `Equity.SmoothWithinWindow`) |
| Equity.FinalBalanceIsTotal | app.py:3519 | the last balance is the total P&L |
| Equity.RunningMaxIsPrefixMax | app.py:3521 | each peak is at least every earlier balance and equals one of them; the first peak is the first balance, not 0; peaks never fall |
| Equity.DrawdownIsFallFromPeak | app.py:3522 | every drawdown is ≤ 0, is at most the fall from any earlier balance, and equals the fall from some earlier balance |
| Equity.DrawdownBelowPeak | app.py:3522 | each drawdown is the balance less its running peak, and ≤ 0 |
| Equity.MinOf | app.py:2356 | `min()` is at most every entry and is one of them |
| Equity.MaxDrawdownIsLargestDecline | app.py:2354-2356 | `abs(drawdown.min())` is ≥ 0, bounds every fall from an earlier balance to a later one, and is reached by some pair of balances |
| Equity.MaxDrawdown | app.py:2350-2356 | `_max_drawdown`: 0 for an empty series; otherwise, after `fillna(0.0)`, the largest fall from an earlier balance to a later one |
| Equity.NonDecreasingHasNoDrawdown | app.py:2354-2356 | a balance that never falls has drawdown 0 |
| Equity.ProfitFactor | app.py:2359-2365 | `_profit_factor`: None exactly when every entry is 0; infinite exactly when there are wins and no losses; otherwise a ratio ≥ 0 whose product with the size of the gross loss is the gross win |
| Equity.SmoothWithinWindow | app.py:3520 | each smoothed value lies between the smallest and the largest balance of its trailing five-row window |
| Equity.MeanWithinRange | app.py:3520 | the mean of a non-empty window lies between its minimum and maximum |
| Equity.SmoothStartsAtFirstBalance | app.py:3520 | with `min_periods=1` the smoothed curve starts at the first balance |
| Equity.DailyCurves | app.py:3517-3522 | the four daily curves have one entry per day: the balance is the prefix sum of the daily P&L (`cumsum`), the peak its running maximum (`cummax`), the smoothed curve its trailing five-day mean (`rolling(5, min_periods=1)`) and the drawdown balance less peak |
| Equity.DailyCurvesMeaning | app.py:3519-3522 | on every day the peak is at least every balance so far and equals one of them, the drawdown is balance less peak and ≤ 0, and the smoothed value lies between the smallest and largest balance of its window |
| Streaks.TrailingRunIsMaximalSuffix | app.py:2533-2538 | the trailing run is all wins, and the entry before it, if any, is a loss |
| Streaks.TrailingRun | app.py:2533-2538 | the length of the run of wins ending the sequence, at most its length |
| Streaks.LongestRun | app.py:2539-2546 | the longest run of wins, at least the trailing run and at most the length |
| Streaks.TrailingRunOfSuffix | app.py:2533-2538 | a suffix of wins preceded by a loss, or by nothing, is the trailing run |
| Streaks.LongestRunIsLongestWindow | app.py:2539-2546 | some window of wins is as long as the record, and none is longer |
| Streaks.StepRuns | app.py:2541-2546 | one more entry: the run grows on a win and resets on a loss; the record is the larger of the old record and the new run |
| Streaks.Streak | app.py:2532-2546 | the backward loop computes the trailing run; the forward loop computes the longest run |
| Streaks.Winning | app.py:2532 | a day wins exactly when its P&L is strictly positive |
| Streaks.ComputeStreaks | app.py:2517-2568 | all four counts 0 for no days; otherwise the trailing and longest winning runs of days (a missing P&L is flat) and of weeks; current ≤ record |
| Streaks.ExampleStreak | app.py:2517-2568 | days +10, +5, −3, +2, +2 give current 2 and record 2 |
| Streaks.AllWinningIsOneRun | app.py:2532-2546 | all winning days form one run: current and record are the number of days |
| Score.Clamp01 | app.py:2193-2198 | a value in [0, 1]; unchanged inside; 0 below; 1 above |
| Score.ScaleLinear | app.py:2201-2204 | a score in [0, 100], and 0 for an empty range |
| Score.ScaleLinearOnRange | app.py:2201-2204 | on a rising range: 0 at or below lo, 100 at or above hi, proportional to value − lo between them |
| Score.ScaleLinearMonotone | app.py:2201-2204 | a larger value never scores less |
| Score.WinLossRatio | app.py:2218-2220 | average win over the size of the average loss: never negative, and 0 without losses |
| Score.ScoreProfitFactor | app.py:2222-2223 | never negative, and 0 (not infinite) when nothing was lost |
| Score.ProfitFactorIsRatio | app.py:2222-2223 | with some loss, the score's profit factor times the size of the gross loss is the gross win |
| Score.ScoreDrawdown | app.py:2226-2230 | trade-by-trade drawdown: 0 for no trades; None exactly when no trade has a P&L; otherwise ≥ 0, bounds every fall of the running balance, and is reached by one |
| Score.RawFigures | app.py:2212-2237 | win rate and consistency in [0, 100]; profit factor and win/loss ratio ≥ 0; total P&L is the sum of the present P&Ls; drawdown as above |
| Score.DrawdownComponent | app.py:2250-2257 | in [0, 100]; with total P&L 0 it is 100 exactly when the drawdown is 0, and 0 exactly when it is not |
| Score.DrawdownComponentScale | app.py:2250-2257 | with a non-zero total: 100 at no drawdown, and 0 once the drawdown reaches 1.5 times the total's size |
| Score.ComponentsOf | app.py:2241-2257 | every one of the five components lies in [0, 100] |
| Score.WeightedWithinRange | app.py:2260-2267 | the weights sum to 1, so components in [0, 100] give a weighted sum in [0, 100] |
| Score.NonZeroTotalHasTrades | app.py:2231 | a non-zero total P&L means some trade has a P&L, so its drawdown is defined |
| Score.ComputeZyloScore | app.py:2207-2280 | the overall score is in [0, 100]; the raw figures and components are those defined above |
| Score.OverallIsWeightedSum | app.py:2267-2268 | the final clamp never bites: the overall score is exactly the weighted sum |
| Score.EmptyJournalScores18 | app.py:2207-2280 | an empty journal scores 18: only the drawdown component (100 × 0.18) is non-zero |
| Score.NoLossesScoresZeroProfitFactor | app.py:2223 | trades without a loss score 0 on the profit-factor axis |
| Summary.AddToDayKeepsOrder | app.py:2385 | booking a row keeps the days in strict calendar order and adds exactly its day |
| Summary.AddToDayBooks | app.py:2385 | booking adds the P&L to its day's total and to the grand total, and to no other day |
| Summary.AddToDay | app.py:2385 | booking always leaves at least one day listed |
| Summary.GroupByDay | app.py:2384-2386 | one total per dated day, in strict calendar order; rows whose date does not parse are dropped |
| Summary.GroupByDaySums | app.py:2385 | each day's total is the sum of that day's rows; the grand total is the P&L of all dated rows |
| Summary.TotalOnListedDay | app.py:2385 | in a sorted breakdown a listed day's total is its entry |
| Summary.BestDay | app.py:2390 | a listed day whose total is at least every other day's |
| Summary.WorstDay | app.py:2391 | a listed day whose total is at most every other day's |
| Summary.HeadlineOf | app.py:2371-2379 | trades and wins counted over every row; win rate is the winning share; total P&L is gains plus losses; averages as defined above |
| Summary.PnlAsRead | app.py:2370 | the column as read coerces, by `fillna(0.0)`, to the P&L the summary counts |
| Summary.SummarizePerformance | app.py:2368-2410 | the headline is that of the filled P&L column (trades, wins, win rate, total, averages, all stated by `Summary.HeadlineOf`); the profit factor is `_profit_factor` of the column; max drawdown is the largest fall of the trade-by-trade balance; best and worst days are absent exactly when no row has a date |
| Summary.BestAndWorstDays | app.py:2387-2393 | both days absent exactly when no row has a date |
| Summary.SummaryBestAndWorstDays | app.py:2384-2393 | the best and worst days are dated days whose rows sum to their reported P&L; every dated day's sum lies between them |
| Tags.Cleaned | app.py:2151 | ";" and newline become ","; every other character is kept |
| Tags.NonEmptyTrimmed | app.py:2153-2156 | the kept pieces are non-empty and stripped |
| Tags.Dedup | app.py:2157-2164 | de-duplication never lengthens the list |
| Tags.NewKeyIsFirst | app.py:2160-2162 | a tag's key was already seen exactly when the tag is not the first with its key |
| Tags.DedupIsFirstOccurrences | app.py:2157-2164 | the kept tags are exactly the first occurrences of each key, in their original order |
| Tags.DedupKeysDistinct | app.py:2157-2164 | no two kept tags are equal after lower-casing |
| Tags.DedupKeepsKeys | app.py:2157-2164 | no key is lost |
| Tags.ParseCustomConfluences | app.py:2148-2165 | the two loops compute the confluence list |
| Tags.StripPieces | app.py:2153-2156 | the first loop keeps the stripped non-empty pieces, in order |
| Tags.DropRepeatedKeys | app.py:2157-2164 | the second loop keeps each tag whose lower-case key is new |
| Tags.DedupStep | app.py:2159-2164 | a tag is kept exactly when its key is new, and its key joins the seen set |
| Tags.ConfluencesAreClean | app.py:2148-2165 | empty input gives no tags; tags are non-empty, stripped and distinct ignoring case |
| Tags.ConfluencesAreTheFirstTokens | app.py:2148-2165 | no tag holds a separator; the tags have the same keys as the tokens; each is the first token with its key, in token order |
| Tags.TokensAvoid | app.py:2151-2153 | no token holds ",", ";" or a newline |
| Tags.Tokens | app.py:2151-2156 | the cleaned, split, stripped pieces that are kept are non-empty and stripped |
| Tags.Confluences | app.py:2148-2165 | nothing for an empty box, and never more tags than tokens |
| Tags.StrLessStrictTotal | app.py:2965 | Python's string order is a strict total order |
| Tags.StrLessTransitive | app.py:2965 | Python's string order is transitive |
| Tags.HasLeast | app.py:2965 | every non-empty set of strings has a least element |
| Tags.SortedSet | app.py:2965 | `sorted(set)` holds exactly the set's elements, in strictly increasing order |
| Tags.TagSetMembers | app.py:2959-2964 | a tag is collected exactly when some cell holds it as a stripped, non-empty comma-separated piece |
| Tags.CollectTags | app.py:2958-2965 | the loop returns the sorted set of the column's tags |
| Tags.AddPieces | app.py:2961-2964 | the inner loop adds exactly the stripped, nonempty pieces of one cell to the set |
| Tags.CollectedTags | app.py:2958-2965 | the result is strictly increasing, hence free of duplicates; every tag is non-empty, stripped and comma-free; the tags are exactly those found in some cell |
| Calendar.MonthDailyFromRows | app.py:2742 | every day of the map is a row's date with that row's figures, and every row's date is in the map |
| Calendar.MonthDaily | app.py:2742 | no days for no rows; the last row's date carries the last row's figures, so a later row replaces an earlier one |
| Calendar.LargestSize | app.py:2743 | the largest day size is ≥ 0, bounds every day and is reached by one (0 for no days) |
| Calendar.MaxAbs | app.py:2743 | `max_abs` is positive and bounds every day; when it is not 1 some day reaches it; it is 1 when every day is flat |
| Calendar.Intensity | app.py:2759-2763 | the shading ratio is in [0, 1]; size over scale below the scale, and 1 at or above it |
| Calendar.ShadingIsProportional | app.py:2759-2763 | for a day of the month the cap never bites: the ratio times `max_abs` is the day's size |
| Calendar.DayWithinScale | app.py:2743 | no day of the month is larger than `max_abs` |
| Calendar.MonthStatsOf | app.py:2745-2748 | all 0 for a month without rows; the total is the sum of the days; green, red and flat count the days above, below and at 0 |
| Calendar.DaysArePartitioned | app.py:2746-2748 | every day is exactly one of green, red or flat |
| Calendar.MonthDaysAddUp | app.py:2746-2748 | green, red and flat days add up to the month's number of days |
| Calendar.DayValue | app.py:2781-2782 | a day outside the month, or without trades, shows (0, 0) |
| Calendar.WeekSum | app.py:2777-2786 | a week lists at most its own days, all of them in the month |
| Calendar.WeekTotals | app.py:2776-2786 | the loop gives, for each week of the grid, the week's sum over its days of the month |
| Calendar.WeekSumAppend | app.py:2780-2786 | summing two stretches of days in a row gives the sum of their P&L, the sum of their trades, and their days one after the other |
| Calendar.OtherMonthsIgnored | app.py:2781-2786 | days of other months change nothing: a week sums to the same as its days of the month alone |
| Calendar.WeekTotalsAddUp | app.py:2776-2786 | the week totals add up to the totals of the whole grid, so no day is lost or counted twice |
| Entitlements.SafeStr | app.py:1929-1934 | "" for None and NaN, the text of anything else |
| Entitlements.IsUnlimited | app.py:1631-1639 | unlimited for a missing or empty row; otherwise exactly when the plan is pro, grandfathered or lifetime in any case, or the trade limit is missing or null |
| Entitlements.UnlimitedPlanIgnoresLimit | app.py:1635-1637 | for an unlimited plan, no value of the trade limit matters |
| Entitlements.PlanIgnoresCase | app.py:1635 | "PRO" and "Pro" are unlimited like "pro" |
| Entitlements.FreePlanWithLimitIsLimited | app.py:1638-1639 | a free plan with any non-null limit, NaN included, is limited |

## Left out

- **Outside the core:**
  - Streamlit rendering, HTML and CSS;
  - the charts and the radar;
  - the PNG and HTML report cards;
  - Supabase, Stripe and the other network clients;
  - the random demo data.
- **Floating point:** numbers are exact reals. IEEE rounding, NaN propagation and infinities are not modelled, except `_profit_factor`'s `inf`, which is a constructor.
- **Values that are NaN rather than None:**
  - `commission or 0` keeps a NaN fee, which the model cannot express;
  - `astype(str)` renders non-string tag cells as text the model does not compute.
- **Library calls as inputs or parameters:**
  - `strptime` and `to_datetime` are function parameters;
  - the weekly resample sums and the `monthdatescalendar` week grid are inputs.
- **Row order:** the rows are taken as already in date order. `sort_values("date")` is not modelled.
- Text.Lower: `lower()`, `upper()` and `isdigit()` are modelled on ASCII only. Unicode case mapping and non-ASCII digits are not covered. `strip()` uses Python's whitespace set.
- Summary.BestDay: ties go to the first day in date order. pandas' unstable `sort_values` may pick a different day among equals, though its total is the same.
- Calendar.MaxAbs: computed over the month's rows rather than over the values of the day map. The two agree because the group-by gives each day one row.
- Score.RawFigures: `recovery_factor` is computed by the source but never used, so it is not modelled.
- Score.ScoreProfitFactor: its contract states only the sign and the no-loss case. The ratio itself is stated by `Score.ProfitFactorIsRatio`.
- Score.WinLossRatio: its contract states only the sign and the no-loss case. The ratio is average win over the size of average loss, and `Series.AverageWinIsMean` and `Series.AverageLossIsMean` relate those averages to the totals.
- Metrics.ComputeMetrics: the forex properties are stated on the branch function (`Metrics.ForexPnl`, `Metrics.ForexRMultiple` and the other forex lemmas). `Metrics.DispatchForex` connects that branch to `ComputeMetrics`.
- **Score profit factor with no losses:** `compute_zylo_score` takes the profit factor as 0 when nothing was lost (app.py:2223), unlike `_profit_factor`, which returns `inf` in that case (app.py:2364). `Score.ScoreProfitFactor` follows line 2223 and `Equity.ProfitFactor` follows line 2364.
- **Duration as a whole number:** the source returns `total_seconds() / 60`, a float. At minute resolution it is always a whole number, so the model returns an integer.

## Findings

| source | as written | input that shows it | evidently intended | confidence | as-written member | corrected member |
|---|---|---|---|---|---|---|
| app.py:1992-1995 | three or four digits are split into "HH:MM" with no range check | "2575" is returned as "25:75" | a text that is not a valid time of day gives None, like the other unparseable inputs | not executed | Clock.DigitFallbackAcceptsInvalidTime | Clock.NormalizeTimeInputChecked |
