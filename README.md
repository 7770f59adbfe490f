# Stock screening pipeline: indicators, ranking, fundamentals, screens

This project is a Dafny model of the analytic core of a daily stock-screening pipeline. Each day the pipeline does the following:

- It downloads two years of prices for every instrument in `stock_master`, together with the benchmark VTI.
- It normalises the downloaded frame and computes per-instrument metrics: the relative-strength score against the benchmark, the weekly return, and the distance to the 200-day moving average.
- It upserts those metrics into `price_daily` and `price_weekly`.
- It ranks every instrument against the others of the same week: a percentile rating, the momentum, and a letter grade.
- On Saturdays it also rebuilds the quarterly and annual financial tables and scores each ticker's fundamentals.
- It selects up to 30 market leaders for a generated report.
- A separate screen looks for stocks that break out of a 60-day price box on heavy volume.

The store is SQLite (`app/core/config.py:14`). SQLite's semantics are the ones modelled: window functions, `PERCENT_RANK`, `ROUND`, and a division by zero yielding NULL.

The model follows the structure of the program:

- One module per service file: `Analyzer`, `FinancialCollector`, `Scanner`, `DataFetcher`, `DbOps` and `Reporting`.
- Three support modules:
  - `Schema` holds the tables. Each table is a map from its primary key to its remaining columns, and they are gathered in a `Database` class whose fields the services update.
  - `Common` holds options and results, rounding, sums and maxima.
  - `Ordering` holds SQL `ORDER BY ... DESC LIMIT n` over result sets.

The services that write the store are methods with `modifies` clauses on the table fields they write. Each such method is specified by a function of the old state.

The row-building loops are methods with loop invariants: flattening the column header, the case-insensitive column search, and the quarterly and annual `iterrows` loops. Each is proved equal to a function that defines its result.

SQL queries are described as functions over the table maps:
- the ranking `UPDATE`;
- the breakout window query;
- the leader query;
- the fundamentals lookups.

Where a query's result order is not determined by the data (rows with equal sort keys), the order is a ghost function. The model promises only what the query promises.

Dates are numbers written YYYYMMDD, so numeric order is calendar order. The freshness check compares `YYYY-MM-DD` strings, as the source does. A lemma proves that this string order is the date order.

Floating-point quantities are real numbers. Rounding is round-half-away-from-zero to p decimals. The proofs use only three facts about it:
- it moves a value by at most half a unit;
- it is monotone;
- it is exact on grid points.

In several places the code does not follow the documented scoring and ranking rules. The model follows the code:
- The fundamentals score has no deficit cap.
- `rs_momentum` is the change in `rs_value`, not the change in rating.
- No `rs_trend` column exists.
- A date with a single row ranks 0, not 100.
- `is_vcp`, `is_vol_dry` and the ATR stop are never computed.

## Model

| member | source | states |
|---|---|---|
| Analyzer.CalculateMetrics | app/services/analyzer.py:7-42 | fails with InsufficientHistory exactly when there are fewer than 252 rows; the daily record is the newest bar, with volume truncated; is_above_200ma is 1 exactly when the last close is above the 200-day mean; each rounded metric is within 0.005 of its exact value |
| Analyzer.RsScoreAntisymmetric | app/services/analyzer.py:11-23 | the RS score of a series against itself is 0, and swapping target and benchmark negates the score |
| Analyzer.WeightedReturnBetweenQuarters | app/services/analyzer.py:11-18 | the weighted return lies between the worst and the best of the four quarter returns, because the weights sum to 1 |
| Analyzer.RsScoreOutperforming | app/services/analyzer.py:11-23 | beating the benchmark in every quarter gives a non-negative RS score; beating it strictly in every quarter gives a positive one |
| Analyzer.WeightedReturnScaleInvariant | app/services/analyzer.py:11-18 | multiplying all prices by a positive factor leaves the weighted return unchanged |
| Analyzer.RsScoreOfScaledBenchmark | app/services/analyzer.py:11-23 | an instrument that tracks the benchmark at another price scale scores exactly 0 |
| Analyzer.WeightedReturnIgnoresOlderHistory | app/services/analyzer.py:11-18 | only the newest 252 closes matter; prepending older history never changes the weighted return |
| Analyzer.Sma200Bounds | app/services/analyzer.py:25 | the 200-day mean lies between the minimum and maximum of the last 200 closes |
| Analyzer.DeviationSign | app/services/analyzer.py:39-40 | before rounding, the deviation is positive exactly when the close is above the mean, and zero exactly when the two are equal, matching the is_above flag |
| Analyzer.FlatSeriesMetrics | app/services/analyzer.py:7-42 | a flat price series yields a 0 % weekly return and 0 % deviation, is reported as not above the average, and has a weighted return of 0 |
| Analyzer.PercentRank | app/services/analyzer.py:64 | PERCENT_RANK within a date partition always lies in [0, 1] |
| Analyzer.RsRating | app/services/analyzer.py:64 | the rating ROUND(PERCENT_RANK*100) is a whole number from 0 to 100 |
| Analyzer.PrevDate | app/services/analyzer.py:65 | the LAG row is the ticker's latest earlier date; it is absent exactly when the ticker has no earlier date |
| Analyzer.RsMomentum | app/services/analyzer.py:65 | NULL exactly on a ticker's earliest date; otherwise the rs_value minus the rs_value at the previous date |
| Analyzer.RsGrade | app/services/analyzer.py:59-61 | grades A/B/C/D/E are assigned exactly on the rating intervals [90,∞), [70,90), [50,70), [30,50), (−∞,30) |
| Analyzer.RsGradeMonotone | app/services/analyzer.py:59-61 | a higher rating never receives a worse grade |
| Analyzer.NewRankColumns | app/services/analyzer.py:62-67 | the derived row has a rating in 0..100 and the grade of that rating |
| Analyzer.RankingSnapshot | app/services/analyzer.py:62-67 | the derived table T has one row for every price_weekly row |
| Analyzer.Ranked | app/services/analyzer.py:56-68 | the UPDATE touches every row and adds or removes none |
| Analyzer.RankedRow | app/services/analyzer.py:57-68 | each row gets the rating, momentum and grade computed from the table before the update; every other column is unchanged |
| Analyzer.RsRatingMonotone | app/services/analyzer.py:64 | on the same date, a larger rs_value never gets a smaller rating |
| Analyzer.RsRatingTies | app/services/analyzer.py:64 | equal rs_values on the same date get equal ratings |
| Analyzer.RsRatingOfMinimum | app/services/analyzer.py:64 | the lowest rs_value of a date, whether tied or not, is rated 0 |
| Analyzer.RsRatingOfSingleRow | app/services/analyzer.py:64 | the only row of a single-row date is rated 0 |
| Analyzer.RsRatingOfStrictMaximum | app/services/analyzer.py:64 | a strictly largest rs_value on a date with at least two rows is rated 100 |
| Analyzer.RankingReadsOnlyRsValue | app/services/analyzer.py:63-65 | the new columns depend only on ticker, date and rs_value: tables that agree on those give identical new columns |
| Analyzer.RankedIdempotent | app/services/analyzer.py:56-70 | running the ranking UPDATE twice leaves the table as running it once |
| Analyzer.RankedIdempotentAt | app/services/analyzer.py:56-70 | for each single row, a second ranking pass reproduces the first pass's values |
| Analyzer.UpdateRsIndicators | app/services/analyzer.py:46-71 | price_weekly becomes the ranked version of its previous contents, and no other table changes |
| FinancialCollector.PctChange4 | app/services/financial_collector.py:25-26 | the 4-period change is defined exactly when position ≥ 4, both values are present and the base is non-zero; when defined, it equals (x/base − 1)·100 |
| FinancialCollector.PctChangeSign | app/services/financial_collector.py:25-26 | with a positive base, the growth is positive exactly when the value rose, and zero exactly when it stayed the same |
| FinancialCollector.RoundOpt | app/services/financial_collector.py:43-44 | NULL stays NULL; a present value is rounded to within half a unit of p decimals |
| FinancialCollector.QuarterKeptPositions | app/services/financial_collector.py:35-36 | lists exactly the periods with a present, non-zero revenue and a present net income, in increasing order |
| FinancialCollector.BuildQuarterlyRows | app/services/financial_collector.py:28-46 | the loop emits one record for each kept period, in input order, and each record is the one built for that period |
| FinancialCollector.QuarterlyRecordsByPosition | app/services/financial_collector.py:30-46 | the j-th emitted quarterly record is the record built for the j-th kept period, and there are as many records as kept periods |
| FinancialCollector.QuarterGrowthNullAtStart | app/services/financial_collector.py:25-44 | records in the first four positions carry NULL growth for both columns |
| FinancialCollector.QuarterGrowthValue | app/services/financial_collector.py:25-44 | stored revenue growth is present exactly when the period four positions earlier has a non-zero revenue, and lies within 0.005 of the exact change; likewise for EPS growth from net income |
| FinancialCollector.QuarterlyKeyed | app/services/financial_collector.py:38-45 | each record becomes a (ticker, date) key paired with the stored columns |
| FinancialCollector.ProcessQuarterlyData | app/services/financial_collector.py:12-59 | financial_quarterly becomes the old table with every emitted record upserted on (ticker, date), later records overriding earlier ones; no other table changes |
| FinancialCollector.QuarterlyUpsertStoresRecord | app/services/financial_collector.py:48-58 | after the upsert, a record not overridden later in the batch is exactly what the table holds for its key |
| FinancialCollector.Roe | app/services/financial_collector.py:82 | ROE is defined exactly when net income and equity are present and the equity is non-zero; when defined, it equals ni/equity·100 |
| FinancialCollector.RoePositive | app/services/financial_collector.py:82 | positive income on positive equity gives a positive ROE |
| FinancialCollector.TruncOpt | app/services/financial_collector.py:96-97 | `int()` applied to an optional value: NULL stays NULL, and a present value is truncated toward zero |
| FinancialCollector.AnnualRecordFields | app/services/financial_collector.py:86-99 | a kept period's record has the period's year and an always-present revenue; net income is NULL only when missing; ROE is within 0.005 of ni over the same date's equity, NULL exactly when undefined |
| FinancialCollector.AnnualKeptPositions | app/services/financial_collector.py:91 | lists exactly the periods with a present, non-zero revenue, in increasing order |
| FinancialCollector.BuildAnnualRows | app/services/financial_collector.py:84-100 | the loop emits one record for each kept period, in order |
| FinancialCollector.AnnualRecordsByPosition | app/services/financial_collector.py:86-100 | the j-th emitted annual record is the record built for the j-th kept period, and there are as many records as kept periods |
| FinancialCollector.AnnualKeyed | app/services/financial_collector.py:93-99 | each record becomes a (ticker, year) key paired with the stored columns |
| FinancialCollector.ProcessAnnualData | app/services/financial_collector.py:65-111 | an empty income or balance statement leaves the store unchanged; otherwise every record is upserted on (ticker, year), and the later period in a year wins |
| FinancialCollector.AnnualRecordsHaveRevenue | app/services/financial_collector.py:91-97 | every emitted annual row has a revenue |
| FinancialCollector.GrowthScore | app/services/financial_collector.py:153 | the score is in [0, 60]: 60 from 30 % growth upward, 0 at or below zero growth, and two points per percent in between |
| FinancialCollector.RoeScore | app/services/financial_collector.py:156 | the score is in [0, 40]: 40 once ROE·2.35 reaches 40, 0 at or below zero, and ROE·2.35 in between |
| FinancialCollector.GrowthScoreMonotone | app/services/financial_collector.py:153 | higher growth never lowers the growth score |
| FinancialCollector.RoeScoreMonotone | app/services/financial_collector.py:156 | a higher ROE never lowers the ROE score |
| FinancialCollector.TotalScore | app/services/financial_collector.py:158 | the rounded total is always in [0, 100] |
| FinancialCollector.TotalScoreMonotone | app/services/financial_collector.py:153-158 | higher growth and a higher ROE never lower the total |
| FinancialCollector.TotalScoreFull | app/services/financial_collector.py:146-158 | 30 % growth together with ROE·2.35 ≥ 40 scores exactly 100 |
| FinancialCollector.FundamentalGrade | app/services/financial_collector.py:161-170 | grades A/B/C/D/E are assigned exactly on the total intervals [80,∞), [60,80), [40,60), [20,40), (−∞,20) |
| FinancialCollector.FundamentalGradeMonotone | app/services/financial_collector.py:161-170 | a higher total never receives a worse grade |
| FinancialCollector.GrowthOrZero | app/services/financial_collector.py:148 | a NULL growth counts as 0; a present growth is used as is |
| FinancialCollector.EvaluateFundamentals | app/services/financial_collector.py:122-170 | no quarterly row gives NoQuarterlyData, in both directions; latest annual row with NULL roe gives NullRoe, in both directions; a scored result carries the latest quarter's date, a total in [0, 100] and that total's grade |
| FinancialCollector.EvaluateFundamentalsScore | app/services/financial_collector.py:124-158 | the score uses growth from the latest quarter (NULL as 0) and ROE from the latest year, or 0 when the ticker has no annual row |
| FinancialCollector.ProcessStockFundamentals | app/services/financial_collector.py:118-188 | a scored ticker's stock_fundamentals row is inserted or replaced with its latest quarter date, grade, total and clock reading; otherwise no table changes |
| Scanner.TickerDates | app/services/scanner.py:22 | the window partition's dates are strictly increasing and are exactly the ticker's price_daily dates |
| Scanner.TickerBars | app/services/scanner.py:22-28 | one bar per partition date, carrying that row's columns |
| Scanner.TickerBarsOrdered | app/services/scanner.py:22-28 | bars are in strictly increasing date order, and every price_daily row of the ticker appears among them |
| Scanner.Preceding | app/services/scanner.py:22-28 | `n PRECEDING AND 1 PRECEDING` is the up-to-n rows just before row i, never including row i |
| Scanner.MaxHigh | app/services/scanner.py:22 | box_high is the largest high of the window and is attained by one of its rows |
| Scanner.MinLow | app/services/scanner.py:24 | box_low is the smallest low of the window and is attained by one of its rows |
| Scanner.WindowAggregates | app/services/scanner.py:22-28 | no aggregates exactly on a ticker's first row, whose frames are empty (MAX, MIN and AVG are NULL there and COUNT is 0, so the row fails the WHERE clause either way); elsewhere data_count is min(i, 60) |
| Scanner.BreakoutAt | app/services/scanner.py:37-44 | a result row reports the ticker, the date and the close of the qualifying bar, with data_count 60 |
| Schema.LatestDate | app/services/scanner.py:35 | MAX of the date column over every ticker (`MAX(date)` here, and `MAX(WEEKLY_DATE)` in app/services/reporting.py:38) is NULL only for an empty table; otherwise it is attained by some row and bounds every row |
| Scanner.ScanBreakoutStocks | app/services/scanner.py:14-78 | the result contains exactly the qualifying rows, once each, ordered by vol_spike_pct descending with NULL last, and is empty when none qualify |
| Scanner.BreakoutBeatsBox | app/services/scanner.py:46-54 | a qualifying row has at least 60 earlier rows, and its close beats every high among the previous 60 |
| Scanner.QualifyingBox | app/services/scanner.py:46-51 | every one of the 60 earlier rows lies inside [box_low, box_high], box_low is non-zero, and with a positive box_low the box is at most 20 % tall |
| Scanner.BreakoutReportedRatios | app/services/scanner.py:42-57 | with a positive box_low, the reported width is ≤ 20.0 %; whenever the average volume is positive, the reported spike is ≥ 300 % |
| Scanner.LatestRowIsLastBar | app/services/scanner.py:33-36 | a ticker's row at the table's latest date is its newest bar |
| Scanner.CandidatesAreBreakouts | app/services/scanner.py:14-62 | every candidate is a STOCK ticker's newest bar at the latest date; it passes every filter and beats its 60-row box |
| DataFetcher.FlatNameEitherOrder | app/services/data_fetcher.py:91-102 | the pairs (Ticker, Price) and (Price, Ticker) both flatten to Price_Ticker |
| DataFetcher.FlattenColumns | app/services/data_fetcher.py:90-104 | the loop produces one flattened name per header pair, in order |
| DataFetcher.FlatNames | app/services/data_fetcher.py:90-104 | the MultiIndex header maps pointwise to flattened names |
| DataFetcher.SingleName | app/services/data_fetcher.py:109 | a plain label always ends up containing the ticker; it is left unchanged when it already contains it, otherwise `_ticker` is appended |
| DataFetcher.SingleNameIdempotent | app/services/data_fetcher.py:109 | renaming a single label twice gives the same name as renaming it once |
| DataFetcher.SingleNames | app/services/data_fetcher.py:109 | the single-level header maps pointwise through the label rule |
| DataFetcher.Lower | app/services/data_fetcher.py:120 | lower-casing preserves length and maps each character |
| DataFetcher.SearchKeyIsLoweredTarget | app/services/data_fetcher.py:120 | the search key `close_{ticker}` lower-cased equals the target column lower-cased |
| DataFetcher.FirstMatch | app/services/data_fetcher.py:119-123 | returns the first column whose lower-cased name equals the key; it is absent exactly when no column matches |
| DataFetcher.RenameAll | app/services/data_fetcher.py:121 | every column with the old name is renamed, and the others keep their names |
| DataFetcher.FixTargetColumn | app/services/data_fetcher.py:115-127 | fails exactly when the target column is absent and no column matches it case-insensitively; on success the target is present and the column count unchanged, and an already-present target leaves the columns untouched |
| DataFetcher.FixTargetColumnRenamesFirstMatch | app/services/data_fetcher.py:119-123 | the fallback renames exactly the columns equal to the first match and leaves every other column untouched |
| DataFetcher.FindTargetColumn | app/services/data_fetcher.py:115-127 | the search loop with its `break` computes FixTargetColumn |
| DataFetcher.DedupKeepLast | app/services/data_fetcher.py:140 | de-duplication keeps only input rows and never adds a row |
| DataFetcher.DedupKeepsLastOfEachDate | app/services/data_fetcher.py:140 | the kept rows are exactly the last row of each date |
| DataFetcher.DedupUniqueDates | app/services/data_fetcher.py:140 | after de-duplication every date occurs once |
| DataFetcher.DedupKeepsEveryDate | app/services/data_fetcher.py:140 | every input date still has a row after de-duplication |
| DataFetcher.DedupUnique | app/services/data_fetcher.py:140 | a frame whose dates are already unique is left unchanged |
| DataFetcher.DropNa | app/services/data_fetcher.py:143 | the rows kept are exactly the complete input rows |
| DataFetcher.DropNaKeepsUniqueDates | app/services/data_fetcher.py:140-143 | dropping rows preserves unique dates |
| DataFetcher.FetchCombinedData | app/services/data_fetcher.py:49-153 | the result is either the empty frame or a frame with the target column, one row per date and no missing value |
| DataFetcher.FormatIso | app/services/data_fetcher.py:36 | `YYYY-MM-DD` is always 10 characters |
| DataFetcher.FormatIsoOrder | app/services/data_fetcher.py:40-41 | the string comparison of ISO dates is exactly the date order |
| DataFetcher.CheckMarketDataUpdate | app/services/data_fetcher.py:10-46 | the check can answer "up to date" only when the download succeeded with rows and the store has a benchmark date |
| DataFetcher.CheckMarketDataUpdateIsDateOrder | app/services/data_fetcher.py:40-43 | the update is skipped exactly when the stored date is on or after the newest market date |
| DbOps.UpsertDaily | app/services/db_ops.py:39-48 | a new key gets the whole row; an existing key gets the new close, volume, high and low but keeps its stored open; every other row is unchanged |
| DbOps.UpsertWeekly | app/services/db_ops.py:51-68 | a new key gets the nine values with NULL ranking columns; an existing key keeps its weekly_return and its ranking columns and gets the other six; every other row is unchanged |
| DbOps.UpsertDailyIdempotent | app/services/db_ops.py:39-48 | saving the same daily record twice gives the same table as saving it once |
| DbOps.UpsertWeeklyIdempotent | app/services/db_ops.py:51-68 | saving the same weekly record twice gives the same table as saving it once |
| DbOps.UpsertDailySize | app/services/db_ops.py:39-48 | an upsert adds at most one row, and adds none exactly when the key already exists |
| DbOps.UpsertWeeklySize | app/services/db_ops.py:51-68 | an upsert adds at most one row, and adds none exactly when the key already exists |
| DbOps.ResaveKeepsStaleRanking | app/services/db_ops.py:60-67 | re-saving a week replaces rs_value but keeps the previous rating and grade, so they are stale until the next ranking pass |
| DbOps.SaveToSqlite | app/services/db_ops.py:28-68 | one daily and one weekly upsert are applied, and no other table changes |
| DbOps.FinishedTickers | app/services/db_ops.py:163-176 | a ticker is finished exactly when it has a price_daily row on the date |
| DbOps.GetTickers | app/services/db_ops.py:7-24 | every stock_master ticker appears and nothing else does, with its market type, or with STOCK when that column is missing |
| DbOps.GetTickersOnePerTicker | app/services/db_ops.py:7-24 | each ticker appears with exactly one market type |
| Schema.Database.constructor | app/services/db_ops.py:75-158 | a freshly initialised store has every table present and empty |
| Reporting.LeaderCandidates | app/services/reporting.py:32-42 | every candidate has a rating ≥ 90, fundamental grade A, a positive weekly return, a master row whose name it carries and a fundamentals row whose eps_rating it carries, and is built from its ticker's latest-week row, which passes the WHERE clause: rating, weekly return and deviation are that row's |
| Reporting.LeaderCandidatesComplete | app/services/reporting.py:35-40 | every row of the latest week that passes the WHERE clause is a candidate |
| Reporting.NoFundamentalsNoLeader | app/services/reporting.py:37-39 | despite the LEFT JOIN, a ticker without a stock_fundamentals row is never selected |
| Reporting.SelectLeaders | app/services/reporting.py:41 | selects exactly min(30, candidates) rows, all candidates, ordered by rating descending; no excluded candidate rates above a selected row |
| Reporting.GenerateAiReport | app/services/reporting.py:19-49 | no report without an API key; otherwise a report exactly when there are candidates, built on the selected leaders |
| Ordering.SortDesc | app/services/scanner.py:62 | ORDER BY DESC is a permutation of the result set, sorted by key with NULL lowest |
| Ordering.TopRows | app/services/reporting.py:41 | ORDER BY DESC LIMIT n returns min(n, size) distinct rows, sorted, none of them outranked by a left-out row |
| Ordering.TopRowsBy | app/services/reporting.py:41 | on an integer key, the selection holds min(n, size) rows, sorted descending, and no row left out outranks a selected one |
| Common.UpsertAll | app/services/financial_collector.py:50-58 | a batch upsert leaves exactly the old keys plus the batch's keys |
| Common.UpsertAllUntouched | app/services/financial_collector.py:50-58 | a key the batch does not mention keeps its old row |
| Common.UpsertAllLast | app/services/financial_collector.py:50-58 | each key ends up with the value of its last occurrence in the batch, so later rows of the same key win |
| Common.BatchKeysMembers | app/services/financial_collector.py:50-58 | the batch's keys are exactly the keys of its entries |
| Common.RoundTo | app/services/analyzer.py:37-40 | rounding to p decimals moves a value by at most half a unit of the p-th place |

## Left out

- Downloading, the web API and email are left out. The model receives the yfinance downloads and statements, the Gemini call and SMTP as their results. Those results are parameters: `Download`, `QuarterInput` and `FinPeriod` sequences, and the API key. The prompt text, the report, markdown rendering and email sending are not modelled.
- Transactions and the Prefect task and flow wrappers are not modelled. Each service method is an atomic update of the fields it names. Logging and printing are not modelled either.
- The orchestration is not modelled. This covers the `fetch_and_save_financials` ticker loop with its per-ticker exception handler, and the main pipeline that calls the services in order. The history loader, the gap filler and the one-off VTI importer are not part of this model.
- The `ALTER TABLE ... ADD COLUMN` statements in update_rs_indicators are schema migration: the model's tables always have the ranking columns.
- Floating point is modelled as real arithmetic.
- Common.RoundTo rounds half away from zero, as SQLite's ROUND does. Python's `round` rounds binary floats half to even. The contracts state only the half-unit bound, monotonicity and exactness on grid points, so they hold under either rule. The exact outcome of a tie is not captured.
- Analyzer.CalculateMetrics requires strictly positive closes for the target and the benchmark. With a zero price the source divides by zero, producing inf or NaN, or a ZeroDivisionError. Some of the columns it reads are also missing from the frame, which raises KeyError. Neither outcome is modelled.
- Analyzer.CalculateMetrics takes the dates of the frame as YYYYMMDD numbers. As written, the source calls `strftime` on the index of the frame that fetch_combined_data returns, and that index already holds strings. The source would therefore need a datetime index there.
- DbOps.SaveToSqlite models the intended upsert. As written, calculate_metrics produces upper-case keys (`TICKER`, ...) while the statement binds lower-case names. The statement also binds `is_vcp`, `is_vol_dry` and `atr_stop_loss`, which calculate_metrics never produces. The CREATE TABLE text declares no `atr_stop_loss` column. The model treats the three columns as values supplied by the caller.
- FinancialCollector.PctChange4 returns NULL where the base is 0; pandas gives ±inf or NaN there. FinancialCollector.Roe does the same for zero equity. An inf value would pass `pd.isna` and be stored.
- FinancialCollector.PctChange4 is positional: it compares each period with the one four rows earlier in the provider's order, as `pct_change` does. The model therefore takes the statement rows in the order the provider returns them and assumes no particular date order.
- The annual join matches income-statement and balance-sheet periods by date. Suffixed duplicate columns (`_fin` / `_bal`) are not modelled; a statement is modelled with one net income, one revenue and one equity line.
- FinancialCollector.EvaluateFundamentals returns NullRoe for a latest annual row whose roe is NULL. In that case the source raises a TypeError, and its caller's per-ticker handler swallows it. The model leaves the store unchanged, which is the effect on the store.
- Scanner.ScanBreakoutStocks and Reporting.SelectLeaders leave the order among rows with equal keys unspecified, as the queries do.
- Scanner.Qualifies follows SQLite for a zero box_low: the division yields NULL and the row fails. With a zero average volume the volume test holds trivially and `vol_spike_pct` is NULL; division by zero raising an error, as other SQL engines do, is not modelled.
- DataFetcher.Lower lower-cases ASCII letters only. Python's `str.lower` also folds other scripts.
- DataFetcher.CombinedFrame takes the download's dates already reduced to calendar days; time-zone removal and `to_datetime` parsing are not modelled. The frame's other column values are kept as optional numbers.
- DataFetcher.CheckMarketDataUpdate takes the stored benchmark date as a date that `str()` renders as `YYYY-MM-DD`, which is how the history loaders store it. Stores that mix in `YYYYMMDD` text are not modelled. `if result:` is modelled as "a date is present".
- The breakout screen's tabulated printout is not modelled; neither are the DataFrame-to-dict conversions or the email rendering in reporting.
