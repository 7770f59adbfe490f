/** app/services/analyzer.py: the per-instrument metrics (`calculate_metrics`)
    and the cross-sectional ranking pass (`update_rs_indicators`). */
module Analyzer {
  import opened Common
  import opened Schema

  // ===========================================================================
  // Per-instrument metrics

  /** The columns calculate_metrics reads from the combined frame, oldest row
      first: Open_/High_/Low_/Close_/Volume_ of the ticker and Close_ of the
      benchmark. */
  datatype PriceFrame = PriceFrame(
    dates: seq<Date>,
    open: seq<real>,
    high: seq<real>,
    low: seq<real>,
    close: seq<real>,
    volume: seq<real>,
    benchClose: seq<real>)

  /** A frame is rectangular: every column has one value per date. */
  predicate Rectangular(f: PriceFrame)
  {
    && |f.open| == |f.dates| && |f.high| == |f.dates| && |f.low| == |f.dates|
    && |f.close| == |f.dates| && |f.volume| == |f.dates| && |f.benchClose| == |f.dates|
  }

  predicate AllPositive(s: seq<real>)
  {
    forall i :: 0 <= i < |s| ==> s[i] > 0.0
  }

  /** Minimum history, in trading days, that calculate_metrics accepts. */
  const MinHistory: nat := 252

  /** Python's `s.iloc[-k]`: the k-th value counted back from the newest. */
  function At(s: seq<real>, k: nat): real
    requires 1 <= k <= |s|
  {
    s[|s| - k]
  }

  /** Positions -1, -63, -126, -189, -252 that delimit the four quarters. */
  function Boundary(q: nat): nat
    requires q <= 4
  {
    if q == 0 then 1 else 63 * q
  }

  /** Return over quarter q (1 = most recent): close[-b(q-1)] / close[-b(q)] - 1. */
  function QuarterReturn(s: seq<real>, q: nat): real
    requires 1 <= q <= 4 && |s| >= MinHistory && AllPositive(s)
  {
    At(s, Boundary(q - 1)) / At(s, Boundary(q)) - 1.0
  }

  /** calc_weighted_return: 40% on the latest quarter, 20% on each of the
      three before it; 0 for a series shorter than 252. */
  function WeightedReturn(s: seq<real>): real
    requires AllPositive(s)
  {
    if |s| < MinHistory then 0.0
    else
      0.4 * QuarterReturn(s, 1)
      + 0.2 * (QuarterReturn(s, 2) + QuarterReturn(s, 3) + QuarterReturn(s, 4))
  }

  /** rs_score before rounding: the target's weighted return minus the
      benchmark's, in percent. */
  function RsScore(target: seq<real>, bench: seq<real>): real
    requires AllPositive(target) && AllPositive(bench)
  {
    (WeightedReturn(target) - WeightedReturn(bench)) * 100.0
  }

  /** The 200-day simple moving average at the newest row. */
  function Sma200(close: seq<real>): real
    requires |close| >= 200
  {
    Mean(close[|close| - 200..])
  }

  /** deviation_200ma before rounding. */
  function Deviation200(close: seq<real>): real
    requires |close| >= 200 && AllPositive(close)
  {
    SmaPositive(close);
    (At(close, 1) / Sma200(close) - 1.0) * 100.0
  }

  /** weekly_return before rounding: newest close against the close at -6. */
  function WeeklyReturnRaw(close: seq<real>): real
    requires |close| >= 6 && AllPositive(close)
  {
    (At(close, 1) / At(close, 6) - 1.0) * 100.0
  }

  lemma SmaPositive(close: seq<real>)
    requires |close| >= 200 && AllPositive(close)
    ensures Sma200(close) > 0.0
  {
    MeanPositive(close[|close| - 200..]);
  }

  /** daily_data. */
  datatype DailyRecord = DailyRecord(
    ticker: Ticker, date: Date, open: real, high: real, low: real, close: real, volume: int)

  /** weekly_data. */
  datatype WeeklyMetrics = WeeklyMetrics(
    ticker: Ticker,
    weeklyDate: Date,
    weeklyReturn: real,
    rsValue: real,
    isAbove200ma: int,
    deviation200ma: real)

  /** The ValueError raised for less than a year of rows. */
  datatype MetricsError = InsufficientHistory(ticker: Ticker)

  /** calculate_metrics. */
  function CalculateMetrics(f: PriceFrame, ticker: Ticker): (r: Result<(DailyRecord, WeeklyMetrics), MetricsError>)
    requires Rectangular(f) && AllPositive(f.close) && AllPositive(f.benchClose)
    ensures r.Err? <==> |f.dates| < MinHistory
    ensures r.Err? ==> r.error == InsufficientHistory(ticker)
    ensures r.Ok? ==>
      var (d, w) := r.value;
      var n := |f.dates|;
      && d.ticker == ticker && w.ticker == ticker
      && d.date == f.dates[n - 1] && w.weeklyDate == f.dates[n - 1]
      && d == DailyRecord(ticker, f.dates[n - 1], f.open[n - 1], f.high[n - 1], f.low[n - 1],
                          f.close[n - 1], TruncToInt(f.volume[n - 1]))
      && (w.isAbove200ma == 1 <==> f.close[n - 1] > Sma200(f.close))
      && (w.isAbove200ma == 0 <==> f.close[n - 1] <= Sma200(f.close))
      && RsScore(f.close, f.benchClose) - 0.005 <= w.rsValue <= RsScore(f.close, f.benchClose) + 0.005
      && WeeklyReturnRaw(f.close) - 0.005 <= w.weeklyReturn <= WeeklyReturnRaw(f.close) + 0.005
      && Deviation200(f.close) - 0.005 <= w.deviation200ma <= Deviation200(f.close) + 0.005
  {
    var n := |f.dates|;
    if n < MinHistory then Err(InsufficientHistory(ticker))
    else
      var current := f.close[n - 1];
      var sma := Sma200(f.close);
      var daily := DailyRecord(ticker, f.dates[n - 1], f.open[n - 1], f.high[n - 1], f.low[n - 1],
                               current, TruncToInt(f.volume[n - 1]));
      var weekly := WeeklyMetrics(
        ticker, f.dates[n - 1],
        RoundTo(WeeklyReturnRaw(f.close), 2),
        RoundTo(RsScore(f.close, f.benchClose), 2),
        if current > sma then 1 else 0,
        RoundTo(Deviation200(f.close), 2));
      Ok((daily, weekly))
  }

  // ---------------------------------------------------------------------------
  // Properties of the metrics

  /** Identical target and benchmark score 0; swapping them negates the score. */
  lemma RsScoreAntisymmetric(target: seq<real>, bench: seq<real>)
    requires AllPositive(target) && AllPositive(bench)
    ensures RsScore(target, bench) == -RsScore(bench, target)
    ensures RsScore(target, target) == 0.0
  {
  }

  /** The weighted return is a weighted average of the four quarter returns
      (the weights sum to 1), so it lies between the worst and best quarter. */
  lemma WeightedReturnBetweenQuarters(s: seq<real>, lo: real, hi: real)
    requires |s| >= MinHistory && AllPositive(s)
    requires forall q :: 1 <= q <= 4 ==> lo <= QuarterReturn(s, q) <= hi
    ensures lo <= WeightedReturn(s) <= hi
  {
    var r1, r2, r3, r4 := QuarterReturn(s, 1), QuarterReturn(s, 2), QuarterReturn(s, 3), QuarterReturn(s, 4);
    assert lo <= r1 <= hi && lo <= r2 <= hi && lo <= r3 <= hi && lo <= r4 <= hi;
  }

  /** A target that does at least as well as the benchmark in every quarter
      has a non-negative RS score; strictly better in every quarter gives a
      positive one. */
  lemma RsScoreOutperforming(target: seq<real>, bench: seq<real>)
    requires |target| >= MinHistory && |bench| >= MinHistory
    requires AllPositive(target) && AllPositive(bench)
    requires forall q :: 1 <= q <= 4 ==> QuarterReturn(target, q) >= QuarterReturn(bench, q)
    ensures RsScore(target, bench) >= 0.0
    ensures (forall q :: 1 <= q <= 4 ==> QuarterReturn(target, q) > QuarterReturn(bench, q))
            ==> RsScore(target, bench) > 0.0
  {
    assert QuarterReturn(target, 1) >= QuarterReturn(bench, 1);
    assert QuarterReturn(target, 2) >= QuarterReturn(bench, 2);
    assert QuarterReturn(target, 3) >= QuarterReturn(bench, 3);
    assert QuarterReturn(target, 4) >= QuarterReturn(bench, 4);
  }

  /** Elementwise multiplication by a positive factor (a price in another unit). */
  function Scale(s: seq<real>, c: real): (r: seq<real>)
    requires c > 0.0
    ensures |r| == |s|
    ensures forall i :: 0 <= i < |s| ==> r[i] == c * s[i]
  {
    seq(|s|, i requires 0 <= i < |s| => c * s[i])
  }

  lemma RatioScale(a: real, b: real, c: real)
    requires b > 0.0 && c > 0.0
    ensures (c * a) / (c * b) == a / b
  {
  }

  /** Returns are ratios of prices, so rescaling the prices changes nothing. */
  lemma WeightedReturnScaleInvariant(s: seq<real>, c: real)
    requires AllPositive(s) && c > 0.0
    ensures AllPositive(Scale(s, c))
    ensures WeightedReturn(Scale(s, c)) == WeightedReturn(s)
  {
    ScalePositive(s, c);
    if |s| >= MinHistory {
      QuarterReturnScale(s, c, 1);
      QuarterReturnScale(s, c, 2);
      QuarterReturnScale(s, c, 3);
      QuarterReturnScale(s, c, 4);
    }
  }

  lemma ScalePositive(s: seq<real>, c: real)
    requires AllPositive(s) && c > 0.0
    ensures AllPositive(Scale(s, c))
  {
    var t := Scale(s, c);
    forall i | 0 <= i < |t| ensures t[i] > 0.0 {
      MultiplyPositive(c, s[i]);
    }
  }

  lemma QuarterReturnScale(s: seq<real>, c: real, q: nat)
    requires AllPositive(s) && c > 0.0 && |s| >= MinHistory && 1 <= q <= 4
    requires AllPositive(Scale(s, c))
    ensures QuarterReturn(Scale(s, c), q) == QuarterReturn(s, q)
  {
    var t := Scale(s, c);
    assert At(t, Boundary(q - 1)) == c * At(s, Boundary(q - 1));
    assert At(t, Boundary(q)) == c * At(s, Boundary(q));
    RatioScale(At(s, Boundary(q - 1)), At(s, Boundary(q)), c);
  }

  lemma MultiplyPositive(a: real, b: real)
    requires a > 0.0 && b > 0.0
    ensures a * b > 0.0
  {
  }

  /** A target that is the benchmark at another price scale has RS score 0. */
  lemma RsScoreOfScaledBenchmark(bench: seq<real>, c: real)
    requires AllPositive(bench) && c > 0.0
    ensures AllPositive(Scale(bench, c))
    ensures RsScore(Scale(bench, c), bench) == 0.0
  {
    WeightedReturnScaleInvariant(bench, c);
  }

  /** Only the newest 252 closes matter: older history never changes the score. */
  lemma WeightedReturnIgnoresOlderHistory(older: seq<real>, s: seq<real>)
    requires AllPositive(older) && AllPositive(s) && |s| >= MinHistory
    ensures AllPositive(older + s)
    ensures WeightedReturn(older + s) == WeightedReturn(s)
  {
    var t := older + s;
    assert AllPositive(t) by {
      forall i | 0 <= i < |t| ensures t[i] > 0.0 {
        if i >= |older| { assert t[i] == s[i - |older|]; }
      }
    }
    forall k | 1 <= k <= MinHistory ensures At(t, k) == At(s, k) {
      assert t[|t| - k] == s[|s| - k];
    }
    assert QuarterReturn(t, 1) == QuarterReturn(s, 1);
    assert QuarterReturn(t, 2) == QuarterReturn(s, 2);
    assert QuarterReturn(t, 3) == QuarterReturn(s, 3);
    assert QuarterReturn(t, 4) == QuarterReturn(s, 4);
  }

  /** The moving average lies between the lowest and the highest of the last
      200 closes. */
  lemma Sma200Bounds(close: seq<real>, lo: real, hi: real)
    requires |close| >= 200
    requires forall i :: |close| - 200 <= i < |close| ==> lo <= close[i] <= hi
    ensures lo <= Sma200(close) <= hi
  {
    var w := close[|close| - 200..];
    assert forall i :: 0 <= i < |w| ==> w[i] == close[|close| - 200 + i];
    MeanBounds(w, lo, hi);
  }

  /** Before rounding, the deviation is positive exactly when the flag is set,
      zero exactly when the close equals the average, and negative otherwise. */
  lemma DeviationSign(close: seq<real>)
    requires |close| >= 200 && AllPositive(close)
    ensures Deviation200(close) > 0.0 <==> At(close, 1) > Sma200(close)
    ensures Deviation200(close) == 0.0 <==> At(close, 1) == Sma200(close)
  {
    SmaPositive(close);
    RatioSign(At(close, 1), Sma200(close));
  }

  lemma RatioSign(a: real, b: real)
    requires b > 0.0
    ensures a / b - 1.0 > 0.0 <==> a > b
    ensures a / b - 1.0 == 0.0 <==> a == b
  {
    assert a / b * b == a;
  }

  /** A flat price history: zero weighted return, zero weekly return, the
      average equal to the price, so the stored record reports 0 % weekly
      return, 0 % deviation and "not above" the average. */
  lemma FlatSeriesMetrics(f: PriceFrame, ticker: Ticker, c: real)
    requires Rectangular(f) && AllPositive(f.benchClose) && |f.dates| >= MinHistory
    requires c > 0.0 && forall i :: 0 <= i < |f.close| ==> f.close[i] == c
    ensures AllPositive(f.close)
    ensures WeightedReturn(f.close) == 0.0
    ensures Sma200(f.close) == c
    ensures CalculateMetrics(f, ticker).Ok?
    ensures CalculateMetrics(f, ticker).value.1.weeklyReturn == 0.0
    ensures CalculateMetrics(f, ticker).value.1.deviation200ma == 0.0
    ensures CalculateMetrics(f, ticker).value.1.isAbove200ma == 0
  {
    var s := f.close;
    assert AllPositive(s);
    assert QuarterReturn(s, 1) == 0.0 && QuarterReturn(s, 2) == 0.0;
    assert QuarterReturn(s, 3) == 0.0 && QuarterReturn(s, 4) == 0.0;
    var w := s[|s| - 200..];
    assert forall i :: 0 <= i < |w| ==> w[i] == c;
    MeanConstant(w, c);
    assert WeeklyReturnRaw(s) == 0.0;
    assert Deviation200(s) == 0.0;
    RoundToWhole(0, 2);
  }

  // ===========================================================================
  // Cross-sectional ranking (update_rs_indicators)

  /** All rows of one weekly_date: the PERCENT_RANK partition. */
  function DateRows(t: WeeklyTable, d: Date): set<DayKey>
  {
    set k | k in t && k.1 == d
  }

  /** Rows on the same date with a strictly smaller rs_value. */
  function LowerRows(t: WeeklyTable, k: DayKey): set<DayKey>
    requires k in t
  {
    set j | j in t && j.1 == k.1 && t[j].rsValue < t[k].rsValue
  }

  lemma LowerRowsBound(t: WeeklyTable, k: DayKey)
    requires k in t
    ensures k in DateRows(t, k.1)
    ensures |LowerRows(t, k)| <= |DateRows(t, k.1)| - 1
  {
    var part := DateRows(t, k.1);
    assert LowerRows(t, k) <= part - {k};
    SubsetCard(LowerRows(t, k), part - {k});
  }

  /** PERCENT_RANK() OVER (PARTITION BY WEEKLY_DATE ORDER BY RS_VALUE):
      (rank - 1) / (rows - 1), where rank - 1 counts the strictly smaller
      values, and 0 for a one-row partition. */
  function PercentRank(t: WeeklyTable, k: DayKey): (r: real)
    requires k in t
    ensures 0.0 <= r <= 1.0
  {
    var n := |DateRows(t, k.1)|;
    LowerRowsBound(t, k);
    if n <= 1 then 0.0 else |LowerRows(t, k)| as real / (n - 1) as real
  }

  /** new_rating: ROUND(PERCENT_RANK() * 100), a whole number from 0 to 100. */
  function RsRating(t: WeeklyTable, k: DayKey): (r: int)
    requires k in t
    ensures 0 <= r <= 100
  {
    var x := PercentRank(t, k) * 100.0;
    RoundIntMonotone(0.0, x);
    RoundIntMonotone(x, 100.0);
    RoundIntExact(0);
    RoundIntExact(100);
    RoundInt(x)
  }

  /** The dates of the same ticker's weekly rows before k's date. */
  function EarlierDates(t: WeeklyTable, k: DayKey): (e: set<Date>)
    ensures forall j :: j in t && j.0 == k.0 && j.1 < k.1 ==> j.1 in e
    ensures forall p :: p in e ==> (k.0, p) in t && p < k.1
  {
    var e := set j | j in t && j.0 == k.0 && j.1 < k.1 :: j.1;
    forall p | p in e ensures (k.0, p) in t && p < k.1 {
      var j :| j in t && j.0 == k.0 && j.1 < k.1 && j.1 == p;
      assert j == (k.0, p);
    }
    e
  }

  /** The date of the same ticker's previous weekly row (LAG's row), if any. */
  function PrevDate(t: WeeklyTable, k: DayKey): (r: Option<Date>)
    requires k in t
    ensures r.None? <==> forall j :: j in t && j.0 == k.0 ==> j.1 >= k.1
    ensures r.Some? ==>
      && (k.0, r.value) in t && r.value < k.1
      && forall j :: j in t && j.0 == k.0 && j.1 < k.1 ==> j.1 <= r.value
  {
    var earlier := EarlierDates(t, k);
    if earlier == {} then None
    else
      var p := MaxOf(earlier);
      assert (k.0, p) in t && (k.0, p).0 == k.0 && (k.0, p).1 < k.1;
      Some(p)
  }

  /** new_momentum: RS_VALUE - LAG(RS_VALUE) OVER (PARTITION BY TICKER ORDER
      BY WEEKLY_DATE), NULL on a ticker's earliest date. It is a difference of
      RS values, not of ratings. */
  function RsMomentum(t: WeeklyTable, k: DayKey): (r: Option<real>)
    requires k in t
    ensures r.None? <==> forall j :: j in t && j.0 == k.0 ==> j.1 >= k.1
    ensures r.Some? ==> exists p :: PrevDate(t, k) == Some(p) && r.value == t[k].rsValue - t[(k.0, p)].rsValue
  {
    match PrevDate(t, k)
    case None => None
    case Some(p) => Some(t[k].rsValue - t[(k.0, p)].rsValue)
  }

  /** The CASE expression for STOCK_GRADE. */
  function RsGrade(rating: int): (g: Grade)
    ensures g == A <==> rating >= 90
    ensures g == B <==> 70 <= rating < 90
    ensures g == C <==> 50 <= rating < 70
    ensures g == D <==> 30 <= rating < 50
    ensures g == E <==> rating < 30
  {
    if rating >= 90 then A
    else if rating >= 70 then B
    else if rating >= 50 then C
    else if rating >= 30 then D
    else E
  }

  /** A better rating never gets a worse grade. */
  lemma RsGradeMonotone(a: int, b: int)
    requires a <= b
    ensures GradeRank(RsGrade(a)) <= GradeRank(RsGrade(b))
  {
  }

  /** The three values the UPDATE writes into one row. */
  datatype RankColumns = RankColumns(rating: int, momentum: Option<real>, grade: Grade)

  /** One row of the derived table T, computed from the snapshot. */
  function NewRankColumns(t: WeeklyTable, k: DayKey): (c: RankColumns)
    requires k in t
    ensures 0 <= c.rating <= 100
    ensures c.grade == RsGrade(c.rating)
  {
    var rating := RsRating(t, k);
    RankColumns(rating, RsMomentum(t, k), RsGrade(rating))
  }

  /** The derived table T of the UPDATE: new column values for every row. */
  function RankingSnapshot(t: WeeklyTable): (m: map<DayKey, RankColumns>)
    ensures m.Keys == t.Keys
  {
    map k | k in t :: NewRankColumns(t, k)
  }

  /** SET RS_RATING, RS_MOMENTUM, STOCK_GRADE on one row. */
  function WithRankColumns(row: WeeklyRow, c: RankColumns): WeeklyRow
  {
    row.(rsRating := Some(c.rating), rsMomentum := c.momentum, stockGrade := Some(c.grade))
  }

  /** The table after the UPDATE: every row gets its T values. */
  function Ranked(t: WeeklyTable): (u: WeeklyTable)
    ensures u.Keys == t.Keys
  {
    var snap := RankingSnapshot(t);
    map k | k in t :: WithRankColumns(t[k], snap[k])
  }

  /** Each row after the UPDATE: the rating, momentum and grade computed from
      the table as it was, every other column as it was. */
  lemma RankedRow(t: WeeklyTable, k: DayKey)
    requires k in t
    ensures k in Ranked(t)
    ensures Ranked(t)[k].rsRating == Some(RsRating(t, k))
    ensures Ranked(t)[k].rsMomentum == RsMomentum(t, k)
    ensures Ranked(t)[k].stockGrade == Some(RsGrade(RsRating(t, k)))
    ensures Ranked(t)[k].(rsRating := t[k].rsRating, rsMomentum := t[k].rsMomentum,
                          stockGrade := t[k].stockGrade) == t[k]
  {
  }

  // ---------------------------------------------------------------------------
  // Properties of the ranking

  /** Within one date, a larger rs_value never gets a smaller rating. */
  lemma RsRatingMonotone(t: WeeklyTable, a: DayKey, b: DayKey)
    requires a in t && b in t && a.1 == b.1
    requires t[a].rsValue <= t[b].rsValue
    ensures RsRating(t, a) <= RsRating(t, b)
  {
    assert LowerRows(t, a) <= LowerRows(t, b);
    SubsetCard(LowerRows(t, a), LowerRows(t, b));
    var n := |DateRows(t, a.1)|;
    if n > 1 {
      DivideMonotone(|LowerRows(t, a)| as real, |LowerRows(t, b)| as real, (n - 1) as real);
    }
    MultiplyMonotone(PercentRank(t, a), PercentRank(t, b), 100.0);
    RoundIntMonotone(PercentRank(t, a) * 100.0, PercentRank(t, b) * 100.0);
  }

  /** Equal rs_values on the same date get equal ratings. */
  lemma RsRatingTies(t: WeeklyTable, a: DayKey, b: DayKey)
    requires a in t && b in t && a.1 == b.1
    requires t[a].rsValue == t[b].rsValue
    ensures RsRating(t, a) == RsRating(t, b)
  {
    RsRatingMonotone(t, a, b);
    RsRatingMonotone(t, b, a);
  }

  /** The lowest rs_value of a date (tied or not) is rated 0; so is the only
      row of a one-row date. */
  lemma RsRatingOfMinimum(t: WeeklyTable, k: DayKey)
    requires k in t
    requires forall j :: j in t && j.1 == k.1 ==> t[k].rsValue <= t[j].rsValue
    ensures RsRating(t, k) == 0
  {
    assert LowerRows(t, k) == {};
    RoundIntExact(0);
  }

  lemma RsRatingOfSingleRow(t: WeeklyTable, k: DayKey)
    requires k in t && |DateRows(t, k.1)| == 1
    ensures RsRating(t, k) == 0
  {
    RoundIntExact(0);
  }

  /** On a date with at least two rows, a strictly largest rs_value is rated
      100. (A largest value shared by several rows is rated below 100, since
      PERCENT_RANK only counts strictly smaller values.) */
  lemma RsRatingOfStrictMaximum(t: WeeklyTable, k: DayKey)
    requires k in t && |DateRows(t, k.1)| >= 2
    requires forall j :: j in t && j.1 == k.1 && j != k ==> t[j].rsValue < t[k].rsValue
    ensures RsRating(t, k) == 100
  {
    var part := DateRows(t, k.1);
    assert LowerRows(t, k) == part - {k};
    var n := |part|;
    assert |LowerRows(t, k)| == n - 1;
    assert PercentRank(t, k) == 1.0;
    RoundIntExact(100);
  }

  /** The ranking reads only TICKER, WEEKLY_DATE and RS_VALUE: two snapshots
      that agree on those give every row the same new column values. */
  lemma RankingReadsOnlyRsValue(t1: WeeklyTable, t2: WeeklyTable, k: DayKey)
    requires t1.Keys == t2.Keys && k in t1
    requires forall j :: j in t1 ==> t1[j].rsValue == t2[j].rsValue
    ensures NewRankColumns(t1, k) == NewRankColumns(t2, k)
  {
    assert DateRows(t1, k.1) == DateRows(t2, k.1);
    assert LowerRows(t1, k) == LowerRows(t2, k);
    assert EarlierDates(t1, k) == EarlierDates(t2, k);
    assert PrevDate(t1, k) == PrevDate(t2, k);
  }

  /** Running the UPDATE a second time changes nothing. */
  lemma RankedIdempotent(t: WeeklyTable)
    ensures Ranked(Ranked(t)) == Ranked(t)
  {
    var u := Ranked(t);
    var v := Ranked(u);
    assert v.Keys == u.Keys;
    forall k | k in u
      ensures v[k] == u[k]
    {
      RankedIdempotentAt(t, k);
    }
    MapExtensional(v, u);
  }

  lemma RankedIdempotentAt(t: WeeklyTable, k: DayKey)
    requires k in t
    ensures Ranked(Ranked(t))[k] == Ranked(t)[k]
  {
    var u := Ranked(t);
    forall j | j in t ensures t[j].rsValue == u[j].rsValue {
      RankedRow(t, j);
    }
    RankingReadsOnlyRsValue(t, u, k);
    RankedRow(t, k);
    RankedRow(u, k);
  }

  /** update_rs_indicators: one UPDATE statement that rewrites the three
      ranking columns of every price_weekly row from the table as it was
      before the statement. */
  method UpdateRsIndicators(db: Database)
    modifies db`priceWeekly
    ensures db.priceWeekly == Ranked(old(db.priceWeekly))
  {
    db.priceWeekly := Ranked(db.priceWeekly);
  }
}
