/** app/services/financial_collector.py: building the financial_quarterly and
    financial_annual rows from the provider's statements, and scoring and
    grading the fundamentals into stock_fundamentals. */
module FinancialCollector {
  import opened Common
  import opened Schema

  // ===========================================================================
  // Quarterly rows (process_quarterly_data)

  /** One period of the transposed quarterly statement, in the provider's row
      order. A value is None when the line item is missing for that period or
      the whole line is absent from the statement (pandas' NaN). */
  datatype QuarterInput = QuarterInput(date: Date, netIncome: Option<real>, revenue: Option<real>)

  /** One element of rows_to_insert. */
  datatype QuarterlyRecord = QuarterlyRecord(
    date: Date, netIncome: int, revenue: int, revGrowthYoy: Option<real>, epsGrowthYoy: Option<real>)

  /** `pct_change(periods=4, fill_method=None) * 100` at position i: the change
      against the value four positions earlier, undefined in the first four
      positions, where either value is missing, and where the base is 0. */
  function PctChange4(xs: seq<Option<real>>, i: nat): (r: Option<real>)
    requires i < |xs|
    ensures r.Some? <==> i >= 4 && xs[i].Some? && xs[i - 4].Some? && xs[i - 4].value != 0.0
    ensures r.Some? ==> r.value == (xs[i].value / xs[i - 4].value - 1.0) * 100.0
  {
    if i < 4 then None
    else match (xs[i], xs[i - 4])
      case (Some(x), Some(b)) => if b == 0.0 then None else Some((x / b - 1.0) * 100.0)
      case _ => None
  }

  /** With a positive base, the change is positive exactly when the value grew,
      and zero exactly when it stayed the same. */
  lemma PctChangeSign(xs: seq<Option<real>>, i: nat)
    requires 4 <= i < |xs| && xs[i].Some? && xs[i - 4].Some? && xs[i - 4].value > 0.0
    ensures PctChange4(xs, i).Some?
    ensures PctChange4(xs, i).value > 0.0 <==> xs[i].value > xs[i - 4].value
    ensures PctChange4(xs, i).value == 0.0 <==> xs[i].value == xs[i - 4].value
  {
    var x, b := xs[i].value, xs[i - 4].value;
    assert x / b * b == x;
  }

  /** `None if pd.isna(v) else round(float(v), p)`. */
  function RoundOpt(v: Option<real>, p: nat): (r: Option<real>)
    ensures r.Some? <==> v.Some?
    ensures r.Some? ==> v.value - 0.5 / Pow10(p) <= r.value <= v.value + 0.5 / Pow10(p)
  {
    match v
    case None => None
    case Some(x) => Some(RoundTo(x, p))
  }

  function Revenues(qs: seq<QuarterInput>): (r: seq<Option<real>>)
    ensures |r| == |qs| && forall i :: 0 <= i < |qs| ==> r[i] == qs[i].revenue
  {
    seq(|qs|, i requires 0 <= i < |qs| => qs[i].revenue)
  }

  function NetIncomes(qs: seq<QuarterInput>): (r: seq<Option<real>>)
    ensures |r| == |qs| && forall i :: 0 <= i < |qs| ==> r[i] == qs[i].netIncome
  {
    seq(|qs|, i requires 0 <= i < |qs| => qs[i].netIncome)
  }

  /** A period is emitted only with a present, non-zero revenue and a present
      net income. */
  predicate QuarterKept(q: QuarterInput)
  {
    q.revenue.Some? && q.revenue.value != 0.0 && q.netIncome.Some?
  }

  /** The record built for a kept period. The growth columns come from the
      whole columns, including periods that are themselves skipped; the EPS
      growth is the growth of net income. */
  function QuarterRecordAt(qs: seq<QuarterInput>, i: nat): QuarterlyRecord
    requires i < |qs| && QuarterKept(qs[i])
  {
    QuarterlyRecord(
      qs[i].date,
      TruncToInt(qs[i].netIncome.value),
      TruncToInt(qs[i].revenue.value),
      RoundOpt(PctChange4(Revenues(qs), i), 2),
      RoundOpt(PctChange4(NetIncomes(qs), i), 2))
  }

  /** The positions below n whose period passes the skip rules, in increasing
      order. */
  function QuarterKeptPositions(qs: seq<QuarterInput>, n: nat): (ps: seq<nat>)
    requires n <= |qs|
    ensures forall j :: 0 <= j < |ps| ==> ps[j] < n && QuarterKept(qs[ps[j]])
    ensures forall i :: 0 <= i < n && QuarterKept(qs[i]) ==> i in ps
    ensures forall j, k :: 0 <= j < k < |ps| ==> ps[j] < ps[k]
  {
    if n == 0 then []
    else
      var prev := QuarterKeptPositions(qs, n - 1);
      if QuarterKept(qs[n - 1]) then prev + [n - 1] else prev
  }

  /** The records of the kept periods among the first n, in input order. */
  function QuarterlyRecordsUpTo(qs: seq<QuarterInput>, n: nat): seq<QuarterlyRecord>
    requires n <= |qs|
  {
    if n == 0 then []
    else
      QuarterlyRecordsUpTo(qs, n - 1)
      + (if QuarterKept(qs[n - 1]) then [QuarterRecordAt(qs, n - 1)] else [])
  }

  function QuarterlyRecords(qs: seq<QuarterInput>): seq<QuarterlyRecord>
  {
    QuarterlyRecordsUpTo(qs, |qs|)
  }

  /** The j-th record is the one built for the j-th kept period. */
  lemma {:induction false} QuarterlyRecordsByPosition(qs: seq<QuarterInput>, n: nat)
    requires n <= |qs|
    ensures var ps := QuarterKeptPositions(qs, n);
      var rs := QuarterlyRecordsUpTo(qs, n);
      |rs| == |ps| && forall j :: 0 <= j < |rs| ==> rs[j] == QuarterRecordAt(qs, ps[j])
  {
    if n > 0 {
      QuarterlyRecordsByPosition(qs, n - 1);
    }
  }

  /** The loop over df.iterrows() that fills rows_to_insert. */
  method BuildQuarterlyRows(qs: seq<QuarterInput>) returns (rows: seq<QuarterlyRecord>)
    ensures rows == QuarterlyRecords(qs)
    ensures var ps := QuarterKeptPositions(qs, |qs|);
      |rows| == |ps| && forall j :: 0 <= j < |rows| ==> rows[j] == QuarterRecordAt(qs, ps[j])
  {
    rows := [];
    var i := 0;
    while i < |qs|
      invariant 0 <= i <= |qs|
      invariant rows == QuarterlyRecordsUpTo(qs, i)
    {
      var q := qs[i];
      if QuarterKept(q) {
        rows := rows + [QuarterRecordAt(qs, i)];
      }
      i := i + 1;
    }
    QuarterlyRecordsByPosition(qs, |qs|);
  }

  /** Growth is undefined in the first four positions: those records carry
      NULL growth. */
  lemma QuarterGrowthNullAtStart(qs: seq<QuarterInput>, i: nat)
    requires i < |qs| && i < 4 && QuarterKept(qs[i])
    ensures QuarterRecordAt(qs, i).revGrowthYoy.None?
    ensures QuarterRecordAt(qs, i).epsGrowthYoy.None?
  {
  }

  /** Otherwise the stored growth is the 4-period change rounded to 2 places,
      NULL exactly when the change is undefined. */
  lemma QuarterGrowthValue(qs: seq<QuarterInput>, i: nat)
    requires i < |qs| && QuarterKept(qs[i])
    ensures QuarterRecordAt(qs, i).revGrowthYoy.Some? <==>
      i >= 4 && qs[i - 4].revenue.Some? && qs[i - 4].revenue.value != 0.0
    ensures QuarterRecordAt(qs, i).revGrowthYoy.Some? ==>
      var g := (qs[i].revenue.value / qs[i - 4].revenue.value - 1.0) * 100.0;
      g - 0.005 <= QuarterRecordAt(qs, i).revGrowthYoy.value <= g + 0.005
    ensures QuarterRecordAt(qs, i).epsGrowthYoy.Some? <==>
      i >= 4 && qs[i - 4].netIncome.Some? && qs[i - 4].netIncome.value != 0.0
    ensures QuarterRecordAt(qs, i).epsGrowthYoy.Some? ==>
      var g := (qs[i].netIncome.value / qs[i - 4].netIncome.value - 1.0) * 100.0;
      g - 0.005 <= QuarterRecordAt(qs, i).epsGrowthYoy.value <= g + 0.005
  {
  }

  function QuarterlyKeyed(ticker: Ticker, rows: seq<QuarterlyRecord>): (kvs: seq<(DayKey, QuarterlyRow)>)
    ensures |kvs| == |rows|
    ensures forall j :: 0 <= j < |rows| ==>
      kvs[j] == ((ticker, rows[j].date),
                 QuarterlyRow(rows[j].netIncome, rows[j].revenue, rows[j].revGrowthYoy, rows[j].epsGrowthYoy))
  {
    seq(|rows|, j requires 0 <= j < |rows| =>
      ((ticker, rows[j].date),
       QuarterlyRow(rows[j].netIncome, rows[j].revenue, rows[j].revGrowthYoy, rows[j].epsGrowthYoy)))
  }

  /** process_quarterly_data: an empty statement changes nothing; otherwise
      every emitted record is upserted on (ticker, date), all four value
      columns replaced. */
  method ProcessQuarterlyData(db: Database, ticker: Ticker, qs: seq<QuarterInput>)
    modifies db`financialQuarterly
    ensures db.financialQuarterly ==
      UpsertAll(old(db.financialQuarterly), QuarterlyKeyed(ticker, QuarterlyRecords(qs)))
  {
    if |qs| == 0 {
      return;
    }
    var rows := BuildQuarterlyRows(qs);
    if |rows| > 0 {
      db.financialQuarterly := UpsertAll(db.financialQuarterly, QuarterlyKeyed(ticker, rows));
    }
  }

  /** What the upsert leaves in financial_quarterly for one kept period that
      no later period of the same date overrides. */
  lemma QuarterlyUpsertStoresRecord(t: map<DayKey, QuarterlyRow>, ticker: Ticker, qs: seq<QuarterInput>, j: nat)
    requires j < |QuarterlyRecords(qs)|
    requires var rs := QuarterlyRecords(qs);
      forall k :: j < k < |rs| ==> rs[k].date != rs[j].date
    ensures var rs := QuarterlyRecords(qs);
      var u := UpsertAll(t, QuarterlyKeyed(ticker, rs));
      (ticker, rs[j].date) in u
      && u[(ticker, rs[j].date)] == QuarterlyRow(rs[j].netIncome, rs[j].revenue, rs[j].revGrowthYoy, rs[j].epsGrowthYoy)
  {
    var rs := QuarterlyRecords(qs);
    var kvs := QuarterlyKeyed(ticker, rs);
    assert kvs[j].0 == (ticker, rs[j].date);
    forall k | j < k < |kvs| ensures kvs[k].0 != kvs[j].0 {
      assert kvs[k].0 == (ticker, rs[k].date);
    }
    UpsertAllLast(t, kvs, j);
  }

  // ===========================================================================
  // Annual rows (process_annual_data)

  /** One period of the transposed annual income statement. */
  datatype FinPeriod = FinPeriod(date: Date, netIncome: Option<real>, revenue: Option<real>)

  /** One element of rows_to_insert. */
  datatype AnnualRecord = AnnualRecord(year: int, netIncome: Option<int>, revenue: Option<int>, roe: Option<real>)

  /** `(net_income / equity) * 100`, undefined where either is missing or the
      equity is 0. */
  function Roe(netIncome: Option<real>, equity: Option<real>): (r: Option<real>)
    ensures r.Some? <==> netIncome.Some? && equity.Some? && equity.value != 0.0
    ensures r.Some? ==> r.value == netIncome.value / equity.value * 100.0
  {
    match (netIncome, equity)
    case (Some(n), Some(e)) => if e == 0.0 then None else Some(n / e * 100.0)
    case _ => None
  }

  /** Positive income on positive equity gives a positive ROE. */
  lemma RoePositive(n: real, e: real)
    requires n > 0.0 && e > 0.0
    ensures Roe(Some(n), Some(e)).Some? && Roe(Some(n), Some(e)).value > 0.0
  {
  }

  /** The equity the left join attaches to an income-statement period: that
      date's Stockholders Equity, or missing. */
  function JoinedEquity(bal: map<Date, Option<real>>, d: Date): Option<real>
  {
    if d in bal then bal[d] else None
  }

  predicate AnnualKept(p: FinPeriod)
  {
    p.revenue.Some? && p.revenue.value != 0.0
  }

  function TruncOpt(v: Option<real>): (r: Option<int>)
    ensures r.Some? <==> v.Some?
    ensures r.Some? ==> r.value == TruncToInt(v.value)
  {
    match v
    case None => None
    case Some(x) => Some(TruncToInt(x))
  }

  /** The record built for a kept period. */
  function AnnualRecordOf(p: FinPeriod, bal: map<Date, Option<real>>): AnnualRecord
    requires AnnualKept(p)
  {
    AnnualRecord(YearOf(p.date), TruncOpt(p.netIncome), TruncOpt(p.revenue),
                 RoundOpt(Roe(p.netIncome, JoinedEquity(bal, p.date)), 2))
  }

  /** A kept period's record: the year of its date, its revenue always
      present, net income NULL only when missing, and ROE within half a cent
      of net income over the same date's equity, NULL where that is
      undefined. */
  lemma AnnualRecordFields(p: FinPeriod, bal: map<Date, Option<real>>)
    requires AnnualKept(p)
    ensures AnnualRecordOf(p, bal).year == YearOf(p.date)
    ensures AnnualRecordOf(p, bal).revenue == Some(TruncToInt(p.revenue.value))
    ensures AnnualRecordOf(p, bal).netIncome.Some? <==> p.netIncome.Some?
    ensures AnnualRecordOf(p, bal).roe.Some? <==>
      p.netIncome.Some? && p.date in bal && bal[p.date].Some? && bal[p.date].value != 0.0
    ensures AnnualRecordOf(p, bal).roe.Some? ==>
      var x := p.netIncome.value / bal[p.date].value * 100.0;
      x - 0.005 <= AnnualRecordOf(p, bal).roe.value <= x + 0.005
  {
  }

  function AnnualKeptPositions(fin: seq<FinPeriod>, n: nat): (ps: seq<nat>)
    requires n <= |fin|
    ensures forall j :: 0 <= j < |ps| ==> ps[j] < n && AnnualKept(fin[ps[j]])
    ensures forall i :: 0 <= i < n && AnnualKept(fin[i]) ==> i in ps
    ensures forall j, k :: 0 <= j < k < |ps| ==> ps[j] < ps[k]
  {
    if n == 0 then []
    else
      var prev := AnnualKeptPositions(fin, n - 1);
      if AnnualKept(fin[n - 1]) then prev + [n - 1] else prev
  }

  /** The records of the kept periods among the first n, in input order. */
  function AnnualRecordsUpTo(fin: seq<FinPeriod>, bal: map<Date, Option<real>>, n: nat): seq<AnnualRecord>
    requires n <= |fin|
  {
    if n == 0 then []
    else
      AnnualRecordsUpTo(fin, bal, n - 1)
      + (if AnnualKept(fin[n - 1]) then [AnnualRecordOf(fin[n - 1], bal)] else [])
  }

  function AnnualRecords(fin: seq<FinPeriod>, bal: map<Date, Option<real>>): seq<AnnualRecord>
  {
    AnnualRecordsUpTo(fin, bal, |fin|)
  }

  /** The j-th record is the one built for the j-th kept period. */
  lemma {:induction false} AnnualRecordsByPosition(fin: seq<FinPeriod>, bal: map<Date, Option<real>>, n: nat)
    requires n <= |fin|
    ensures var ps := AnnualKeptPositions(fin, n);
      var rs := AnnualRecordsUpTo(fin, bal, n);
      |rs| == |ps| && forall j :: 0 <= j < |rs| ==> rs[j] == AnnualRecordOf(fin[ps[j]], bal)
  {
    if n > 0 {
      AnnualRecordsByPosition(fin, bal, n - 1);
    }
  }

  /** The loop over merged.iterrows(). */
  method BuildAnnualRows(fin: seq<FinPeriod>, bal: map<Date, Option<real>>) returns (rows: seq<AnnualRecord>)
    ensures rows == AnnualRecords(fin, bal)
    ensures var ps := AnnualKeptPositions(fin, |fin|);
      |rows| == |ps| && forall j :: 0 <= j < |rows| ==> rows[j] == AnnualRecordOf(fin[ps[j]], bal)
  {
    rows := [];
    var i := 0;
    while i < |fin|
      invariant 0 <= i <= |fin|
      invariant rows == AnnualRecordsUpTo(fin, bal, i)
    {
      var p := fin[i];
      if AnnualKept(p) {
        rows := rows + [AnnualRecordOf(p, bal)];
      }
      i := i + 1;
    }
    AnnualRecordsByPosition(fin, bal, |fin|);
  }

  function AnnualKeyed(ticker: Ticker, rows: seq<AnnualRecord>): (kvs: seq<(YearKey, AnnualRow)>)
    ensures |kvs| == |rows|
    ensures forall j :: 0 <= j < |rows| ==>
      kvs[j] == ((ticker, rows[j].year), AnnualRow(rows[j].netIncome, rows[j].revenue, rows[j].roe))
  {
    seq(|rows|, j requires 0 <= j < |rows| =>
      ((ticker, rows[j].year), AnnualRow(rows[j].netIncome, rows[j].revenue, rows[j].roe)))
  }

  /** process_annual_data: nothing happens when either statement is empty;
      otherwise every emitted record is upserted on (ticker, year), so of two
      periods in the same year the later one in the statement wins. */
  method ProcessAnnualData(db: Database, ticker: Ticker, fin: seq<FinPeriod>, bal: map<Date, Option<real>>)
    modifies db`financialAnnual
    ensures |fin| == 0 || |bal| == 0 ==> db.financialAnnual == old(db.financialAnnual)
    ensures |fin| > 0 && |bal| > 0 ==>
      db.financialAnnual == UpsertAll(old(db.financialAnnual), AnnualKeyed(ticker, AnnualRecords(fin, bal)))
  {
    if |fin| == 0 || |bal| == 0 {
      return;
    }
    var rows := BuildAnnualRows(fin, bal);
    if |rows| > 0 {
      db.financialAnnual := UpsertAll(db.financialAnnual, AnnualKeyed(ticker, rows));
    }
  }

  /** Every stored annual row has a revenue. */
  lemma AnnualRecordsHaveRevenue(fin: seq<FinPeriod>, bal: map<Date, Option<real>>)
    ensures forall r :: r in AnnualRecords(fin, bal) ==> r.revenue.Some?
  {
    var rs := AnnualRecords(fin, bal);
    AnnualRecordsByPosition(fin, bal, |fin|);
    forall r | r in rs ensures r.revenue.Some? {
      var j :| 0 <= j < |rs| && rs[j] == r;
    }
  }

  // ===========================================================================
  // Scoring (process_stock_fundamentals)

  /** growth_score: two points per percent of EPS growth, between 0 and 60. */
  function GrowthScore(epsGrowth: real): (r: real)
    ensures 0.0 <= r <= 60.0
    ensures epsGrowth >= 30.0 ==> r == 60.0
    ensures epsGrowth <= 0.0 ==> r == 0.0
    ensures 0.0 <= epsGrowth <= 30.0 ==> r == epsGrowth * 2.0
  {
    var x := epsGrowth * 2.0;
    var lo := if x > 0.0 then x else 0.0;
    if lo < 60.0 then lo else 60.0
  }

  /** roe_score: 2.35 points per percent of ROE, between 0 and 40. */
  function RoeScore(roe: real): (r: real)
    ensures 0.0 <= r <= 40.0
    ensures roe * 2.35 >= 40.0 ==> r == 40.0
    ensures roe <= 0.0 ==> r == 0.0
    ensures 0.0 <= roe * 2.35 <= 40.0 ==> r == roe * 2.35
  {
    var x := roe * 2.35;
    var lo := if x > 0.0 then x else 0.0;
    if lo < 40.0 then lo else 40.0
  }

  lemma GrowthScoreMonotone(a: real, b: real)
    requires a <= b
    ensures GrowthScore(a) <= GrowthScore(b)
  {
  }

  lemma RoeScoreMonotone(a: real, b: real)
    requires a <= b
    ensures RoeScore(a) <= RoeScore(b)
  {
  }

  /** total_score: the two sub-scores added and rounded to one decimal, so
      always between 0 and 100. */
  function TotalScore(epsGrowth: real, roe: real): (r: real)
    ensures 0.0 <= r <= 100.0
  {
    var raw := GrowthScore(epsGrowth) + RoeScore(roe);
    RoundToMonotone(0.0, raw, 1);
    RoundToMonotone(raw, 100.0, 1);
    RoundToWhole(0, 1);
    RoundToWhole(100, 1);
    RoundTo(raw, 1)
  }

  /** Higher growth or a higher ROE never lowers the total. */
  lemma TotalScoreMonotone(e1: real, r1: real, e2: real, r2: real)
    requires e1 <= e2 && r1 <= r2
    ensures TotalScore(e1, r1) <= TotalScore(e2, r2)
  {
    GrowthScoreMonotone(e1, e2);
    RoeScoreMonotone(r1, r2);
    RoundToMonotone(GrowthScore(e1) + RoeScore(r1), GrowthScore(e2) + RoeScore(r2), 1);
  }

  /** 30 % growth and an ROE of 40/2.35 % (about 17 %) earn the full 100. */
  lemma TotalScoreFull(epsGrowth: real, roe: real)
    requires epsGrowth >= 30.0 && roe * 2.35 >= 40.0
    ensures TotalScore(epsGrowth, roe) == 100.0
  {
    RoundToWhole(100, 1);
  }

  /** The fundamental grade: the first threshold of 80 / 60 / 40 / 20 met. */
  function FundamentalGrade(total: real): (g: Grade)
    ensures g == A <==> total >= 80.0
    ensures g == B <==> 60.0 <= total < 80.0
    ensures g == C <==> 40.0 <= total < 60.0
    ensures g == D <==> 20.0 <= total < 40.0
    ensures g == E <==> total < 20.0
  {
    if total >= 80.0 then A
    else if total >= 60.0 then B
    else if total >= 40.0 then C
    else if total >= 20.0 then D
    else E
  }

  lemma FundamentalGradeMonotone(a: real, b: real)
    requires a <= b
    ensures GradeRank(FundamentalGrade(a)) <= GradeRank(FundamentalGrade(b))
  {
  }

  /** `q_data.eps_growth_yoy or 0`: a NULL growth counts as 0. */
  function GrowthOrZero(v: Option<real>): (r: real)
    ensures v.None? ==> r == 0.0
    ensures v.Some? ==> r == v.value
  {
    match v
    case None => 0.0
    case Some(x) => x
  }

  /** The result of process_stock_fundamentals for one ticker. */
  datatype FundamentalsOutcome =
    | NoQuarterlyData
      /** An annual row exists but its roe is NULL: `None * 2.35` raises, and
          the caller's per-ticker handler swallows the error. */
    | NullRoe
    | Scored(latestQDate: Date, total: real, grade: Grade)

  /** The two `ORDER BY ... DESC LIMIT 1` lookups and the scoring. The ROE
      defaults to 0 only when the ticker has no annual row at all. */
  function EvaluateFundamentals(q: map<DayKey, QuarterlyRow>, a: map<YearKey, AnnualRow>, ticker: Ticker)
    : (r: FundamentalsOutcome)
    ensures r == NoQuarterlyData <==> forall k :: k in q ==> k.0 != ticker
    ensures r.Scored? ==>
      && (ticker, r.latestQDate) in q
      && (forall k :: k in q && k.0 == ticker ==> k.1 <= r.latestQDate)
      && r.grade == FundamentalGrade(r.total)
      && 0.0 <= r.total <= 100.0
    ensures r == NullRoe <==>
      (exists k :: k in q && k.0 == ticker)
      && exists y :: (ticker, y) in a && a[(ticker, y)].roe.None?
                     && forall k :: k in a && k.0 == ticker ==> k.1 <= y
  {
    var ds := KeysOf(q, ticker);
    if ds == {} then NoQuarterlyData
    else
      var d := MaxOf(ds);
      var eps := GrowthOrZero(q[(ticker, d)].epsGrowthYoy);
      var ys := KeysOf(a, ticker);
      if ys != {} && a[(ticker, MaxOf(ys))].roe.None? then NullRoe
      else
        var roe := if ys == {} then 0.0 else a[(ticker, MaxOf(ys))].roe.value;
        var total := TotalScore(eps, roe);
        Scored(d, total, FundamentalGrade(total))
  }

  /** The scored total in terms of the latest rows: growth from the latest
      quarter (NULL as 0), ROE from the latest year (0 without annual rows). */
  lemma EvaluateFundamentalsScore(q: map<DayKey, QuarterlyRow>, a: map<YearKey, AnnualRow>, ticker: Ticker)
    requires EvaluateFundamentals(q, a, ticker).Scored?
    ensures var r := EvaluateFundamentals(q, a, ticker);
      var eps := GrowthOrZero(q[(ticker, r.latestQDate)].epsGrowthYoy);
      (forall k :: k in a ==> k.0 != ticker) ==> r.total == TotalScore(eps, 0.0)
    ensures var r := EvaluateFundamentals(q, a, ticker);
      var eps := GrowthOrZero(q[(ticker, r.latestQDate)].epsGrowthYoy);
      forall y :: (ticker, y) in a && (forall k :: k in a && k.0 == ticker ==> k.1 <= y) ==>
        a[(ticker, y)].roe.Some? && r.total == TotalScore(eps, a[(ticker, y)].roe.value)
  {
    var ys := KeysOf(a, ticker);
    forall y | (ticker, y) in a && (forall k :: k in a && k.0 == ticker ==> k.1 <= y)
      ensures y == MaxOf(ys)
    {
      assert y in ys;
    }
  }

  /** process_stock_fundamentals against the store: a scored ticker gets its
      stock_fundamentals row inserted or replaced (date of the latest
      quarter, grade, total as eps_rating, the clock reading); no quarterly
      data or a NULL roe leaves the table as it was. */
  method ProcessStockFundamentals(db: Database, ticker: Ticker, now: Timestamp) returns (outcome: FundamentalsOutcome)
    modifies db`stockFundamentals
    ensures outcome == EvaluateFundamentals(db.financialQuarterly, db.financialAnnual, ticker)
    ensures outcome.Scored? ==>
      db.stockFundamentals ==
        old(db.stockFundamentals)[ticker := FundamentalsRow(outcome.latestQDate, outcome.grade, outcome.total, now)]
    ensures !outcome.Scored? ==> db.stockFundamentals == old(db.stockFundamentals)
  {
    outcome := EvaluateFundamentals(db.financialQuarterly, db.financialAnnual, ticker);
    if outcome.Scored? {
      db.stockFundamentals := db.stockFundamentals[ticker :=
        FundamentalsRow(outcome.latestQDate, outcome.grade, outcome.total, now)];
    }
  }
}
