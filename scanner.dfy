/** app/services/scanner.py: the box-breakout screen, one window query over
    price_daily. */
module Scanner {
  import opened Common
  import opened Schema
  import opened Ordering

  /** One price_daily row of a ticker, with its date. */
  datatype Bar = Bar(date: Date, high: real, low: real, close: real, volume: int)

  /** The dates of a ticker's price_daily rows, ascending. */
  function TickerDates(daily: DailyTable, ticker: Ticker): (ds: seq<Date>)
    ensures forall i, j :: 0 <= i < j < |ds| ==> ds[i] < ds[j]
    ensures forall d :: d in ds <==> (ticker, d) in daily
  {
    SortedAsc(KeysOf(daily, ticker))
  }

  function BarOf(daily: DailyTable, ticker: Ticker, d: Date): Bar
    requires (ticker, d) in daily
  {
    var row := daily[(ticker, d)];
    Bar(d, row.high, row.low, row.close, row.volume)
  }

  /** A ticker's price_daily rows in ascending date order: the window
      partition `PARTITION BY ticker ORDER BY date`. */
  function TickerBars(daily: DailyTable, ticker: Ticker): (bars: seq<Bar>)
    ensures |bars| == |TickerDates(daily, ticker)|
    ensures forall i :: 0 <= i < |bars| ==>
      (ticker, TickerDates(daily, ticker)[i]) in daily
      && bars[i] == BarOf(daily, ticker, TickerDates(daily, ticker)[i])
  {
    var ds := TickerDates(daily, ticker);
    seq(|ds|, i requires 0 <= i < |ds| => BarOf(daily, ticker, ds[i]))
  }

  /** The bars are in strictly increasing date order, one per row of the
      ticker. */
  lemma TickerBarsOrdered(daily: DailyTable, ticker: Ticker)
    ensures var bars := TickerBars(daily, ticker);
      forall i, j :: 0 <= i < j < |bars| ==> bars[i].date < bars[j].date
    ensures var bars := TickerBars(daily, ticker);
      forall d :: (ticker, d) in daily <==> exists i :: 0 <= i < |bars| && bars[i].date == d
  {
    var ds := TickerDates(daily, ticker);
    var bars := TickerBars(daily, ticker);
    assert forall i :: 0 <= i < |bars| ==> bars[i].date == ds[i];
    forall d | (ticker, d) in daily
      ensures exists i :: 0 <= i < |bars| && bars[i].date == d
    {
      var i :| 0 <= i < |ds| && ds[i] == d;
      assert bars[i].date == d;
    }
  }

  /** `ROWS BETWEEN n PRECEDING AND 1 PRECEDING`: up to n rows just before
      row i, never row i itself. */
  function Preceding(bars: seq<Bar>, i: nat, n: nat): (w: seq<Bar>)
    requires i <= |bars|
    ensures |w| == if i < n then i else n
    ensures forall j :: 0 <= j < |w| ==> w[j] == bars[i - |w| + j]
  {
    bars[if i < n then 0 else i - n..i]
  }

  /** MAX(high) over a non-empty window. */
  function MaxHigh(w: seq<Bar>): (m: real)
    requires |w| > 0
    ensures forall j :: 0 <= j < |w| ==> w[j].high <= m
    ensures exists j :: 0 <= j < |w| && w[j].high == m
  {
    if |w| == 1 then w[0].high
    else
      var rest := MaxHigh(w[1..]);
      assert forall j :: 1 <= j < |w| ==> w[j] == w[1..][j - 1];
      if w[0].high >= rest then w[0].high else rest
  }

  /** MIN(low) over a non-empty window. */
  function MinLow(w: seq<Bar>): (m: real)
    requires |w| > 0
    ensures forall j :: 0 <= j < |w| ==> m <= w[j].low
    ensures exists j :: 0 <= j < |w| && w[j].low == m
  {
    if |w| == 1 then w[0].low
    else
      var rest := MinLow(w[1..]);
      assert forall j :: 1 <= j < |w| ==> w[j] == w[1..][j - 1];
      if w[0].low <= rest then w[0].low else rest
  }

  function Volumes(w: seq<Bar>): (v: seq<real>)
    ensures |v| == |w| && forall j :: 0 <= j < |w| ==> v[j] == w[j].volume as real
  {
    seq(|w|, j requires 0 <= j < |w| => w[j].volume as real)
  }

  /** The window aggregates of row i; none for the first row of a ticker,
      whose frames are empty: there MAX, MIN and AVG are NULL and COUNT is 0,
      and the row fails the WHERE clause either way. */
  datatype Aggregates = Aggregates(boxHigh: real, boxLow: real, avgVol20: real, dataCount: nat)

  function WindowAggregates(bars: seq<Bar>, i: nat): (r: Option<Aggregates>)
    requires i < |bars|
    ensures r.None? <==> i == 0
    ensures r.Some? ==> r.value.dataCount == (if i < 60 then i else 60)
  {
    if i == 0 then None
    else
      var w60 := Preceding(bars, i, 60);
      var w20 := Preceding(bars, i, 20);
      Some(Aggregates(MaxHigh(w60), MinLow(w60), Mean(Volumes(w20)), |w60|))
  }

  /** The WHERE clause on one row. A zero box_low makes the width test a
      division by zero, which SQLite evaluates to NULL, so the row fails. */
  predicate Qualifies(bars: seq<Bar>, i: nat)
    requires i < |bars|
  {
    match WindowAggregates(bars, i)
    case None => false
    case Some(g) =>
      var b := bars[i];
      && g.dataCount >= 60
      && g.boxLow != 0.0
      && (g.boxHigh - g.boxLow) / g.boxLow <= 0.20
      && b.close > g.boxHigh
      && b.volume as real >= g.avgVol20 * 3.0
      && b.close * b.volume as real > 1000000.0
  }

  /** One result row. vol_spike_pct is NULL when the average volume is 0. */
  datatype Breakout = Breakout(
    ticker: Ticker, date: Date, close: real, boxHigh: real,
    boxWidthPct: real, volSpikePct: Option<int>, dataCount: nat)

  function BreakoutAt(ticker: Ticker, bars: seq<Bar>, i: nat): (r: Breakout)
    requires i < |bars| && Qualifies(bars, i)
    ensures r.ticker == ticker && r.date == bars[i].date && r.close == bars[i].close
    ensures r.dataCount == 60
  {
    var g := WindowAggregates(bars, i).value;
    var spike := if g.avgVol20 == 0.0 then None
                 else Some(RoundInt(bars[i].volume as real / g.avgVol20 * 100.0));
    Breakout(ticker, bars[i].date, bars[i].close, g.boxHigh,
             RoundTo((g.boxHigh - g.boxLow) / g.boxLow * 100.0, 1), spike, g.dataCount)
  }

  predicate IsStock(master: map<Ticker, MasterRow>, ticker: Ticker)
  {
    ticker in master && master[ticker].marketType == "STOCK"
  }

  /** The rows of latest_data that pass the WHERE clause, as a set. A ticker's
      row at the latest date is its newest bar. */
  function ScanCandidates(daily: DailyTable, master: map<Ticker, MasterRow>): (s: set<Breakout>)
  {
    match LatestDate(daily)
    case None => {}
    case Some(d) =>
      set t, i | t in KeysTickers(daily) && IsStock(master, t)
                 && 0 <= i < |TickerBars(daily, t)| && TickerBars(daily, t)[i].date == d
                 && Qualifies(TickerBars(daily, t), i)
        :: BreakoutAt(t, TickerBars(daily, t), i)
  }

  function KeysTickers(daily: DailyTable): set<Ticker>
  {
    set k | k in daily :: k.0
  }

  /** scan_breakout_stocks: the candidates ordered by vol_spike_pct
      descending (NULL last; ties in no particular order); `[]` when none
      qualify. */
  ghost function ScanBreakoutStocks(daily: DailyTable, master: map<Ticker, MasterRow>): (r: seq<Breakout>)
    ensures forall x :: x in r <==> x in ScanCandidates(daily, master)
    ensures |r| == |ScanCandidates(daily, master)|
    ensures SortedDesc(r, (x: Breakout) => x.volSpikePct)
    ensures ScanCandidates(daily, master) == {} ==> r == []
  {
    SortDesc(ScanCandidates(daily, master), (x: Breakout) => x.volSpikePct)
  }

  // ---------------------------------------------------------------------------
  // Properties

  /** A qualifying row has exactly 60 earlier rows in its box window, lies at
      position 60 or later, and its close beats every high of those 60 rows. */
  lemma BreakoutBeatsBox(bars: seq<Bar>, i: nat)
    requires i < |bars| && Qualifies(bars, i)
    ensures i >= 60
    ensures forall j :: i - 60 <= j < i ==> bars[i].close > bars[j].high
  {
    var w := Preceding(bars, i, 60);
    forall j | i - 60 <= j < i ensures bars[i].close > bars[j].high {
      assert w[j - (i - 60)] == bars[j];
    }
  }

  /** The box of a qualifying row: every low of the 60 earlier rows is at
      least box_low, every high at most box_high, and box_high is within 20 %
      above box_low (box_low positive). */
  lemma QualifyingBox(bars: seq<Bar>, i: nat)
    requires i < |bars| && Qualifies(bars, i)
    ensures var g := WindowAggregates(bars, i).value;
      && g.boxLow != 0.0
      && (g.boxLow > 0.0 ==> g.boxHigh <= 1.2 * g.boxLow)
      && forall j :: i - 60 <= j < i ==> g.boxLow <= bars[j].low && bars[j].high <= g.boxHigh
  {
    var g := WindowAggregates(bars, i).value;
    var w := Preceding(bars, i, 60);
    forall j | i - 60 <= j < i ensures g.boxLow <= bars[j].low && bars[j].high <= g.boxHigh {
      assert w[j - (i - 60)] == bars[j];
    }
    if g.boxLow > 0.0 {
      WidthBound(g.boxHigh, g.boxLow);
    }
  }

  lemma WidthBound(h: real, l: real)
    requires l > 0.0 && (h - l) / l <= 0.20
    ensures h <= 1.2 * l
  {
    assert (h - l) / l * l == h - l;
  }

  /** The reported box width of a qualifying row with a positive box_low is at
      most 20.0 %, and its volume spike, when defined, at least 300 %. */
  lemma BreakoutReportedRatios(ticker: Ticker, bars: seq<Bar>, i: nat)
    requires i < |bars| && Qualifies(bars, i)
    requires WindowAggregates(bars, i).value.boxLow > 0.0
    ensures BreakoutAt(ticker, bars, i).boxWidthPct <= 20.0
    ensures WindowAggregates(bars, i).value.avgVol20 > 0.0 ==>
      BreakoutAt(ticker, bars, i).volSpikePct.Some? && BreakoutAt(ticker, bars, i).volSpikePct.value >= 300
  {
    var g := WindowAggregates(bars, i).value;
    var x := (g.boxHigh - g.boxLow) / g.boxLow;
    MultiplyMonotone(x, 0.20, 100.0);
    RoundToMonotone(x * 100.0, 20.0, 1);
    RoundToWhole(20, 1);
    if g.avgVol20 > 0.0 {
      SpikeBound(bars[i].volume as real, g.avgVol20);
      RoundIntMonotone(300.0, bars[i].volume as real / g.avgVol20 * 100.0);
      RoundIntExact(300);
    }
  }

  lemma SpikeBound(v: real, avg: real)
    requires avg > 0.0 && v >= avg * 3.0
    ensures v / avg * 100.0 >= 300.0
  {
    assert v / avg >= 3.0;
  }

  /** A ticker with a row at the table's latest date has that row as its
      newest bar. */
  lemma LatestRowIsLastBar(daily: DailyTable, ticker: Ticker, i: nat)
    requires daily != map[]
    requires i < |TickerBars(daily, ticker)|
    requires TickerBars(daily, ticker)[i].date == LatestDate(daily).value
    ensures i == |TickerBars(daily, ticker)| - 1
  {
    TickerBarsOrdered(daily, ticker);
    var bars := TickerBars(daily, ticker);
    var n := |bars|;
    assert (ticker, TickerDates(daily, ticker)[n - 1]) in daily;
    assert bars[n - 1].date <= bars[i].date;
  }

  /** Every candidate is a STOCK ticker's row at the latest date that passes
      all filters, and so beats its 60-row box. */
  lemma CandidatesAreBreakouts(daily: DailyTable, master: map<Ticker, MasterRow>, r: Breakout)
    requires r in ScanCandidates(daily, master)
    ensures IsStock(master, r.ticker)
    ensures r.date == LatestDate(daily).value && (r.ticker, r.date) in daily
    ensures exists i ::
      && 0 <= i < |TickerBars(daily, r.ticker)|
      && Qualifies(TickerBars(daily, r.ticker), i)
      && r == BreakoutAt(r.ticker, TickerBars(daily, r.ticker), i)
      && i == |TickerBars(daily, r.ticker)| - 1
      && forall j :: i - 60 <= j < i ==> r.close > TickerBars(daily, r.ticker)[j].high
  {
    var d := LatestDate(daily).value;
    var t, i :| t in KeysTickers(daily) && IsStock(master, t)
                && 0 <= i < |TickerBars(daily, t)| && TickerBars(daily, t)[i].date == d
                && Qualifies(TickerBars(daily, t), i)
                && r == BreakoutAt(t, TickerBars(daily, t), i);
    LatestRowIsLastBar(daily, t, i);
    BreakoutBeatsBox(TickerBars(daily, t), i);
  }
}
