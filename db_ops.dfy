/** app/services/db_ops.py: the insert-or-update rules of save_to_sqlite and
    the two ticker queries. */
module DbOps {
  import opened Common
  import opened Schema
  import Analyzer

  // ===========================================================================
  // price_daily

  /** `INSERT ... ON CONFLICT(ticker, date) DO UPDATE SET close, volume, high,
      low`: a new key gets the whole row; an existing key gets the four
      columns and keeps its stored open. */
  function UpsertDaily(t: DailyTable, rec: Analyzer.DailyRecord): (u: DailyTable)
    ensures u.Keys == t.Keys + {(rec.ticker, rec.date)}
    ensures (rec.ticker, rec.date) !in t ==>
      u[(rec.ticker, rec.date)] == DailyRow(rec.open, rec.high, rec.low, rec.close, rec.volume)
    ensures (rec.ticker, rec.date) in t ==>
      u[(rec.ticker, rec.date)] == DailyRow(t[(rec.ticker, rec.date)].open, rec.high, rec.low, rec.close, rec.volume)
    ensures forall k :: k in t && k != (rec.ticker, rec.date) ==> u[k] == t[k]
  {
    var key := (rec.ticker, rec.date);
    if key in t then
      t[key := t[key].(close := rec.close, volume := rec.volume, high := rec.high, low := rec.low)]
    else
      t[key := DailyRow(rec.open, rec.high, rec.low, rec.close, rec.volume)]
  }

  // ===========================================================================
  // price_weekly

  /** The nine values save_to_sqlite binds for price_weekly. */
  datatype WeeklyInput = WeeklyInput(
    ticker: Ticker,
    weeklyDate: Date,
    weeklyReturn: real,
    rsValue: real,
    isAbove200ma: int,
    deviation200ma: real,
    isVcp: int,
    isVolDry: int,
    atrStopLoss: real)

  /** `INSERT ... ON CONFLICT(ticker, weekly_date) DO UPDATE SET rs_value,
      is_above_200ma, deviation_200ma, is_vcp, is_vol_dry, atr_stop_loss`: a
      new key gets the nine values and NULL ranking columns; an existing key
      keeps its weekly_return and its three ranking columns. */
  function UpsertWeekly(t: WeeklyTable, rec: WeeklyInput): (u: WeeklyTable)
    ensures u.Keys == t.Keys + {(rec.ticker, rec.weeklyDate)}
    ensures (rec.ticker, rec.weeklyDate) !in t ==>
      u[(rec.ticker, rec.weeklyDate)] ==
        WeeklyRow(rec.weeklyReturn, rec.rsValue, rec.isAbove200ma, rec.deviation200ma,
                  rec.isVcp, rec.isVolDry, rec.atrStopLoss, None, None, None)
    ensures (rec.ticker, rec.weeklyDate) in t ==>
      var old_ := t[(rec.ticker, rec.weeklyDate)];
      u[(rec.ticker, rec.weeklyDate)] ==
        WeeklyRow(old_.weeklyReturn, rec.rsValue, rec.isAbove200ma, rec.deviation200ma,
                  rec.isVcp, rec.isVolDry, rec.atrStopLoss, old_.rsRating, old_.rsMomentum, old_.stockGrade)
    ensures forall k :: k in t && k != (rec.ticker, rec.weeklyDate) ==> u[k] == t[k]
  {
    var key := (rec.ticker, rec.weeklyDate);
    if key in t then
      t[key := t[key].(rsValue := rec.rsValue, isAbove200ma := rec.isAbove200ma,
                       deviation200ma := rec.deviation200ma, isVcp := rec.isVcp,
                       isVolDry := rec.isVolDry, atrStopLoss := rec.atrStopLoss)]
    else
      t[key := WeeklyRow(rec.weeklyReturn, rec.rsValue, rec.isAbove200ma, rec.deviation200ma,
                         rec.isVcp, rec.isVolDry, rec.atrStopLoss, None, None, None)]
  }

  // ---------------------------------------------------------------------------
  // Properties of the upserts

  /** Upserting the same record twice leaves the table as upserting it once. */
  lemma UpsertDailyIdempotent(t: DailyTable, rec: Analyzer.DailyRecord)
    ensures UpsertDaily(UpsertDaily(t, rec), rec) == UpsertDaily(t, rec)
  {
    var u := UpsertDaily(t, rec);
    MapExtensional(UpsertDaily(u, rec), u);
  }

  lemma UpsertWeeklyIdempotent(t: WeeklyTable, rec: WeeklyInput)
    ensures UpsertWeekly(UpsertWeekly(t, rec), rec) == UpsertWeekly(t, rec)
  {
    var u := UpsertWeekly(t, rec);
    MapExtensional(UpsertWeekly(u, rec), u);
  }

  /** An upsert adds at most one row and never removes one. */
  lemma UpsertDailySize(t: DailyTable, rec: Analyzer.DailyRecord)
    ensures |t| <= |UpsertDaily(t, rec)| <= |t| + 1
    ensures (rec.ticker, rec.date) in t <==> |UpsertDaily(t, rec)| == |t|
  {
    var u := UpsertDaily(t, rec);
    assert u.Keys == t.Keys + {(rec.ticker, rec.date)};
  }

  lemma UpsertWeeklySize(t: WeeklyTable, rec: WeeklyInput)
    ensures |t| <= |UpsertWeekly(t, rec)| <= |t| + 1
    ensures (rec.ticker, rec.weeklyDate) in t <==> |UpsertWeekly(t, rec)| == |t|
  {
    var u := UpsertWeekly(t, rec);
    assert u.Keys == t.Keys + {(rec.ticker, rec.weeklyDate)};
  }

  /** Re-saving a week keeps the ranking columns the last ranking pass wrote,
      even though rs_value changes underneath them; the ranking pass has to
      run again to bring them up to date. */
  lemma ResaveKeepsStaleRanking(t: WeeklyTable, rec: WeeklyInput)
    requires (rec.ticker, rec.weeklyDate) in t
    ensures var key := (rec.ticker, rec.weeklyDate);
      UpsertWeekly(t, rec)[key].rsRating == t[key].rsRating
      && UpsertWeekly(t, rec)[key].stockGrade == t[key].stockGrade
      && UpsertWeekly(t, rec)[key].rsValue == rec.rsValue
  {
  }

  /** save_to_sqlite: one daily and one weekly upsert, in that order. */
  method SaveToSqlite(db: Database, daily: Analyzer.DailyRecord, weekly: WeeklyInput)
    modifies db`priceDaily, db`priceWeekly
    ensures db.priceDaily == UpsertDaily(old(db.priceDaily), daily)
    ensures db.priceWeekly == UpsertWeekly(old(db.priceWeekly), weekly)
  {
    db.priceDaily := UpsertDaily(db.priceDaily, daily);
    db.priceWeekly := UpsertWeekly(db.priceWeekly, weekly);
  }

  // ===========================================================================
  // Ticker queries

  /** get_finished_tickers: the tickers with a price_daily row on the date. */
  function FinishedTickers(t: DailyTable, date: Date): (s: set<Ticker>)
    ensures forall x :: x in s <==> (x, date) in t
  {
    set k | k in t && k.1 == date :: k.0
  }

  /** get_tickers: every stock_master ticker with its market type, or with
      'STOCK' when the table has no market_type column. */
  function GetTickers(master: map<Ticker, MasterRow>, hasMarketType: bool): (r: set<(Ticker, string)>)
    ensures forall x :: x in master ==> exists m :: (x, m) in r
    ensures forall x, m :: (x, m) in r ==> x in master
    ensures hasMarketType ==> forall x, m :: (x, m) in r ==> m == master[x].marketType
    ensures !hasMarketType ==> forall x, m :: (x, m) in r ==> m == "STOCK"
  {
    if hasMarketType then
      var r := set x | x in master :: (x, master[x].marketType);
      assert forall x :: x in master ==> (x, master[x].marketType) in r;
      r
    else
      var r := set x | x in master :: (x, "STOCK");
      assert forall x :: x in master ==> (x, "STOCK") in r;
      r
  }

  /** Each ticker appears once, whichever path is taken. */
  lemma GetTickersOnePerTicker(master: map<Ticker, MasterRow>, hasMarketType: bool)
    ensures var r := GetTickers(master, hasMarketType);
      forall x, m1, m2 :: (x, m1) in r && (x, m2) in r ==> m1 == m2
  {
  }
}
