/** The tables of the relational store (the CREATE TABLE statements of
    app/services/db_ops.py), each held as a map from its primary key to the
    remaining columns. The pipeline's services read and rewrite these maps. */
module Schema {
  import opened Common

  type Ticker = string

  /** A calendar date written as the number YYYYMMDD, e.g. 20260202. Numeric
      order is chronological order. */
  type Date = int

  /** The year of a YYYYMMDD date (pandas' `Timestamp.year`). */
  function YearOf(d: Date): int
  {
    d / 10000
  }

  /** datetime.now(), supplied by the caller. */
  type Timestamp = int

  /** Primary key (ticker, date) of price_daily, price_weekly and financial_quarterly. */
  type DayKey = (Ticker, Date)

  /** Primary key (ticker, year) of financial_annual. */
  type YearKey = (Ticker, int)

  /** The second key component (date or year) of every row of one ticker in a
      table keyed by (ticker, date) or (ticker, year). */
  function KeysOf<V>(t: map<(Ticker, int), V>, ticker: Ticker): (ds: set<int>)
    ensures forall k :: k in t && k.0 == ticker ==> k.1 in ds
    ensures forall d :: d in ds ==> (ticker, d) in t
  {
    var ds := set k | k in t && k.0 == ticker :: k.1;
    forall d | d in ds ensures (ticker, d) in t {
      var k :| k in t && k.0 == ticker && k.1 == d;
      assert k == (ticker, d);
    }
    ds
  }

  /** The letter grades used both for relative strength and for fundamentals. */
  datatype Grade = A | B | C | D | E

  /** Grade order, A best: A = 4, ..., E = 0. */
  function GradeRank(g: Grade): nat
  {
    match g
    case A => 4
    case B => 3
    case C => 2
    case D => 1
    case E => 0
  }

  /** stock_master: name and market type (STOCK or SECTOR) of every ticker. */
  datatype MasterRow = MasterRow(name: string, marketType: string)

  /** price_daily. */
  datatype DailyRow = DailyRow(open: real, high: real, low: real, close: real, volume: int)

  /** price_weekly: the indicator columns and the three ranking columns that
      stay NULL until the ranking pass runs. */
  datatype WeeklyRow = WeeklyRow(
    weeklyReturn: real,
    rsValue: real,
    isAbove200ma: int,
    deviation200ma: real,
    isVcp: int,
    isVolDry: int,
    atrStopLoss: real,
    rsRating: Option<int>,
    rsMomentum: Option<real>,
    stockGrade: Option<Grade>)

  type DailyTable = map<DayKey, DailyRow>
  type WeeklyTable = map<DayKey, WeeklyRow>

  /** `SELECT MAX(date) FROM ...` over a table keyed by (ticker, date), every
      ticker together; NULL on an empty table. */
  function LatestDate<V>(t: map<DayKey, V>): (r: Option<Date>)
    ensures r.None? <==> t == map[]
    ensures r.Some? ==> (exists k :: k in t && k.1 == r.value) && forall k :: k in t ==> k.1 <= r.value
  {
    var ds := set k | k in t :: k.1;
    if ds == {} then
      assert forall k :: k in t ==> k.1 in ds;
      None
    else
      var m := MaxOf(ds);
      assert forall k :: k in t ==> k.1 in ds;
      var k :| k in t && k.1 == m;
      Some(m)
  }

  /** stock_fundamentals (column eps_rating holds the total score). */
  datatype FundamentalsRow = FundamentalsRow(
    latestQDate: Date,
    fundamentalGrade: Grade,
    epsRating: real,
    updatedAt: Timestamp)

  /** financial_quarterly. */
  datatype QuarterlyRow = QuarterlyRow(
    netIncome: int,
    revenue: int,
    revGrowthYoy: Option<real>,
    epsGrowthYoy: Option<real>)

  /** financial_annual. */
  datatype AnnualRow = AnnualRow(netIncome: Option<int>, revenue: Option<int>, roe: Option<real>)

  /** The whole store. `hasMarketType` records whether stock_master already
      has the market_type column (older databases lack it). */
  class Database {
    var stockMaster: map<Ticker, MasterRow>
    var hasMarketType: bool
    var priceDaily: map<DayKey, DailyRow>
    var priceWeekly: map<DayKey, WeeklyRow>
    var stockFundamentals: map<Ticker, FundamentalsRow>
    var financialQuarterly: map<DayKey, QuarterlyRow>
    var financialAnnual: map<YearKey, AnnualRow>

    /** A freshly initialised store: every table exists and is empty. */
    constructor ()
      ensures stockMaster == map[] && hasMarketType
      ensures priceDaily == map[] && priceWeekly == map[]
      ensures stockFundamentals == map[]
      ensures financialQuarterly == map[] && financialAnnual == map[]
    {
      stockMaster := map[];
      hasMarketType := true;
      priceDaily := map[];
      priceWeekly := map[];
      stockFundamentals := map[];
      financialQuarterly := map[];
      financialAnnual := map[];
    }
  }
}
