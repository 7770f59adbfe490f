/** app/services/reporting.py: the selection of market leaders that
    generate_ai_report hands to the language model. */
module Reporting {
  import opened Common
  import opened Schema
  import opened Ordering

  /** One row of the leader query. */
  datatype LeaderRow = LeaderRow(
    name: string,
    ticker: Ticker,
    rsRating: int,
    fundamentalGrade: Grade,
    epsRating: real,
    weeklyReturn: real,
    deviation200ma: real)

  /** The WHERE clause on one price_weekly key. The LEFT JOIN still needs a
      fundamentals row, because `FUNDAMENTAL_GRADE = 'A'` is not true of NULL;
      the inner JOIN needs a stock_master row; a NULL rating fails the
      `>= 90` test. */
  predicate IsLeader(weekly: WeeklyTable, master: map<Ticker, MasterRow>,
                     fundamentals: map<Ticker, FundamentalsRow>, latest: Date, k: DayKey)
  {
    && k in weekly && k.1 == latest
    && k.0 in master
    && k.0 in fundamentals && fundamentals[k.0].fundamentalGrade == A
    && weekly[k].rsRating.Some? && weekly[k].rsRating.value >= 90
    && weekly[k].weeklyReturn > 0.0
  }

  function LeaderRowOf(weekly: WeeklyTable, master: map<Ticker, MasterRow>,
                       fundamentals: map<Ticker, FundamentalsRow>, latest: Date, k: DayKey): LeaderRow
    requires IsLeader(weekly, master, fundamentals, latest, k)
  {
    var w := weekly[k];
    var f := fundamentals[k.0];
    LeaderRow(master[k.0].name, k.0, w.rsRating.value, f.fundamentalGrade, f.epsRating,
              w.weeklyReturn, w.deviation200ma)
  }

  /** The rows that pass the WHERE clause: each is built from a latest-week
      price_weekly row that passes it, with that row's rating, return and
      deviation. */
  function LeaderCandidates(weekly: WeeklyTable, master: map<Ticker, MasterRow>,
                            fundamentals: map<Ticker, FundamentalsRow>): (s: set<LeaderRow>)
    ensures forall r :: r in s ==>
      && r.rsRating >= 90 && r.fundamentalGrade == A && r.weeklyReturn > 0.0
      && r.ticker in master && r.name == master[r.ticker].name
      && r.ticker in fundamentals && r.epsRating == fundamentals[r.ticker].epsRating
      && LatestDate(weekly).Some? && (r.ticker, LatestDate(weekly).value) in weekly
    ensures forall r :: r in s ==>
      var d := LatestDate(weekly).value;
      var w := weekly[(r.ticker, d)];
      && IsLeader(weekly, master, fundamentals, d, (r.ticker, d))
      && r == LeaderRowOf(weekly, master, fundamentals, d, (r.ticker, d))
      && w.rsRating == Some(r.rsRating)
      && r.weeklyReturn == w.weeklyReturn
      && r.deviation200ma == w.deviation200ma
  {
    match LatestDate(weekly)
    case None => {}
    case Some(d) =>
      set k | k in weekly && IsLeader(weekly, master, fundamentals, d, k)
        :: LeaderRowOf(weekly, master, fundamentals, d, k)
  }

  /** Every leader of the latest week is a candidate; LeaderCandidates' own
      contract gives the converse. */
  lemma LeaderCandidatesComplete(weekly: WeeklyTable, master: map<Ticker, MasterRow>,
                                 fundamentals: map<Ticker, FundamentalsRow>, k: DayKey)
    requires weekly != map[]
    requires IsLeader(weekly, master, fundamentals, LatestDate(weekly).value, k)
    ensures LeaderRowOf(weekly, master, fundamentals, LatestDate(weekly).value, k)
            in LeaderCandidates(weekly, master, fundamentals)
  {
  }

  /** A ticker without a stock_fundamentals row never appears. */
  lemma NoFundamentalsNoLeader(weekly: WeeklyTable, master: map<Ticker, MasterRow>,
                               fundamentals: map<Ticker, FundamentalsRow>, ticker: Ticker)
    requires ticker !in fundamentals
    ensures forall r :: r in LeaderCandidates(weekly, master, fundamentals) ==> r.ticker != ticker
  {
  }

  /** `ORDER BY RS_RATING DESC LIMIT 30`: at most 30 candidates, best rating
      first, none left out that rates above one kept (ties in no particular
      order). */
  ghost function SelectLeaders(weekly: WeeklyTable, master: map<Ticker, MasterRow>,
                               fundamentals: map<Ticker, FundamentalsRow>): (r: seq<LeaderRow>)
    ensures |r| <= 30
    ensures |r| == if |LeaderCandidates(weekly, master, fundamentals)| < 30
                   then |LeaderCandidates(weekly, master, fundamentals)| else 30
    ensures forall x :: x in r ==> x in LeaderCandidates(weekly, master, fundamentals)
    ensures forall i, j :: 0 <= i < j < |r| ==> r[j].rsRating <= r[i].rsRating
    ensures forall x, i :: x in LeaderCandidates(weekly, master, fundamentals) && x !in r && 0 <= i < |r|
              ==> x.rsRating <= r[i].rsRating
  {
    var rank := (x: LeaderRow) => x.rsRating;
    var r := TopRowsBy(LeaderCandidates(weekly, master, fundamentals), rank, 30);
    assert forall x :: rank(x) == x.rsRating;
    r
  }

  /** generate_ai_report up to the model call: no report without an API key
      (missing or empty), none for an empty selection, otherwise the report
      is asked for on exactly the selected rows. */
  ghost function GenerateAiReport(apiKey: Option<string>, weekly: WeeklyTable, master: map<Ticker, MasterRow>,
                                  fundamentals: map<Ticker, FundamentalsRow>): (r: Option<seq<LeaderRow>>)
    ensures (apiKey.None? || apiKey == Some("")) ==> r.None?
    ensures apiKey.Some? && apiKey.value != "" ==>
      (r.None? <==> LeaderCandidates(weekly, master, fundamentals) == {})
    ensures r.Some? ==> r.value == SelectLeaders(weekly, master, fundamentals) && |r.value| > 0
  {
    if apiKey.None? || apiKey.value == "" then None
    else
      var leaders := SelectLeaders(weekly, master, fundamentals);
      if |leaders| == 0 then None else Some(leaders)
  }
}
