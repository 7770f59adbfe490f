/** app/services/data_fetcher.py: normalising the downloaded price frame
    (`fetch_combined_data`) and the freshness test against the store
    (`check_market_data_update`). */
module DataFetcher {
  import opened Common
  import opened Schema

  // ===========================================================================
  // Column names

  /** The column header of the downloaded frame: pairs of labels (a pandas
      MultiIndex) or plain labels. */
  datatype Header = Multi(pairs: seq<(string, string)>) | Single(labels: seq<string>)

  /** A pair of labels flattened into one name, written Price_Ticker whichever
      order the pair comes in: the ticker (or benchmark) goes last when it
      comes first. */
  function FlatName(c1: string, c2: string, ticker: Ticker, benchmark: Ticker): string
  {
    if c1 == ticker || c1 == benchmark then c2 + "_" + c1 else c1 + "_" + c2
  }

  /** (Ticker, Price) and (Price, Ticker) give the same name Price_Ticker, as
      long as the price label is not itself one of the two symbols. */
  lemma FlatNameEitherOrder(price: string, symbol: Ticker, ticker: Ticker, benchmark: Ticker)
    requires symbol == ticker || symbol == benchmark
    requires price != ticker && price != benchmark
    ensures FlatName(symbol, price, ticker, benchmark) == price + "_" + symbol
    ensures FlatName(price, symbol, ticker, benchmark) == price + "_" + symbol
  {
  }

  /** The loop that fills new_columns, one name per header pair, in order. */
  method FlattenColumns(pairs: seq<(string, string)>, ticker: Ticker, benchmark: Ticker)
    returns (names: seq<string>)
    ensures |names| == |pairs|
    ensures forall i :: 0 <= i < |pairs| ==> names[i] == FlatName(pairs[i].0, pairs[i].1, ticker, benchmark)
  {
    names := [];
    for i := 0 to |pairs|
      invariant |names| == i
      invariant forall k :: 0 <= k < i ==> names[k] == FlatName(pairs[k].0, pairs[k].1, ticker, benchmark)
    {
      var c1 := pairs[i].0;
      var c2 := pairs[i].1;
      if c1 == ticker || c1 == benchmark {
        names := names + [c2 + "_" + c1];
      } else {
        names := names + [c1 + "_" + c2];
      }
    }
  }

  /** Python's `needle in haystack` on strings. */
  predicate IsSubstring(needle: string, haystack: string)
    decreases |haystack|
  {
    |needle| <= |haystack|
    && (haystack[..|needle|] == needle || IsSubstring(needle, haystack[1..]))
  }

  /** A string occurs in anything that ends with it. */
  lemma {:induction false} SuffixIsSubstring(needle: string, prefix: string)
    ensures IsSubstring(needle, prefix + needle)
    decreases |prefix|
  {
    var h := prefix + needle;
    if prefix == [] {
      assert h[..|needle|] == needle;
    } else {
      assert h[1..] == prefix[1..] + needle;
      SuffixIsSubstring(needle, prefix[1..]);
    }
  }

  /** A plain label gets `_ticker` appended unless the ticker already occurs
      in it. */
  function SingleName(col: string, ticker: Ticker): (r: string)
    ensures IsSubstring(ticker, r)
    ensures IsSubstring(ticker, col) ==> r == col
    ensures !IsSubstring(ticker, col) ==> r == col + "_" + ticker
  {
    if IsSubstring(ticker, col) then col
    else
      SuffixIsSubstring(ticker, col + "_");
      col + "_" + ticker
  }

  /** Applying the single-label rule a second time changes nothing. */
  lemma SingleNameIdempotent(col: string, ticker: Ticker)
    ensures SingleName(SingleName(col, ticker), ticker) == SingleName(col, ticker)
  {
  }

  function SingleNames(labels: seq<string>, ticker: Ticker): (r: seq<string>)
    ensures |r| == |labels| && forall i :: 0 <= i < |labels| ==> r[i] == SingleName(labels[i], ticker)
  {
    seq(|labels|, i requires 0 <= i < |labels| => SingleName(labels[i], ticker))
  }

  function FlatNames(pairs: seq<(string, string)>, ticker: Ticker, benchmark: Ticker): (r: seq<string>)
    ensures |r| == |pairs|
    ensures forall i :: 0 <= i < |pairs| ==> r[i] == FlatName(pairs[i].0, pairs[i].1, ticker, benchmark)
  {
    seq(|pairs|, i requires 0 <= i < |pairs| => FlatName(pairs[i].0, pairs[i].1, ticker, benchmark))
  }

  function FlattenedHeader(h: Header, ticker: Ticker, benchmark: Ticker): seq<string>
  {
    match h
    case Multi(pairs) => FlatNames(pairs, ticker, benchmark)
    case Single(labels) => SingleNames(labels, ticker)
  }

  // ---------------------------------------------------------------------------
  // The target column

  /** Lower-casing, on ASCII letters. */
  function LowerChar(c: char): char
  {
    if 'A' <= c <= 'Z' then (c as int + 32) as char else c
  }

  function Lower(s: string): (r: string)
    ensures |r| == |s| && forall i :: 0 <= i < |s| ==> r[i] == LowerChar(s[i])
  {
    seq(|s|, i requires 0 <= i < |s| => LowerChar(s[i]))
  }

  function TargetColumn(ticker: Ticker): string
  {
    "Close_" + ticker
  }

  /** The key the search compares against, `f"close_{ticker}".lower()`, is
      the lower-cased target column. */
  lemma SearchKeyIsLoweredTarget(ticker: Ticker)
    ensures Lower("close_" + ticker) == Lower(TargetColumn(ticker))
  {
  }

  /** The first position whose lower-cased name equals `key`, if any. */
  function FirstMatch(names: seq<string>, key: string): (r: Option<nat>)
    ensures r.None? <==> forall i :: 0 <= i < |names| ==> Lower(names[i]) != key
    ensures r.Some? ==>
      && r.value < |names| && Lower(names[r.value]) == key
      && forall i :: 0 <= i < r.value ==> Lower(names[i]) != key
  {
    if names == [] then None
    else if Lower(names[0]) == key then Some(0)
    else
      match FirstMatch(names[1..], key)
      case None => None
      case Some(j) => Some(j + 1)
  }

  /** `df.rename(columns={from: to})`: every column called `from` is renamed. */
  function RenameAll(names: seq<string>, from: string, to: string): (r: seq<string>)
    ensures |r| == |names|
    ensures forall i :: 0 <= i < |names| ==> r[i] == if names[i] == from then to else names[i]
  {
    seq(|names|, i requires 0 <= i < |names| => if names[i] == from then to else names[i])
  }

  /** The column list after Step 3, or None when no column matches and the
      empty frame is returned. */
  function FixTargetColumn(names: seq<string>, ticker: Ticker): (r: Option<seq<string>>)
    ensures r.None? <==>
      TargetColumn(ticker) !in names && forall i :: 0 <= i < |names| ==> Lower(names[i]) != Lower("close_" + ticker)
    ensures r.Some? ==> TargetColumn(ticker) in r.value && |r.value| == |names|
    ensures TargetColumn(ticker) in names ==> r == Some(names)
  {
    var target := TargetColumn(ticker);
    if target in names then Some(names)
    else
      match FirstMatch(names, Lower("close_" + ticker))
      case None => None
      case Some(j) =>
        var r := RenameAll(names, names[j], target);
        assert r[j] == target;
        Some(r)
  }

  /** The fallback renames exactly the columns equal to the first
      case-insensitive match and leaves every other column as it was. */
  lemma FixTargetColumnRenamesFirstMatch(names: seq<string>, ticker: Ticker)
    requires TargetColumn(ticker) !in names
    requires FixTargetColumn(names, ticker).Some?
    ensures var j := FirstMatch(names, Lower("close_" + ticker)).value;
      var r := FixTargetColumn(names, ticker).value;
      forall i :: 0 <= i < |names| ==>
        && (r[i] == TargetColumn(ticker) <==> names[i] == names[j])
        && (names[i] != names[j] ==> r[i] == names[i])
  {
  }

  /** The verification and search loop of Step 3. */
  method FindTargetColumn(names: seq<string>, ticker: Ticker) returns (r: Option<seq<string>>)
    ensures r == FixTargetColumn(names, ticker)
  {
    var target := "Close_" + ticker;
    if target in names {
      return Some(names);
    }
    var found := false;
    var cols := names;
    var i := 0;
    while i < |names|
      invariant 0 <= i <= |names|
      invariant forall k :: 0 <= k < i ==> Lower(names[k]) != Lower("close_" + ticker)
    {
      if Lower("close_" + ticker) == Lower(names[i]) {
        cols := RenameAll(cols, names[i], target);
        found := true;
        break;
      }
      i := i + 1;
    }
    if !found {
      return None;
    }
    return Some(cols);
  }

  // ===========================================================================
  // Rows

  /** One row of the frame: its date and one value per column, None for NaN. */
  datatype Row = Row(date: Date, values: seq<Option<real>>)

  datatype Frame = Frame(columns: seq<string>, rows: seq<Row>)

  const EmptyFrame := Frame([], [])

  predicate UniqueDates(rows: seq<Row>)
  {
    forall i, j :: 0 <= i < j < |rows| ==> rows[i].date != rows[j].date
  }

  predicate Complete(r: Row)
  {
    forall k :: 0 <= k < |r.values| ==> r.values[k].Some?
  }

  /** Row i is the last row of its date. */
  predicate LastOfDate(rows: seq<Row>, i: nat)
    requires i < |rows|
  {
    forall j :: i < j < |rows| ==> rows[j].date != rows[i].date
  }

  /** `drop_duplicates(subset=['Date'], keep='last')`: a row stays exactly
      when no later row has its date; survivors keep their order. */
  function DedupKeepLast(rows: seq<Row>): (r: seq<Row>)
    ensures |r| <= |rows|
    ensures forall x :: x in r ==> x in rows
  {
    if rows == [] then []
    else
      var rest := DedupKeepLast(rows[1..]);
      if LastOfDate(rows, 0) then [rows[0]] + rest else rest
  }

  lemma LastOfDateTail(rows: seq<Row>, i: nat)
    requires 1 <= i < |rows|
    ensures rows[1..][i - 1] == rows[i]
    ensures LastOfDate(rows, i) <==> LastOfDate(rows[1..], i - 1)
  {
    var tail := rows[1..];
    assert forall j :: i < j < |rows| ==> rows[j] == tail[j - 1];
  }

  /** The kept rows are exactly the last row of each date. */
  lemma {:induction false} DedupKeepsLastOfEachDate(rows: seq<Row>)
    ensures forall x :: x in DedupKeepLast(rows) ==>
      exists i :: 0 <= i < |rows| && rows[i] == x && LastOfDate(rows, i)
    ensures forall i :: 0 <= i < |rows| && LastOfDate(rows, i) ==> rows[i] in DedupKeepLast(rows)
  {
    if rows != [] {
      var tail := rows[1..];
      DedupKeepsLastOfEachDate(tail);
      var rest := DedupKeepLast(tail);
      forall x | x in rest
        ensures exists i :: 0 <= i < |rows| && rows[i] == x && LastOfDate(rows, i)
      {
        var k :| 0 <= k < |tail| && tail[k] == x && LastOfDate(tail, k);
        LastOfDateTail(rows, k + 1);
      }
      forall i | 1 <= i < |rows| && LastOfDate(rows, i)
        ensures rows[i] in rest
      {
        LastOfDateTail(rows, i);
      }
    }
  }

  /** After de-duplication every date occurs once. */
  lemma {:induction false} DedupUniqueDates(rows: seq<Row>)
    ensures UniqueDates(DedupKeepLast(rows))
  {
    if rows != [] {
      var tail := rows[1..];
      DedupUniqueDates(tail);
      var rest := DedupKeepLast(tail);
      if LastOfDate(rows, 0) {
        DedupKeepsLastOfEachDate(tail);
        forall x | x in rest ensures x.date != rows[0].date {
          var k :| 0 <= k < |tail| && tail[k] == x && LastOfDate(tail, k);
          assert rows[k + 1] == x;
        }
        var r := [rows[0]] + rest;
        forall i, j | 0 <= i < j < |r| ensures r[i].date != r[j].date {
          if i == 0 {
            assert r[j] in rest;
          } else {
            assert r[i] == rest[i - 1] && r[j] == rest[j - 1];
          }
        }
      }
    }
  }

  /** No date is lost: each input date still has a row. */
  lemma DedupKeepsEveryDate(rows: seq<Row>, i: nat)
    requires i < |rows|
    ensures exists x :: x in DedupKeepLast(rows) && x.date == rows[i].date
  {
    var j := LastIndexOfDate(rows, i);
    DedupKeepsLastOfEachDate(rows);
    assert rows[j] in DedupKeepLast(rows);
  }

  /** The last position at or after i with the date of row i. */
  function LastIndexOfDate(rows: seq<Row>, i: nat): (j: nat)
    requires i < |rows|
    ensures i <= j < |rows| && rows[j].date == rows[i].date && LastOfDate(rows, j)
    decreases |rows| - i
  {
    if exists k :: i < k < |rows| && rows[k].date == rows[i].date then
      var k :| i < k < |rows| && rows[k].date == rows[i].date;
      LastIndexOfDate(rows, k)
    else i
  }

  /** Without repeated dates there is nothing to drop. */
  lemma {:induction false} DedupUnique(rows: seq<Row>)
    requires UniqueDates(rows)
    ensures DedupKeepLast(rows) == rows
  {
    if rows != [] {
      var tail := rows[1..];
      assert UniqueDates(tail) by {
        forall i, j | 0 <= i < j < |tail| ensures tail[i].date != tail[j].date {
          assert tail[i] == rows[i + 1] && tail[j] == rows[j + 1];
        }
      }
      DedupUnique(tail);
      assert LastOfDate(rows, 0);
      assert rows == [rows[0]] + tail;
    }
  }

  /** `dropna()`: only rows with no missing value remain, in order. */
  function DropNa(rows: seq<Row>): (r: seq<Row>)
    ensures |r| <= |rows|
    ensures forall x :: x in r ==> x in rows && Complete(x)
    ensures forall x :: x in rows && Complete(x) ==> x in r
  {
    if rows == [] then []
    else
      var rest := DropNa(rows[1..]);
      assert forall x :: x in rows ==> x == rows[0] || x in rows[1..];
      if Complete(rows[0]) then [rows[0]] + rest else rest
  }

  /** Dropping rows keeps the dates unique. */
  lemma {:induction false} DropNaKeepsUniqueDates(rows: seq<Row>)
    requires UniqueDates(rows)
    ensures UniqueDates(DropNa(rows))
  {
    if rows != [] {
      var tail := rows[1..];
      assert UniqueDates(tail) by {
        forall i, j | 0 <= i < j < |tail| ensures tail[i].date != tail[j].date {
          assert tail[i] == rows[i + 1] && tail[j] == rows[j + 1];
        }
      }
      DropNaKeepsUniqueDates(tail);
      var rest := DropNa(tail);
      forall x | x in rest ensures x.date != rows[0].date {
        var i :| 0 <= i < |tail| && tail[i] == x;
        assert rows[i + 1] == x;
      }
    }
  }

  // ===========================================================================
  // fetch_combined_data

  /** What the download returned: a header and the rows, the dates already
      reduced to calendar days. */
  datatype Download = Download(header: Header, rows: seq<Row>)

  function HeaderWidth(h: Header): nat
  {
    match h
    case Multi(pairs) => |pairs|
    case Single(labels) => |labels|
  }

  /** fetch_combined_data on a download result (None when the download raised).
      An empty download, a missing target column, or an existing `Date`
      column (which makes reset_index raise) all give the empty frame. */
  function CombinedFrame(download: Option<Download>, ticker: Ticker, benchmark: Ticker): Frame
  {
    match download
    case None => EmptyFrame
    case Some(d) =>
      if |d.rows| == 0 || HeaderWidth(d.header) == 0 then EmptyFrame
      else
        match FixTargetColumn(FlattenedHeader(d.header, ticker, benchmark), ticker)
        case None => EmptyFrame
        case Some(cols) =>
          if "Date" in cols then EmptyFrame
          else Frame(cols, DropNa(DedupKeepLast(d.rows)))
  }

  /** The whole of fetch_combined_data: the result is empty, or it has the
      target column, one row per date and no missing value. */
  method FetchCombinedData(download: Option<Download>, ticker: Ticker, benchmark: Ticker) returns (f: Frame)
    ensures f == CombinedFrame(download, ticker, benchmark)
    ensures f == EmptyFrame || (TargetColumn(ticker) in f.columns && UniqueDates(f.rows)
                                && forall x :: x in f.rows ==> Complete(x))
  {
    if download.None? {
      return EmptyFrame;
    }
    var d := download.value;
    if |d.rows| == 0 || HeaderWidth(d.header) == 0 {
      return EmptyFrame;
    }
    var names: seq<string>;
    match d.header {
      case Multi(pairs) =>
        names := FlattenColumns(pairs, ticker, benchmark);
      case Single(labels) =>
        names := SingleNames(labels, ticker);
    }
    assert names == FlattenedHeader(d.header, ticker, benchmark);
    var fixed := FindTargetColumn(names, ticker);
    if fixed.None? {
      return EmptyFrame;
    }
    if "Date" in fixed.value {
      return EmptyFrame;
    }
    var deduped := DedupKeepLast(d.rows);
    DedupUniqueDates(d.rows);
    DropNaKeepsUniqueDates(deduped);
    f := Frame(fixed.value, DropNa(deduped));
  }

  // ===========================================================================
  // check_market_data_update

  function IntPow10(w: nat): (r: nat)
    ensures r >= 1
  {
    if w == 0 then 1 else 10 * IntPow10(w - 1)
  }

  function DigitChar(k: nat): char
    requires k < 10
  {
    ('0' as int + k) as char
  }

  /** n written in exactly w decimal digits, zero-padded. */
  function Digits(n: nat, w: nat): (s: string)
    ensures |s| == w
  {
    if w == 0 then [] else Digits(n / 10, w - 1) + [DigitChar(n % 10)]
  }

  /** 'YYYY-MM-DD' for a YYYYMMDD date: `str(date)` and `strftime('%Y-%m-%d')`. */
  function FormatIso(d: Date): (s: string)
    requires 0 <= d < 100000000
    ensures |s| == 10
  {
    Digits(d / 10000, 4) + "-" + Digits(d / 100 % 100, 2) + "-" + Digits(d % 100, 2)
  }

  /** Python's `<` on strings: lexicographic by character code. */
  predicate LexLess(a: string, b: string)
  {
    if |a| == 0 then |b| > 0
    else if |b| == 0 then false
    else if a[0] < b[0] then true
    else if a[0] == b[0] then LexLess(a[1..], b[1..])
    else false
  }

  /** Comparing two concatenations whose first parts have equal length
      compares the first parts, then the second. */
  lemma {:induction false} LexConcat(a: string, b: string, x: string, y: string)
    requires |a| == |b|
    ensures LexLess(a + x, b + y) <==> LexLess(a, b) || (a == b && LexLess(x, y))
  {
    if |a| > 0 {
      assert (a + x)[1..] == a[1..] + x;
      assert (b + y)[1..] == b[1..] + y;
      LexConcat(a[1..], b[1..], x, y);
      if a[0] == b[0] {
        assert a == b <==> a[1..] == b[1..];
      }
    } else {
      assert a + x == x && b + y == y;
    }
  }

  lemma DivModOrder(x: nat, y: nat, b: nat)
    requires b > 0
    ensures x < y <==> x / b < y / b || (x / b == y / b && x % b < y % b)
    ensures x == y <==> x / b == y / b && x % b == y % b
  {
    var qx, rx, qy, ry := x / b, x % b, y / b, y % b;
    assert x == b * qx + rx && 0 <= rx < b;
    assert y == b * qy + ry && 0 <= ry < b;
    if qx < qy {
      MulStep(b, qx, qy);
    } else if qy < qx {
      MulStep(b, qy, qx);
    }
  }

  lemma {:induction false} MulStep(b: nat, p: nat, q: nat)
    requires p < q
    ensures b * p + b <= b * q
    decreases q - p
  {
    assert b * (q - 1) + b == b * q;
    if q - 1 > p {
      MulStep(b, p, q - 1);
    }
  }

  /** For numbers of at most w digits, the padded strings compare as the
      numbers do and are equal exactly when the numbers are. */
  lemma {:induction false} DigitsOrder(a: nat, b: nat, w: nat)
    requires a < IntPow10(w) && b < IntPow10(w)
    ensures LexLess(Digits(a, w), Digits(b, w)) <==> a < b
    ensures Digits(a, w) == Digits(b, w) <==> a == b
  {
    if w == 0 {
      assert a == 0 && b == 0;
    } else {
      DivBound(a, w);
      DivBound(b, w);
      DigitsOrder(a / 10, b / 10, w - 1);
      var ca, cb := [DigitChar(a % 10)], [DigitChar(b % 10)];
      LexConcat(Digits(a / 10, w - 1), Digits(b / 10, w - 1), ca, cb);
      assert LexLess(ca, cb) <==> a % 10 < b % 10;
      DivModOrder(a, b, 10);
      var da, db := Digits(a, w), Digits(b, w);
      assert da == Digits(a / 10, w - 1) + ca && db == Digits(b / 10, w - 1) + cb;
      assert da == db ==> da[..w - 1] == db[..w - 1] && da[w - 1] == db[w - 1];
      assert da[..w - 1] == Digits(a / 10, w - 1) && db[..w - 1] == Digits(b / 10, w - 1);
    }
  }

  lemma DivBound(a: nat, w: nat)
    requires w > 0 && a < IntPow10(w)
    ensures a / 10 < IntPow10(w - 1)
  {
  }

  /** Within 0..99999999, the 'YYYY-MM-DD' strings compare exactly as the
      dates do: the string comparison of the source is the date order. */
  lemma FormatIsoOrder(a: Date, b: Date)
    requires 0 <= a < 100000000 && 0 <= b < 100000000
    ensures LexLess(FormatIso(a), FormatIso(b)) <==> a < b
  {
    var ya, ma, da := a / 10000, a / 100 % 100, a % 100;
    var yb, mb, db := b / 10000, b / 100 % 100, b % 100;
    assert IntPow10(2) == 100 && IntPow10(4) == 10000;
    DigitsOrder(ya, yb, 4);
    DigitsOrder(ma, mb, 2);
    DigitsOrder(da, db, 2);
    IsoFieldsOrder(Digits(ya, 4), Digits(ma, 2), Digits(da, 2), Digits(yb, 4), Digits(mb, 2), Digits(db, 2));
    DateFieldsOrder(a, b);
  }

  /** Two 'Y-M-D' strings with fields of equal widths compare field by field. */
  lemma IsoFieldsOrder(Ya: string, Ma: string, Da: string, Yb: string, Mb: string, Db: string)
    requires |Ya| == |Yb| && |Ma| == |Mb|
    ensures LexLess(Ya + "-" + Ma + "-" + Da, Yb + "-" + Mb + "-" + Db) <==>
      LexLess(Ya, Yb) || (Ya == Yb && (LexLess(Ma, Mb) || (Ma == Mb && LexLess(Da, Db))))
  {
    assert Ya + "-" + Ma + "-" + Da == Ya + ("-" + (Ma + ("-" + Da)));
    assert Yb + "-" + Mb + "-" + Db == Yb + ("-" + (Mb + ("-" + Db)));
    LexConcat(Ya, Yb, "-" + (Ma + ("-" + Da)), "-" + (Mb + ("-" + Db)));
    LexConcat("-", "-", Ma + ("-" + Da), Mb + ("-" + Db));
    LexConcat(Ma, Mb, "-" + Da, "-" + Db);
    LexConcat("-", "-", Da, Db);
    assert !LexLess("-", "-");
  }

  /** The order of YYYYMMDD numbers is the order of (year, month, day). */
  lemma DateFieldsOrder(a: nat, b: nat)
    ensures a < b <==>
      a / 10000 < b / 10000
      || (a / 10000 == b / 10000
          && (a / 100 % 100 < b / 100 % 100
              || (a / 100 % 100 == b / 100 % 100 && a % 100 < b % 100)))
  {
    DivModOrder(a, b, 100);
    DivModOrder(a / 100, b / 100, 100);
    assert a / 100 / 100 == a / 10000 && b / 100 / 100 == b / 10000;
  }

  /** check_market_data_update: True (skip the update) exactly when the
      benchmark download succeeded with rows, the store has a benchmark date,
      and that date's string is not below the newest market date's string. */
  function CheckMarketDataUpdate(market: Option<seq<Date>>, dbLatest: Option<Date>): (r: bool)
    requires market.Some? ==> forall i :: 0 <= i < |market.value| ==> 0 <= market.value[i] < 100000000
    requires dbLatest.Some? ==> 0 <= dbLatest.value < 100000000
    ensures r ==> market.Some? && |market.value| > 0 && dbLatest.Some?
  {
    match market
    case None => false
    case Some(dates) =>
      if |dates| == 0 then false
      else
        var latest := FormatIso(dates[|dates| - 1]);
        match dbLatest
        case None => false
        case Some(d) => !LexLess(FormatIso(d), latest)
  }

  /** The update is skipped exactly when the stored date is on or after the
      newest market date. */
  lemma CheckMarketDataUpdateIsDateOrder(dates: seq<Date>, d: Date)
    requires |dates| > 0 && forall i :: 0 <= i < |dates| ==> 0 <= dates[i] < 100000000
    requires 0 <= d < 100000000
    ensures CheckMarketDataUpdate(Some(dates), Some(d)) <==> d >= dates[|dates| - 1]
  {
    FormatIsoOrder(d, dates[|dates| - 1]);
  }
}
