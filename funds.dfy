/**
 * The fund part of the customer view (`display_fund_details`): the most
 * recent fund value that is present, the date it is shown with, and the
 * series of present values, in date order, that the trend chart draws.
 * It reads the first row of the customer's rows.
 */
module Funds {
  import opened Wrappers
  import opened Strings
  import opened Dates
  import opened Seqs
  import opened Normalize

  /** One entry of the fund series: the date of its column and its (coerced) cell. */
  datatype Entry = Entry(date: Date, cell: Cell)

  /** One point of the trend: a date and the fund value present at it. */
  datatype Point = Point(date: Date, value: real)

  /** What the fund part of the view shows. */
  datatype FundView =
    | NoFundData                                                 // the "no fund size data" warning
    | FundSummary(asOn: string, size: real, trend: Option<seq<Point>>)  // the metric, and the chart if any

  // ---------------------------------------------------------------------
  // The fund columns, newest first
  // ---------------------------------------------------------------------

  /** The columns whose name starts with "fund_", in column order. */
  function FundColumns(columns: seq<string>): (r: seq<string>)
    ensures forall c :: c in r <==> c in columns && StartsWith(c, FundKeyPrefix)
  {
    if columns == [] then []
    else
      var init, c := columns[..|columns| - 1], columns[|columns| - 1];
      assert forall x :: x in columns <==> x in init || x == c by { assert columns == init + [c]; }
      FundColumns(init) + (if StartsWith(c, FundKeyPrefix) then [c] else [])
  }

  /**
   * `sorted(fund columns, reverse=True)`. The columns of a table are
   * distinct, so sorting them loses nothing.
   */
  function FundColumnsNewestFirst(columns: seq<string>): (r: seq<string>)
    ensures Descending(r)
    ensures forall c :: c in r <==> c in columns && StartsWith(c, FundKeyPrefix)
  {
    var s := SortedDistinct(FundColumns(columns));
    ReverseOfAscending(s);
    Reverse(s)
  }

  /** Fund keys in descending string order are in descending date order. */
  lemma NewestFirstByDate(keys: seq<string>)
    requires Descending(keys)
    requires forall k :: k in keys ==> IsFundKey(k)
    ensures forall i, j :: 0 <= i < j < |keys| ==> Before(ColumnDate(keys[j]), ColumnDate(keys[i]))
  {
    forall i, j | 0 <= i < j < |keys| ensures Before(ColumnDate(keys[j]), ColumnDate(keys[i])) {
      assert keys[i] in keys && keys[j] in keys;
      var a, b := ColumnDate(keys[j]), ColumnDate(keys[i]);
      FundKeyOfKeyDate(keys[i]);
      FundKeyOfKeyDate(keys[j]);
      FundKeyOrder(a, b);
    }
  }

  // ---------------------------------------------------------------------
  // The most recent present value
  // ---------------------------------------------------------------------

  /** The position of the first column of `cols` whose cell in `row` is not missing. */
  function FirstPresent(cols: seq<string>, row: Row): (r: Option<nat>)
    requires forall c :: c in cols ==> c in row
    ensures r.None? ==> forall i :: 0 <= i < |cols| ==> row[cols[i]].Missing?
    ensures r.Some? ==> r.value < |cols| && !row[cols[r.value]].Missing?
    ensures r.Some? ==> forall i :: 0 <= i < r.value ==> row[cols[i]].Missing?
  {
    if cols == [] then None
    else if !row[cols[0]].Missing? then Some(0)
    else
      match FirstPresent(cols[1..], row)
      case None => None
      case Some(i) => Some(i + 1)
  }

  /**
   * The loop of `display_fund_details` over the fund columns, newest
   * first: the value of the first column whose cell is present, and that
   * column's date text (`col.split('_')[-1]`); nothing when every cell is missing.
   */
  method MostRecentFund(fundCols: seq<string>, row: Row) returns (size: Option<real>, dateStr: Option<string>)
    requires forall c :: c in fundCols ==> c in row && !row[c].Text?
    ensures size.None? <==> FirstPresent(fundCols, row).None?
    ensures dateStr.None? <==> size.None?
    ensures FirstPresent(fundCols, row).Some? ==>
      var c := fundCols[FirstPresent(fundCols, row).value];
      size == Some(row[c].amount) && dateStr == Some(LastField(c, '_'))
  {
    size, dateStr := None, None;
    for i := 0 to |fundCols|
      invariant size.None? && dateStr.None?
      invariant forall k :: 0 <= k < i ==> row[fundCols[k]].Missing?
    {
      var col := fundCols[i];
      var fundValue := row[col];
      if !fundValue.Missing? {
        size := Some(fundValue.amount);
        dateStr := Some(LastField(col, '_'));
        break;
      }
    }
  }

  // ---------------------------------------------------------------------
  // The series behind the trend chart
  // ---------------------------------------------------------------------

  /** `pd.to_datetime(col.split('_')[-1])` for a fund column. */
  function ColumnDate(c: string): (d: Date)
    requires IsFundKey(c)
    ensures Some(d) == KeyDate(c)
  {
    LastFieldOfFundKey(c);
    ParseIso(LastField(c, '_')).value
  }

  /** The first row's fund cells re-indexed by date, in the order of `fundCols`. */
  function Series(fundCols: seq<string>, row: Row): (s: seq<Entry>)
    requires forall c :: c in fundCols ==> IsFundKey(c) && c in row
    ensures |s| == |fundCols|
    ensures forall i :: 0 <= i < |s| ==> KeyDate(fundCols[i]) == Some(s[i].date) && s[i].cell == row[fundCols[i]]
  {
    seq(|fundCols|, i requires 0 <= i < |fundCols| => Entry(ColumnDate(fundCols[i]), row[fundCols[i]]))
  }

  predicate DistinctDates(s: seq<Entry>) {
    forall i, j :: 0 <= i < j < |s| ==> s[i].date != s[j].date
  }

  predicate EntriesAscending(s: seq<Entry>) {
    forall i, j :: 0 <= i < j < |s| ==> Before(s[i].date, s[j].date)
  }

  predicate PointsAscending(s: seq<Point>) {
    forall i, j :: 0 <= i < j < |s| ==> Before(s[i].date, s[j].date)
  }

  /** Puts `x` into an ascending series at the place its date belongs. */
  function InsertByDate(x: Entry, s: seq<Entry>): (r: seq<Entry>)
    requires EntriesAscending(s)
    requires forall e :: e in s ==> e.date != x.date
    ensures EntriesAscending(r) && |r| == |s| + 1
    ensures forall e :: e in r <==> e == x || e in s
  {
    if s == [] then [x]
    else if Before(x.date, s[0].date) then [x] + s
    else
      var t := InsertByDate(x, s[1..]);
      assert forall e :: e in s[1..] ==> e in s;
      assert forall e :: e in t ==> Before(s[0].date, e.date);
      [s[0]] + t
  }

  /** `sort_index()` on a series whose dates are distinct: the same entries, in ascending date order. */
  function SortIndex(s: seq<Entry>): (r: seq<Entry>)
    requires DistinctDates(s)
    ensures EntriesAscending(r) && |r| == |s|
    ensures forall e :: e in r <==> e in s
  {
    if s == [] then []
    else
      var n := |s| - 1;
      var init := s[..n];
      assert forall e :: e in s <==> e in init || e == s[n] by { assert s == init + [s[n]]; }
      assert DistinctDates(init);
      assert forall e :: e in init ==> e.date != s[n].date;
      InsertByDate(s[n], SortIndex(init))
  }

  /** An ascending series with one entry removed from its end stays ascending, and that entry comes after the rest. */
  lemma AscendingInit(s: seq<Entry>)
    requires EntriesAscending(s) && s != []
    ensures EntriesAscending(s[..|s| - 1])
    ensures forall x :: x in s[..|s| - 1] ==> Before(x.date, s[|s| - 1].date)
  {
    forall x | x in s[..|s| - 1] ensures Before(x.date, s[|s| - 1].date) {
      var k :| 0 <= k < |s| - 1 && s[..|s| - 1][k] == x;
      assert s[k] == x;
    }
  }

  /** A point later than every point of an ascending series extends it. */
  lemma AscendingSnoc(r: seq<Point>, p: Point)
    requires PointsAscending(r)
    requires forall q :: q in r ==> Before(q.date, p.date)
    ensures PointsAscending(r + [p])
  {
    forall i, j | 0 <= i < j < |r| + 1 ensures Before((r + [p])[i].date, (r + [p])[j].date) {
      if j == |r| {
        assert r[i] in r;
      }
    }
  }

  /** `dropna()`: the entries whose cell holds a number, as points, in order. */
  function DropMissing(s: seq<Entry>): (r: seq<Point>)
    requires forall e :: e in s ==> !e.cell.Text?
    ensures forall p :: p in r <==> Entry(p.date, Number(p.value)) in s
    ensures EntriesAscending(s) ==> PointsAscending(r)
  {
    if s == [] then []
    else
      var n := |s| - 1;
      var init, e := s[..n], s[n];
      assert forall x :: x in s <==> x in init || x == e by { assert s == init + [e]; }
      var r := DropMissing(init);
      if e.cell.Number? then
        var v := e.cell.amount;
        assert EntriesAscending(s) ==> PointsAscending(r + [Point(e.date, v)]) by {
          if EntriesAscending(s) {
            AscendingInit(s);
            forall q | q in r ensures Before(q.date, e.date) {
              assert Entry(q.date, Number(q.value)) in init;
            }
            AscendingSnoc(r, Point(e.date, v));
          }
        }
        r + [Point(e.date, v)]
      else
        assert EntriesAscending(s) ==> PointsAscending(r) by {
          if EntriesAscending(s) { AscendingInit(s); }
        }
        r
  }

  /** Distinct fund keys in descending order give entries with distinct dates. */
  lemma SeriesDatesDistinct(fundCols: seq<string>, row: Row)
    requires Descending(fundCols)
    requires forall c :: c in fundCols ==> IsFundKey(c) && c in row
    ensures DistinctDates(Series(fundCols, row))
  {
    NewestFirstByDate(fundCols);
  }

  /**
   * The present fund values of the first row in ascending date order, as
   * the chart receives them: the series of the fund columns, sorted by
   * date, without its missing entries.
   */
  function ValidSeries(columns: seq<string>, row: Row): (vs: seq<Point>)
    requires FundCellsReady(columns, row)
    ensures PointsAscending(vs)
    ensures forall p :: p in vs <==> Entry(p.date, Number(p.value)) in Series(FundColumnsNewestFirst(columns), row)
  {
    var cols := FundColumnsNewestFirst(columns);
    SeriesDatesDistinct(cols, row);
    DropMissing(SortIndex(Series(cols, row)))
  }

  /** A fund column whose cell holds a number gives a point of the trend series. */
  lemma PointOfColumn(columns: seq<string>, row: Row, c: string)
    requires FundCellsReady(columns, row)
    requires c in columns && StartsWith(c, FundKeyPrefix)
    ensures row[c].Number? ==> Point(ColumnDate(c), row[c].amount) in ValidSeries(columns, row)
  {
    if row[c].Number? {
      var cols := FundColumnsNewestFirst(columns);
      var i :| 0 <= i < |cols| && cols[i] == c;
      assert Series(cols, row)[i] == Entry(ColumnDate(c), Number(row[c].amount));
    }
  }

  /** Every point of the trend series comes from a fund column of its date holding its value. */
  lemma ColumnOfPoint(columns: seq<string>, row: Row, p: Point) returns (c: string)
    requires FundCellsReady(columns, row)
    requires p in ValidSeries(columns, row)
    ensures c in columns && StartsWith(c, FundKeyPrefix) && KeyDate(c) == Some(p.date) && row[c] == Number(p.value)
  {
    var cols := FundColumnsNewestFirst(columns);
    var series := Series(cols, row);
    var i :| 0 <= i < |series| && series[i] == Entry(p.date, Number(p.value));
    c := cols[i];
    assert c in cols;
  }

  /**
   * The trend series holds exactly one point per fund column whose cell
   * holds a number, dated by that column, and its dates strictly increase.
   */
  lemma ValidSeriesMembers(columns: seq<string>, row: Row)
    requires FundCellsReady(columns, row)
    ensures PointsAscending(ValidSeries(columns, row))
    ensures forall p :: p in ValidSeries(columns, row) <==>
      exists c :: c in columns && StartsWith(c, FundKeyPrefix) && KeyDate(c) == Some(p.date) && row[c] == Number(p.value)
  {
    forall p ensures p in ValidSeries(columns, row) <==>
      exists c :: c in columns && StartsWith(c, FundKeyPrefix) && KeyDate(c) == Some(p.date) && row[c] == Number(p.value)
    {
      if p in ValidSeries(columns, row) {
        var c := ColumnOfPoint(columns, row, p);
      }
      if c :| c in columns && StartsWith(c, FundKeyPrefix) && KeyDate(c) == Some(p.date) && row[c] == Number(p.value) {
        PointOfColumn(columns, row, c);
      }
    }
  }

  /**
   * In a series listed newest first, the first entry holding a number is
   * the last point of any ascending list of exactly its numeric entries.
   */
  lemma {:induction false} NewestNumberIsLast(s: seq<Entry>, vs: seq<Point>, i: nat)
    requires i < |s| && s[i].cell.Number?
    requires forall a :: 0 <= a < i ==> s[a].cell.Missing?
    requires forall a, b :: 0 <= a < b < |s| ==> Before(s[b].date, s[a].date)
    requires PointsAscending(vs)
    requires forall p :: p in vs <==> Entry(p.date, Number(p.value)) in s
    ensures vs != [] && vs[|vs| - 1] == Point(s[i].date, s[i].cell.amount)
  {
    var p := Point(s[i].date, s[i].cell.amount);
    assert s[i] == Entry(p.date, Number(p.value));
    assert p in vs;
    var q := vs[|vs| - 1];
    assert q in vs;
    var j :| 0 <= j < |s| && s[j] == Entry(q.date, Number(q.value));
    assert q.date == p.date || Before(q.date, p.date);
    var k :| 0 <= k < |vs| && vs[k] == p;
    assert k == |vs| - 1;
  }

  /** A series whose cells are all missing has no points. */
  lemma {:induction false} DropAllMissing(s: seq<Entry>)
    requires forall e :: e in s ==> e.cell.Missing?
    ensures DropMissing(s) == []
  {
    if s != [] {
      var n := |s| - 1;
      assert forall e :: e in s[..n] ==> e in s;
      assert s[n] in s;
      DropAllMissing(s[..n]);
    }
  }

  /** Sorting a series without numeric entries and dropping the missing ones leaves nothing. */
  lemma NoPresentNoPoints(s: seq<Entry>)
    requires DistinctDates(s)
    requires forall a :: 0 <= a < |s| ==> s[a].cell.Missing?
    ensures DropMissing(SortIndex(s)) == []
  {
    DropAllMissing(SortIndex(s));
  }

  /**
   * The column the loop picks is the newest column with a present value,
   * so its value is the last point of the series; the loop finds nothing
   * exactly when the series is empty.
   */
  lemma FirstPresentIsLatest(columns: seq<string>, row: Row)
    requires FundCellsReady(columns, row)
    ensures var cols, vs := FundColumnsNewestFirst(columns), ValidSeries(columns, row);
      && (FirstPresent(cols, row).None? <==> vs == [])
      && (FirstPresent(cols, row).Some? ==>
            var c := cols[FirstPresent(cols, row).value];
            vs != [] && vs[|vs| - 1] == Point(ColumnDate(c), row[c].amount))
  {
    var cols := FundColumnsNewestFirst(columns);
    match FirstPresent(cols, row)
    case None => NothingPresentIsEmpty(columns, row);
    case Some(i) => PresentIsLast(columns, row, cols, i);
  }

  /** When the loop finds no present value, the series is empty. */
  lemma NothingPresentIsEmpty(columns: seq<string>, row: Row)
    requires FundCellsReady(columns, row)
    requires FirstPresent(FundColumnsNewestFirst(columns), row).None?
    ensures ValidSeries(columns, row) == []
  {
    var cols := FundColumnsNewestFirst(columns);
    SeriesDatesDistinct(cols, row);
    NoPresentNoPoints(Series(cols, row));
  }

  /** The value the loop finds at position `i` is the last point of the series. */
  lemma PresentIsLast(columns: seq<string>, row: Row, cols: seq<string>, i: nat)
    requires FundCellsReady(columns, row)
    requires cols == FundColumnsNewestFirst(columns)
    requires FirstPresent(cols, row) == Some(i)
    ensures i < |cols| && ValidSeries(columns, row) != []
    ensures ValidSeries(columns, row)[|ValidSeries(columns, row)| - 1] == Point(ColumnDate(cols[i]), row[cols[i]].amount)
  {
    NewestFirstByDate(cols);
    NewestNumberIsLast(Series(cols, row), ValidSeries(columns, row), i);
  }

  // ---------------------------------------------------------------------
  // The fund view
  // ---------------------------------------------------------------------

  /**
   * `display_fund_details` on the first row of a customer's rows: the
   * latest present value and its date as `DD.MM.YYYY`, or the no-data
   * state; and the trend, drawn only from two present values on.
   */
  method DisplayFundDetails(columns: seq<string>, row: Row) returns (view: FundView)
    requires FundCellsReady(columns, row)
    ensures var vs := ValidSeries(columns, row);
      && (view.NoFundData? <==> vs == [])
      && (view.FundSummary? ==>
            && view.size == vs[|vs| - 1].value
            && view.asOn == FormatDayMonthYear(vs[|vs| - 1].date)
            && view.trend == if |vs| > 1 then Some(vs) else None)
  {
    var fundCols := FundColumnsNewestFirst(columns);
    var size, dateStr := MostRecentFund(fundCols, row);
    FirstPresentIsLatest(columns, row);
    if size.None? {
      return NoFundData;
    }
    ghost var c := fundCols[FirstPresent(fundCols, row).value];
    LastFieldOfFundKey(c);
    var mostRecentDate := FormatDayMonthYear(ParseIso(dateStr.value).value);
    var validFunds := ValidSeries(columns, row);
    var trend := if |validFunds| > 1 then Some(validFunds) else None;
    view := FundSummary(mostRecentDate, size.value, trend);
  }

  /**
   * The value shown is the newest present one: a column of its date holds
   * it, and every fund column dated later is missing in the row.
   */
  lemma MostRecentIsLatest(columns: seq<string>, row: Row, last: Point) returns (c: string)
    requires FundCellsReady(columns, row) && ValidSeries(columns, row) != []
    requires last == ValidSeries(columns, row)[|ValidSeries(columns, row)| - 1]
    ensures c in columns && StartsWith(c, FundKeyPrefix) && KeyDate(c) == Some(last.date) && row[c] == Number(last.value)
    ensures forall c', d :: c' in columns && KeyDate(c') == Some(d) && Before(last.date, d) ==> row[c'].Missing?
  {
    c := ColumnOfPoint(columns, row, last);
    LaterColumnsMissing(columns, row, last);
  }

  lemma LaterColumnsMissing(columns: seq<string>, row: Row, last: Point)
    requires FundCellsReady(columns, row) && ValidSeries(columns, row) != []
    requires last == ValidSeries(columns, row)[|ValidSeries(columns, row)| - 1]
    ensures forall c, d :: c in columns && KeyDate(c) == Some(d) && Before(last.date, d) ==> row[c].Missing?
  {
    var vs := ValidSeries(columns, row);
    forall c, d | c in columns && KeyDate(c) == Some(d) && Before(last.date, d)
      ensures row[c].Missing?
    {
      assert StartsWith(c, FundKeyPrefix);
      PointOfColumn(columns, row, c);
      LaterCellMissing(vs, row[c], d);
    }
  }

  /** A number or missing cell dated after the last point of an ascending series it would belong to is missing. */
  lemma LaterCellMissing(vs: seq<Point>, cell: Cell, d: Date)
    requires PointsAscending(vs) && vs != []
    requires !cell.Text? && (cell.Number? ==> Point(d, cell.amount) in vs)
    requires Before(vs[|vs| - 1].date, d)
    ensures cell.Missing?
  {
    LastIsLatest(vs);
    BeforeIsStrictOrder(vs[|vs| - 1].date, d, vs[|vs| - 1].date);
  }

  /** No point of an ascending series is dated after its last one. */
  lemma LastIsLatest(vs: seq<Point>)
    requires PointsAscending(vs) && vs != []
    ensures forall p :: p in vs ==> p.date == vs[|vs| - 1].date || Before(p.date, vs[|vs| - 1].date)
  {
    forall p | p in vs ensures p.date == vs[|vs| - 1].date || Before(p.date, vs[|vs| - 1].date) {
      var i :| 0 <= i < |vs| && vs[i] == p;
    }
  }

  /**
   * The date printed next to the value gives back the header's own date
   * token when that token was zero-padded: `DD.MM.YYYY` to the key's
   * `YYYY-MM-DD` and back.
   */
  lemma DisplayDateRoundTrip(h: string)
    requires Classify(h).FundColumn?
    requires |LastField(Trim(h), ' ')| == 10
    ensures ParseIso(LastField(Classify(h).key, '_')).Some?
    ensures FormatDayMonthYear(ParseIso(LastField(Classify(h).key, '_')).value) == LastField(Trim(h), ' ')
  {
    var tok := LastField(Trim(h), ' ');
    var d := ParseDayMonthYear(tok).value;
    KeyDateOfFundKey(d);
    LastFieldOfFundKey(FundKey(d));
    FormatParseDayMonthYear(tok);
  }
}
