/**
 * The drill-down through the customer table: the option list each screen
 * offers (the sorted distinct values of one column) and the rows each
 * selection keeps (the rows holding the chosen value, in table order).
 * Browsing by location goes state, unit, segment, customer; browsing by
 * segment goes segment, customer.
 */
module Query {
  import opened Strings
  import opened Seqs
  import opened Normalize

  const StateCol := "state"
  const UnitCol := "unit"
  const SegmentCol := "segment"
  const CustomerCol := "customer_name"

  /** Row `x` holds the text `v` in column `f`. */
  predicate Has(x: Row, f: string, v: string) {
    f in x && x[f] == Text(v)
  }

  /** `rows[rows[f] == v]`: the rows holding `v` in column `f`, in table order. */
  function Matching(rows: seq<Row>, f: string, v: string): (r: seq<Row>)
    ensures |r| <= |rows|
    ensures forall x :: x in r <==> x in rows && Has(x, f, v)
  {
    if rows == [] then []
    else
      assert forall x :: x in rows <==> x == rows[0] || x in rows[1..];
      if Has(rows[0], f, v) then [rows[0]] + Matching(rows[1..], f, v)
      else Matching(rows[1..], f, v)
  }

  /** `rows[(rows[f] == v) & (rows[g] == w)]`: one filter on two columns at once. */
  function MatchingBoth(rows: seq<Row>, f: string, v: string, g: string, w: string): (r: seq<Row>)
    ensures forall x :: x in r <==> x in rows && Has(x, f, v) && Has(x, g, w)
  {
    if rows == [] then []
    else
      assert forall x :: x in rows <==> x == rows[0] || x in rows[1..];
      if Has(rows[0], f, v) && Has(rows[0], g, w) then [rows[0]] + MatchingBoth(rows[1..], f, v, g, w)
      else MatchingBoth(rows[1..], f, v, g, w)
  }

  /** Column `f` holds text in every row, so its values can be sorted. */
  predicate TextColumn(rows: seq<Row>, f: string) {
    forall i :: 0 <= i < |rows| ==> f in rows[i] && rows[i][f].Text?
  }

  /** The texts of column `f`, row by row. */
  function Texts(rows: seq<Row>, f: string): (r: seq<string>)
    requires TextColumn(rows, f)
    ensures forall v :: v in r <==> exists x :: x in rows && Has(x, f, v)
  {
    if rows == [] then []
    else
      assert forall x :: x in rows <==> x == rows[0] || x in rows[1..];
      assert Has(rows[0], f, rows[0][f].text);
      [rows[0][f].text] + Texts(rows[1..], f)
  }

  /** `sorted(rows[f].unique())`: every value of the column once, in ascending order. */
  function Options(rows: seq<Row>, f: string): (r: seq<string>)
    requires TextColumn(rows, f)
    ensures Ascending(r)
    ensures forall v :: v in r <==> exists x :: x in rows && Has(x, f, v)
  {
    SortedDistinct(Texts(rows, f))
  }

  /** An ascending option list offers no value twice. */
  lemma AscendingDistinct(s: seq<string>)
    requires Ascending(s)
    ensures Distinct(s)
  {
    forall i, j | 0 <= i < j < |s| ensures s[i] != s[j] {
      LexAsymmetric(s[i], s[j]);
    }
  }

  /** Every value offered for a column selects at least one row, and only offered values do. */
  lemma OfferedSelectsRows(rows: seq<Row>, f: string, v: string)
    requires TextColumn(rows, f)
    ensures v in Options(rows, f) <==> Matching(rows, f, v) != []
  {
    var m := Matching(rows, f, v);
    if m != [] {
      assert m[0] in m;
    }
  }

  /** A selection keeps the table's order: its first row is the first row of the table holding the value. */
  lemma {:induction false} MatchingFirst(rows: seq<Row>, f: string, v: string)
    requires Matching(rows, f, v) != []
    ensures exists k :: (0 <= k < |rows| && Has(rows[k], f, v) && Matching(rows, f, v)[0] == rows[k]
      && forall j :: 0 <= j < k ==> !Has(rows[j], f, v))
  {
    if !Has(rows[0], f, v) {
      MatchingFirst(rows[1..], f, v);
      var k :| 0 <= k < |rows[1..]| && Has(rows[1..][k], f, v) && Matching(rows[1..], f, v)[0] == rows[1..][k]
        && forall j :: 0 <= j < k ==> !Has(rows[1..][j], f, v);
      assert forall j :: 0 <= j < k + 1 ==> !Has(rows[j], f, v) by {
        forall j | 0 < j < k + 1 ensures !Has(rows[j], f, v) { assert rows[j] == rows[1..][j - 1]; }
      }
    }
  }

  /** Filtering on two columns at once keeps the same rows, in the same order, as filtering twice. */
  lemma {:induction false} MatchingBothIsNested(rows: seq<Row>, f: string, v: string, g: string, w: string)
    ensures MatchingBoth(rows, f, v, g, w) == Matching(Matching(rows, f, v), g, w)
  {
    if rows != [] {
      MatchingBothIsNested(rows[1..], f, v, g, w);
      if Has(rows[0], f, v) {
        assert ([rows[0]] + Matching(rows[1..], f, v))[1..] == Matching(rows[1..], f, v);
      }
    }
  }

  /** Two selections can be applied in either order. */
  lemma {:induction false} MatchingSwap(rows: seq<Row>, f: string, v: string, g: string, w: string)
    ensures Matching(Matching(rows, f, v), g, w) == Matching(Matching(rows, g, w), f, v)
  {
    if rows != [] {
      MatchingSwap(rows[1..], f, v, g, w);
      var x, rest := rows[0], rows[1..];
      if Has(x, f, v) {
        assert ([x] + Matching(rest, f, v))[1..] == Matching(rest, f, v);
      }
      if Has(x, g, w) {
        assert ([x] + Matching(rest, g, w))[1..] == Matching(rest, g, w);
      }
    }
  }

  /** A selection every row already satisfies changes nothing. */
  lemma {:induction false} MatchingAll(rows: seq<Row>, f: string, v: string)
    requires forall x :: x in rows ==> Has(x, f, v)
    ensures Matching(rows, f, v) == rows
  {
    if rows != [] {
      assert forall x :: x in rows[1..] ==> x in rows;
      MatchingAll(rows[1..], f, v);
    }
  }

  // ---------------------------------------------------------------------
  // Browsing by location
  // ---------------------------------------------------------------------

  /** The state buttons. */
  function States(df: seq<Row>): (r: seq<string>)
    requires TextColumn(df, StateCol)
    ensures Ascending(r)
    ensures forall s :: s in r <==> exists x :: x in df && Has(x, StateCol, s)
  {
    Options(df, StateCol)
  }

  /** The unit buttons once state `s` is chosen: the units of the rows in that state. */
  function Units(df: seq<Row>, s: string): (r: seq<string>)
    requires TextColumn(Matching(df, StateCol, s), UnitCol)
    ensures Ascending(r)
    ensures forall u :: u in r <==> exists x :: x in df && Has(x, StateCol, s) && Has(x, UnitCol, u)
  {
    Options(Matching(df, StateCol, s), UnitCol)
  }

  /** The rows of state `s` and unit `u`. */
  function UnitRows(df: seq<Row>, s: string, u: string): (r: seq<Row>)
    ensures forall x :: x in r <==> x in df && Has(x, StateCol, s) && Has(x, UnitCol, u)
  {
    MatchingBoth(df, StateCol, s, UnitCol, u)
  }

  /** The segment choices for state `s` and unit `u`. */
  function Segments(df: seq<Row>, s: string, u: string): (r: seq<string>)
    requires TextColumn(UnitRows(df, s, u), SegmentCol)
    ensures Ascending(r)
    ensures forall g :: g in r <==> exists x :: x in df && Has(x, StateCol, s) && Has(x, UnitCol, u) && Has(x, SegmentCol, g)
  {
    Options(UnitRows(df, s, u), SegmentCol)
  }

  /** The rows of state `s`, unit `u` and segment `g`. */
  function LocationSegmentRows(df: seq<Row>, s: string, u: string, g: string): (r: seq<Row>)
    ensures forall x :: x in r <==> x in df && Has(x, StateCol, s) && Has(x, UnitCol, u) && Has(x, SegmentCol, g)
  {
    Matching(UnitRows(df, s, u), SegmentCol, g)
  }

  /** The customer choices for state `s`, unit `u` and segment `g`. */
  function LocationCustomers(df: seq<Row>, s: string, u: string, g: string): (r: seq<string>)
    requires TextColumn(LocationSegmentRows(df, s, u, g), CustomerCol)
    ensures Ascending(r)
    ensures forall c :: c in r <==> exists x :: (x in df && Has(x, StateCol, s) && Has(x, UnitCol, u)
      && Has(x, SegmentCol, g) && Has(x, CustomerCol, c))
  {
    Options(LocationSegmentRows(df, s, u, g), CustomerCol)
  }

  /** The rows whose portfolio is shown for customer `c` reached by location. */
  function LocationCustomerRows(df: seq<Row>, s: string, u: string, g: string, c: string): (r: seq<Row>)
    ensures forall x :: x in r <==> (x in df && Has(x, StateCol, s) && Has(x, UnitCol, u)
      && Has(x, SegmentCol, g) && Has(x, CustomerCol, c))
  {
    Matching(LocationSegmentRows(df, s, u, g), CustomerCol, c)
  }

  // ---------------------------------------------------------------------
  // Browsing by segment
  // ---------------------------------------------------------------------

  /** The segment buttons. */
  function AllSegments(df: seq<Row>): (r: seq<string>)
    requires TextColumn(df, SegmentCol)
    ensures Ascending(r)
    ensures forall g :: g in r <==> exists x :: x in df && Has(x, SegmentCol, g)
  {
    Options(df, SegmentCol)
  }

  /** The rows of the chosen segment. */
  function SegmentRows(df: seq<Row>, g: string): (r: seq<Row>)
    ensures |r| <= |df|
    ensures forall x :: x in r <==> x in df && Has(x, SegmentCol, g)
  {
    Matching(df, SegmentCol, g)
  }

  /** One line of the segment's customer table: name, state and unit. */
  datatype Listing = Listing(customer: Cell, state: Cell, unit: Cell)

  /** The table of the segment's customers, one line per row of the segment, in table order. */
  function SegmentTable(df: seq<Row>, g: string): (t: seq<Listing>)
    requires forall x :: x in SegmentRows(df, g) ==> CustomerCol in x && StateCol in x && UnitCol in x
    ensures |t| == |SegmentRows(df, g)|
    ensures forall i :: 0 <= i < |t| ==> Has(SegmentRows(df, g)[i], SegmentCol, g)
  {
    var rows := SegmentRows(df, g);
    seq(|rows|, i requires 0 <= i < |rows| => Listing(rows[i][CustomerCol], rows[i][StateCol], rows[i][UnitCol]))
  }

  /** The customer choices of segment `g`. */
  function SegmentCustomers(df: seq<Row>, g: string): (r: seq<string>)
    requires TextColumn(SegmentRows(df, g), CustomerCol)
    ensures Ascending(r)
    ensures forall c :: c in r <==> exists x :: x in df && Has(x, SegmentCol, g) && Has(x, CustomerCol, c)
  {
    Options(SegmentRows(df, g), CustomerCol)
  }

  /** The rows whose portfolio is shown for customer `c` reached by segment. */
  function SegmentCustomerRows(df: seq<Row>, g: string, c: string): (r: seq<Row>)
    ensures forall x :: x in r <==> x in df && Has(x, SegmentCol, g) && Has(x, CustomerCol, c)
  {
    Matching(SegmentRows(df, g), CustomerCol, c)
  }

  /** The customer choices are exactly the names in the segment's table, each once and sorted. */
  lemma TableNamesOffered(df: seq<Row>, g: string)
    requires TextColumn(SegmentRows(df, g), CustomerCol)
    requires forall x :: x in SegmentRows(df, g) ==> StateCol in x && UnitCol in x
    ensures forall c :: c in SegmentCustomers(df, g) <==>
      exists i :: 0 <= i < |SegmentTable(df, g)| && SegmentTable(df, g)[i].customer == Text(c)
  {
    var rows, t := SegmentRows(df, g), SegmentTable(df, g);
    forall c ensures c in SegmentCustomers(df, g) <==> exists i :: 0 <= i < |t| && t[i].customer == Text(c) {
      if c in SegmentCustomers(df, g) {
        var x :| x in df && Has(x, SegmentCol, g) && Has(x, CustomerCol, c);
        assert x in rows;
        var i :| 0 <= i < |rows| && rows[i] == x;
        assert t[i].customer == Text(c);
      }
      if i :| 0 <= i < |t| && t[i].customer == Text(c) {
        assert rows[i] in rows && Has(rows[i], CustomerCol, c);
      }
    }
  }

  // ---------------------------------------------------------------------
  // No dead ends
  // ---------------------------------------------------------------------

  /** Choosing an offered value leads to a screen offering at least one value of the next column. */
  lemma NextChoicesNonEmpty(rows: seq<Row>, f: string, v: string, h: string)
    requires TextColumn(rows, f) && v in Options(rows, f)
    requires TextColumn(Matching(rows, f, v), h)
    ensures Options(Matching(rows, f, v), h) != []
  {
    var m := Matching(rows, f, v);
    OfferedSelectsRows(rows, f, v);
    var x: Row := m[0];
    var t := x[h].text;
    assert x in m && Has(x, h, t);
    assert t in Options(m, h);
  }

  /** Every state button leads to at least one unit button. */
  lemma StateLeadsToUnits(df: seq<Row>, s: string)
    requires TextColumn(df, StateCol) && s in States(df)
    requires TextColumn(Matching(df, StateCol, s), UnitCol)
    ensures Units(df, s) != []
  {
    NextChoicesNonEmpty(df, StateCol, s, UnitCol);
  }

  /** Every unit button leads to at least one segment choice. */
  lemma UnitLeadsToSegments(df: seq<Row>, s: string, u: string)
    requires TextColumn(Matching(df, StateCol, s), UnitCol) && u in Units(df, s)
    requires TextColumn(UnitRows(df, s, u), SegmentCol)
    ensures Segments(df, s, u) != []
  {
    var x: Row :| x in df && Has(x, StateCol, s) && Has(x, UnitCol, u);
    var rows := UnitRows(df, s, u);
    assert x in rows;
    var i :| 0 <= i < |rows| && rows[i] == x;
    var t := x[SegmentCol].text;
    assert Has(x, SegmentCol, t);
    assert t in Segments(df, s, u);
  }

  /** Every segment choice, on either path, leads to at least one customer choice. */
  lemma SegmentLeadsToCustomers(df: seq<Row>, s: string, u: string, g: string)
    ensures (TextColumn(UnitRows(df, s, u), SegmentCol) && g in Segments(df, s, u)
      && TextColumn(LocationSegmentRows(df, s, u, g), CustomerCol)) ==> LocationCustomers(df, s, u, g) != []
    ensures (TextColumn(df, SegmentCol) && g in AllSegments(df)
      && TextColumn(SegmentRows(df, g), CustomerCol)) ==> SegmentCustomers(df, g) != []
  {
    if TextColumn(UnitRows(df, s, u), SegmentCol) && g in Segments(df, s, u)
      && TextColumn(LocationSegmentRows(df, s, u, g), CustomerCol) {
      NextChoicesNonEmpty(UnitRows(df, s, u), SegmentCol, g, CustomerCol);
    }
    if TextColumn(df, SegmentCol) && g in AllSegments(df) && TextColumn(SegmentRows(df, g), CustomerCol) {
      NextChoicesNonEmpty(df, SegmentCol, g, CustomerCol);
    }
  }

  // ---------------------------------------------------------------------
  // Where the two ways meet
  // ---------------------------------------------------------------------

  /**
   * A customer offered on either path has at least one row, so the
   * portfolio always has a first row to show.
   */
  lemma ChosenCustomerHasRows(df: seq<Row>, s: string, u: string, g: string, c: string)
    ensures TextColumn(LocationSegmentRows(df, s, u, g), CustomerCol) && c in LocationCustomers(df, s, u, g)
      ==> LocationCustomerRows(df, s, u, g, c) != []
    ensures TextColumn(SegmentRows(df, g), CustomerCol) && c in SegmentCustomers(df, g)
      ==> SegmentCustomerRows(df, g, c) != []
  {
    if TextColumn(LocationSegmentRows(df, s, u, g), CustomerCol) {
      OfferedSelectsRows(LocationSegmentRows(df, s, u, g), CustomerCol, c);
    }
    if TextColumn(SegmentRows(df, g), CustomerCol) {
      OfferedSelectsRows(SegmentRows(df, g), CustomerCol, c);
    }
  }

  /**
   * The rows shown for a customer reached by location are the rows shown
   * for the same customer and segment reached by segment, narrowed to the
   * chosen state and unit, in the same order.
   */
  lemma PathsAgree(df: seq<Row>, s: string, u: string, g: string, c: string)
    ensures LocationCustomerRows(df, s, u, g, c)
      == Matching(Matching(SegmentCustomerRows(df, g, c), StateCol, s), UnitCol, u)
  {
    var a := Matching(df, StateCol, s);
    MatchingBothIsNested(df, StateCol, s, UnitCol, u);
    MatchingSwap(a, UnitCol, u, SegmentCol, g);
    MatchingSwap(Matching(a, SegmentCol, g), UnitCol, u, CustomerCol, c);
    MatchingSwap(df, StateCol, s, SegmentCol, g);
    MatchingSwap(Matching(df, SegmentCol, g), StateCol, s, CustomerCol, c);
  }

  /**
   * When every row of the customer in the segment lies in state `s` and
   * unit `u`, both paths show the same rows, so the same portfolio.
   */
  lemma SamePortfolio(df: seq<Row>, s: string, u: string, g: string, c: string)
    requires forall x :: x in SegmentCustomerRows(df, g, c) ==> Has(x, StateCol, s) && Has(x, UnitCol, u)
    ensures LocationCustomerRows(df, s, u, g, c) == SegmentCustomerRows(df, g, c)
  {
    var rows := SegmentCustomerRows(df, g, c);
    PathsAgree(df, s, u, g, c);
    MatchingAll(rows, StateCol, s);
    MatchingAll(rows, UnitCol, u);
  }
}
