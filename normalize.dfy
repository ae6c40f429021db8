/**
 * The loader (`load_data`): it classifies every spreadsheet header,
 * renames the seven fixed fields and the dated "Closing Balance as on
 * DD.MM.YYYY" columns, leaves every other header as it is, and coerces the
 * renamed fund columns to numbers. It reports each fund header whose date
 * does not parse.
 */
module Normalize {
  import opened Wrappers
  import opened Strings
  import opened Dates
  import opened Seqs

  /** One spreadsheet cell as the reader delivers it. */
  datatype Cell = Text(text: string) | Number(amount: real) | Missing

  /** A row of the table, keyed by column name. */
  type Row = map<string, Cell>

  /**
   * `pd.to_numeric(cell, errors='coerce')`: numbers stay, text becomes the
   * number `toNumber` reads from it or a missing value, missing stays missing.
   */
  function Coerce(c: Cell, toNumber: string -> Option<real>): (r: Cell)
    ensures !r.Text?
    ensures c.Text? ==> (r.Number? <==> toNumber(c.text).Some?)
    ensures c.Text? && r.Number? ==> r.amount == toNumber(c.text).value
    ensures !c.Text? ==> r == c
  {
    match c
    case Text(s) => (match toNumber(s) case Some(x) => Number(x) case None => Missing)
    case _ => c
  }

  // ---------------------------------------------------------------------
  // Header classification
  // ---------------------------------------------------------------------

  /**
   * The seven fixed fields: the trimmed, lower-cased header the loader
   * compares against, and the column's new name.
   */
  const FieldTable: map<string, string> := map[
    "state" := "state", "unit" := "unit", "customer name" := "customer_name", "segment" := "segment",
    "gratuity" := "gratuity", "superannuation" := "superannuation", "leave encashment" := "leave_encashment"]

  const FundHeaderPrefix := "closing balance as on"
  const FundKeyPrefix := "fund_"

  /** What the loader makes of one header. */
  datatype Kind =
    | Field(name: string)        // one of the seven fixed fields
    | FundColumn(key: string)    // a dated fund column, renamed to its key
    | UnparsedFundHeader         // a fund header whose date does not parse
    | Unrecognised               // anything else

  /** `f'fund_{date:%Y-%m-%d}'`. */
  function FundKey(d: Date): (k: string)
    requires IsTimestampDate(d)
    ensures |k| == 15 && StartsWith(k, FundKeyPrefix)
  {
    FundKeyPrefix + FormatIso(d)
  }

  /** The date a fund key names; `None` for any other column name. */
  function KeyDate(k: string): (r: Option<Date>)
    ensures r.Some? ==> IsTimestampDate(r.value)
  {
    if |k| == 15 && StartsWith(k, FundKeyPrefix) then ParseIso(k[5..]) else None
  }

  predicate IsFundKey(k: string) {
    KeyDate(k).Some?
  }

  lemma KeyDateOfFundKey(d: Date)
    requires IsTimestampDate(d)
    ensures KeyDate(FundKey(d)) == Some(d)
  {
    var k := FundKey(d);
    assert k[..5] == FundKeyPrefix && k[5..] == FormatIso(d);
    ParseFormatIso(d);
  }

  lemma FundKeyOfKeyDate(k: string)
    requires IsFundKey(k)
    ensures FundKey(KeyDate(k).value) == k
  {
    FormatParseIso(k[5..]);
    assert k == k[..5] + k[5..];
  }

  /** `key.split('_')[-1]` of a fund key is its ISO date. */
  lemma LastFieldOfFundKey(k: string)
    requires IsFundKey(k)
    ensures LastField(k, '_') == k[5..]
    ensures ParseIso(LastField(k, '_')) == KeyDate(k)
  {
    var iso := k[5..];
    assert forall i :: 5 <= i < 15 ==> k[i] != '_' by {
      assert forall i :: 0 <= i < 4 ==> iso[i] == iso[..4][i];
      assert forall i :: 5 <= i < 7 ==> iso[i] == iso[5..7][i - 5];
      assert forall i :: 8 <= i < 10 ==> iso[i] == iso[8..][i - 8];
      assert forall i :: 5 <= i < 15 ==> k[i] == iso[i - 5];
    }
    var r := LastField(k, '_');
    LastFieldAfter(k, '_', 4);
    assert |r| >= 10;
    assert |r| == 10;
    assert forall i :: 0 <= i < 10 ==> r[i] == iso[i];
  }

  /** Fund keys sort as strings in the order of their dates. */
  lemma FundKeyOrder(a: Date, b: Date)
    requires IsTimestampDate(a) && IsTimestampDate(b)
    ensures LexLess(FundKey(a), FundKey(b)) <==> Before(a, b)
    ensures FundKey(a) == FundKey(b) <==> a == b
  {
    LexConcat(FundKeyPrefix, FormatIso(a), FundKeyPrefix, FormatIso(b));
    IsoOrder(a, b);
    IsoInjective(a, b);
    KeyDateOfFundKey(a);
    KeyDateOfFundKey(b);
  }

  /**
   * The seven fixed-field tests of the loader's `if`/`elif` chain, in
   * order: the new name of a column whose cleaned header is `clean`.
   */
  function FieldFor(clean: string): Option<string> {
    if clean == "state" then Some("state")
    else if clean == "unit" then Some("unit")
    else if clean == "customer name" then Some("customer_name")
    else if clean == "segment" then Some("segment")
    else if clean == "gratuity" then Some("gratuity")
    else if clean == "superannuation" then Some("superannuation")
    else if clean == "leave encashment" then Some("leave_encashment")
    else None
  }

  /** A header that starts with the fund prefix: dated when its last token parses, unparsed otherwise. */
  function FundHeaderKind(t: string): Kind {
    match ParseDayMonthYear(LastField(t, ' '))
    case Some(d) => FundColumn(FundKey(d))
    case None => UnparsedFundHeader
  }

  /**
   * The classification of one header: the fixed fields on the trimmed,
   * lower-cased header; after them the fund-header test on the prefix
   * "closing balance as on", whose date is taken from the trimmed header.
   */
  function Classify(h: string): (k: Kind)
    ensures (k.FundColumn? || k == UnparsedFundHeader) ==> MatchesPrefixIgnoringCase(Lower(Trim(h)), FundHeaderPrefix)
    ensures k == Unrecognised ==> !MatchesPrefixIgnoringCase(Lower(Trim(h)), FundHeaderPrefix)
    ensures k.FundColumn? ==> StartsWith(k.key, FundKeyPrefix)
  {
    var t := Trim(h);
    var clean := Lower(t);
    match FieldFor(clean)
    case Some(n) => Field(n)
    case None => if MatchesPrefixIgnoringCase(clean, FundHeaderPrefix) then FundHeaderKind(t) else Unrecognised
  }

  /** The new name the loader gives a header of kind `k`, if any. */
  function NameOf(k: Kind): Option<string> {
    match k
    case Field(n) => Some(n)
    case FundColumn(key) => Some(key)
    case _ => None
  }

  /** The entry the loader puts into its rename dictionary for `h`, if any. */
  function NewName(h: string): Option<string> {
    NameOf(Classify(h))
  }

  /** The column name `h` has after `df.rename`: its new name, or `h` itself. */
  function Renamed(h: string): string {
    NewName(h).GetOr(h)
  }

  /** The column names after `df.rename`, in header order. */
  function RenamedHeaders(hs: seq<string>): (r: seq<string>)
    ensures |r| == |hs|
  {
    Map(Renamed, hs)
  }

  /** The classification of every header, in header order. */
  function ClassifyAll(hs: seq<string>): (ks: seq<Kind>)
    ensures |ks| == |hs|
  {
    Map(Classify, hs)
  }

  /** The loader's rename dictionary `new_cols` after it has seen the headers `hs`. */
  function RenameMap(hs: seq<string>): (m: map<string, string>)
    ensures forall h :: h in m ==> h in hs
  {
    if hs == [] then map[]
    else
      var m, h := RenameMap(hs[..|hs| - 1]), hs[|hs| - 1];
      assert forall x :: x in hs[..|hs| - 1] ==> x in hs;
      match NewName(h)
      case Some(n) => m[h := n]
      case None => m
  }

  /** The fund keys among `ks`, in order. */
  function KeysOf(ks: seq<Kind>): (r: seq<string>)
    ensures forall k :: k in r <==> FundColumn(k) in ks
  {
    if ks == [] then []
    else
      var init, k := ks[..|ks| - 1], ks[|ks| - 1];
      assert forall x :: x in ks <==> x in init || x == k by { assert ks == init + [k]; }
      KeysOf(init) + (if k.FundColumn? then [k.key] else [])
  }

  /** The headers of `hs` whose kind in `ks` is an unparsed fund header, in order. */
  function UnparsedOf(hs: seq<string>, ks: seq<Kind>): (r: seq<string>)
    requires |hs| == |ks|
    ensures forall h :: h in r <==> exists i :: 0 <= i < |hs| && hs[i] == h && ks[i] == UnparsedFundHeader
  {
    if hs == [] then []
    else
      var n := |hs| - 1;
      var r := UnparsedOf(hs[..n], ks[..n]);
      assert forall i :: 0 <= i < n ==> hs[..n][i] == hs[i] && ks[..n][i] == ks[i];
      r + (if ks[n] == UnparsedFundHeader then [hs[n]] else [])
  }

  /** The fund keys in header order (the loader's `fund_col_keys`). */
  function FundKeys(hs: seq<string>): (r: seq<string>)
    ensures forall k :: k in r ==> StartsWith(k, FundKeyPrefix)
  {
    var ks := ClassifyAll(hs);
    assert forall k :: FundColumn(k) in ks ==> StartsWith(k, FundKeyPrefix) by {
      forall k | FundColumn(k) in ks ensures StartsWith(k, FundKeyPrefix) {
        var i :| 0 <= i < |ks| && ks[i] == FundColumn(k);
        MapIndex(Classify, hs);
        assert Classify(hs[i]) == FundColumn(k);
      }
    }
    KeysOf(ks)
  }

  /** The fund headers whose date does not parse, in header order (the warnings). */
  function Unparsed(hs: seq<string>): (r: seq<string>)
    ensures forall h :: h in r ==> h in hs && Classify(h) == UnparsedFundHeader
  {
    var ks := ClassifyAll(hs);
    MapIndex(Classify, hs);
    UnparsedOf(hs, ks)
  }

  // ---------------------------------------------------------------------
  // Properties of the classification
  // ---------------------------------------------------------------------


  /** `a` and `b` are equal after lower-casing. */
  predicate SameUpToCase(a: string, b: string) {
    |a| == |b| && forall i :: 0 <= i < |a| ==> LowerChar(a[i]) == LowerChar(b[i])
  }

  lemma SameUpToCaseOfLower(a: string, b: string)
    requires Lower(a) == Lower(b)
    ensures SameUpToCase(a, b)
  {
    assert |a| == |Lower(a)| && |b| == |Lower(b)|;
    forall i | 0 <= i < |a| ensures LowerChar(a[i]) == LowerChar(b[i]) {
      assert Lower(a)[i] == Lower(b)[i];
    }
  }

  /** Lower-casing keeps spaces, and only spaces, as spaces, so it keeps the last field. */
  lemma {:induction false} LastFieldUpToCase(a: string, b: string)
    requires SameUpToCase(a, b)
    ensures SameUpToCase(LastField(a, ' '), LastField(b, ' '))
    decreases |a|
  {
    if a != [] {
      var n := |a| - 1;
      assert LowerChar(a[n]) == LowerChar(b[n]);
      assert a[n] == ' ' <==> b[n] == ' ';
      assert SameUpToCase(a[..n], b[..n]) by {
        forall i | 0 <= i < n ensures LowerChar(a[..n][i]) == LowerChar(b[..n][i]) {
          assert a[..n][i] == a[i] && b[..n][i] == b[i];
        }
      }
      LastFieldUpToCase(a[..n], b[..n]);
    }
  }

  /** A token the strict date parse accepts consists of digits and dots only. */
  lemma ParsedTokenChars(tok: string)
    requires ParseDayMonthYear(tok).Some?
    ensures forall i :: 0 <= i < |tok| ==> IsDigit(tok[i]) || tok[i] == '.'
  {
    var dd, mm, yyyy := ParsedFields(tok);
    var m, y := |dd| + 1, |dd| + |mm| + 2;
    forall i | 0 <= i < |tok| ensures IsDigit(tok[i]) || tok[i] == '.' {
      if i < |dd| {
        assert tok[i] == dd[i];
      } else if m <= i < y - 1 {
        assert tok[i] == mm[i - m];
      } else if y <= i {
        assert tok[i] == yyyy[i - y];
      }
    }
  }

  /** A text equal up to case to a text of digits and dots is that text. */
  lemma SameTokenUpToCase(a: string, b: string)
    requires SameUpToCase(a, b)
    requires forall i :: 0 <= i < |a| ==> IsDigit(a[i]) || a[i] == '.'
    ensures a == b
  {
    forall i | 0 <= i < |a| ensures a[i] == b[i] {
      assert LowerChar(a[i]) == LowerChar(b[i]);
    }
  }

  /** The date tokens of two headers equal up to case parse to the same result. */
  lemma SameDateUpToCase(t1: string, t2: string)
    requires Lower(t1) == Lower(t2)
    ensures ParseDayMonthYear(LastField(t1, ' ')) == ParseDayMonthYear(LastField(t2, ' '))
  {
    SameUpToCaseOfLower(t1, t2);
    LastFieldUpToCase(t1, t2);
    var f1, f2 := LastField(t1, ' '), LastField(t2, ' ');
    if ParseDayMonthYear(f1).Some? {
      ParsedTokenChars(f1);
      SameTokenUpToCase(f1, f2);
    } else if ParseDayMonthYear(f2).Some? {
      ParsedTokenChars(f2);
      assert SameUpToCase(f2, f1);
      SameTokenUpToCase(f2, f1);
    }
  }

  /**
   * The classification depends only on the trimmed, lower-cased header:
   * headers that differ in case give the same field name and the same fund key.
   */
  lemma ClassifyIgnoresCase(h1: string, h2: string)
    requires Lower(Trim(h1)) == Lower(Trim(h2))
    ensures Classify(h1) == Classify(h2)
  {
    var t1, t2 := Trim(h1), Trim(h2);
    SameDateUpToCase(t1, t2);
    SameParseSameKind(t1, t2);
    SameKindSameClass(h1, h2);
  }

  /** Fund headers whose tokens parse alike have the same kind. */
  lemma SameParseSameKind(t1: string, t2: string)
    requires ParseDayMonthYear(LastField(t1, ' ')) == ParseDayMonthYear(LastField(t2, ' '))
    ensures FundHeaderKind(t1) == FundHeaderKind(t2)
  {
  }

  /** Headers with the same cleaned text and the same fund-header kind are classified alike. */
  lemma SameKindSameClass(h1: string, h2: string)
    requires Lower(Trim(h1)) == Lower(Trim(h2))
    requires FundHeaderKind(Trim(h1)) == FundHeaderKind(Trim(h2))
    ensures Classify(h1) == Classify(h2)
  {
  }

  /** A header classified as a fund column is renamed to a well-formed fund key. */
  lemma FundColumnKey(h: string)
    ensures Classify(h).FundColumn? ==> IsFundKey(Classify(h).key)
  {
    if Classify(h).FundColumn? {
      KeyDateOfFundKey(ParseDayMonthYear(LastField(Trim(h), ' ')).value);
    }
  }

  /** Whitespace around a header does not change its classification. */
  lemma ClassifyIgnoresPadding(pre: string, h: string, post: string)
    requires AllSpace(pre) && AllSpace(post)
    ensures Classify(pre + (h + post)) == Classify(h)
  {
    TrimIgnoresPadding(pre, h, post);
  }

  /**
   * A header whose trimmed, lower-cased text is one of the seven field
   * headers gets that field's name, and only such a header is a field.
   */
  lemma FieldForTable(clean: string)
    ensures FieldFor(clean) == if clean in FieldTable then Some(FieldTable[clean]) else None
  {
  }

  lemma FixedFieldNames(h: string)
    ensures Lower(Trim(h)) in FieldTable ==> Classify(h) == Field(FieldTable[Lower(Trim(h))])
    ensures Classify(h).Field? ==> Lower(Trim(h)) in FieldTable && Classify(h).name in FieldTable.Values
  {
    var t := Trim(h);
    var clean := Lower(t);
    FieldForTable(clean);
    if clean in FieldTable {
      assert FieldFor(clean) == Some(FieldTable[clean]);
    } else {
      assert FieldFor(clean) == None;
      assert !FundHeaderKind(t).Field?;
    }
  }

  /**
   * A header that starts (ignoring case and padding) with "closing balance
   * as on" and ends in a token the strict parse accepts is the fund column of
   * that date; with any other ending it is reported and not renamed.
   */
  lemma FundHeaderKey(h: string)
    requires Lower(Trim(h)) !in FieldTable
    requires MatchesPrefixIgnoringCase(Lower(Trim(h)), FundHeaderPrefix)
    ensures ParseDayMonthYear(LastField(Trim(h), ' ')).Some? ==>
      && Classify(h) == FundColumn(FundKey(ParseDayMonthYear(LastField(Trim(h), ' ')).value))
      && KeyDate(Renamed(h)) == ParseDayMonthYear(LastField(Trim(h), ' '))
    ensures ParseDayMonthYear(LastField(Trim(h), ' ')).None? ==> Classify(h) == UnparsedFundHeader && Renamed(h) == h
  {
    var tok := LastField(Trim(h), ' ');
    if ParseDayMonthYear(tok).Some? {
      KeyDateOfFundKey(ParseDayMonthYear(tok).value);
    }
  }


  lemma ClassifyAllIndex(hs: seq<string>)
    ensures forall i :: 0 <= i < |hs| ==> ClassifyAll(hs)[i] == Classify(hs[i])
  {
    MapIndex(Classify, hs);
  }


  /** The fund keys are exactly the keys of the headers classified as fund columns. */
  lemma FundKeysMembers(hs: seq<string>)
    ensures forall k :: k in FundKeys(hs) <==> exists i :: 0 <= i < |hs| && Classify(hs[i]) == FundColumn(k)
    ensures forall h :: h in Unparsed(hs) <==> exists i :: 0 <= i < |hs| && hs[i] == h && Classify(hs[i]) == UnparsedFundHeader
  {
    var ks := ClassifyAll(hs);
    ClassifyAllIndex(hs);
    forall k ensures k in FundKeys(hs) <==> exists i :: 0 <= i < |hs| && Classify(hs[i]) == FundColumn(k) {
      if k in FundKeys(hs) {
        var i :| 0 <= i < |ks| && ks[i] == FundColumn(k);
        assert Classify(hs[i]) == FundColumn(k);
      }
      if i :| 0 <= i < |hs| && Classify(hs[i]) == FundColumn(k) {
        assert ks[i] == FundColumn(k);
      }
    }
  }

  /** `new_cols` maps exactly the recognised headers, each to its new name. */
  lemma {:induction false} RenameMapMembers(hs: seq<string>)
    ensures forall h :: h in RenameMap(hs) <==> h in hs && NewName(h).Some?
    ensures forall h :: h in RenameMap(hs) ==> RenameMap(hs)[h] == NewName(h).value
    decreases |hs|
  {
    if hs != [] {
      var n := |hs| - 1;
      RenameMapMembers(hs[..n]);
      assert forall x :: x in hs <==> x in hs[..n] || x == hs[n] by { assert hs == hs[..n] + [hs[n]]; }
    }
  }

  lemma {:induction false} KeysOfAppend(a: seq<Kind>, b: seq<Kind>)
    ensures KeysOf(a + b) == KeysOf(a) + KeysOf(b)
    decreases |b|
  {
    if b == [] {
      assert a + b == a;
    } else {
      var n := |b| - 1;
      assert (a + b)[..|a + b| - 1] == a + b[..n];
      assert (a + b)[|a + b| - 1] == b[n];
      KeysOfAppend(a, b[..n]);
    }
  }

  lemma {:induction false} UnparsedOfAppend(ha: seq<string>, ka: seq<Kind>, hb: seq<string>, kb: seq<Kind>)
    requires |ha| == |ka| && |hb| == |kb|
    ensures UnparsedOf(ha + hb, ka + kb) == UnparsedOf(ha, ka) + UnparsedOf(hb, kb)
    decreases |hb|
  {
    if hb == [] {
      assert ha + hb == ha && ka + kb == ka;
    } else {
      var n := |hb| - 1;
      assert (ha + hb)[..|ha + hb| - 1] == ha + hb[..n];
      assert (ka + kb)[..|ka + kb| - 1] == ka + kb[..n];
      UnparsedOfAppend(ha, ka, hb[..n], kb[..n]);
    }
  }

  lemma ClassifyAllAppend(a: seq<string>, b: seq<string>)
    ensures ClassifyAll(a + b) == ClassifyAll(a) + ClassifyAll(b)
  {
    MapAppend(Classify, a, b);
  }


  /** Classifying a longer header list extends the fund keys and warnings of the shorter one. */
  lemma FundKeysAppend(a: seq<string>, b: seq<string>)
    ensures FundKeys(a + b) == FundKeys(a) + FundKeys(b)
    ensures Unparsed(a + b) == Unparsed(a) + Unparsed(b)
  {
    ClassifyAllAppend(a, b);
    KeysOfAppend(ClassifyAll(a), ClassifyAll(b));
    UnparsedOfAppend(a, ClassifyAll(a), b, ClassifyAll(b));
  }

  lemma SingleUnparsed(h: string)
    requires Classify(h) == UnparsedFundHeader
    ensures FundKeys([h]) == [] && Unparsed([h]) == [h]
  {
    SingleHeader(h);
  }

  lemma SingleKind(h: string, k: Kind)
    ensures KeysOf([k]) == if k.FundColumn? then [k.key] else []
    ensures UnparsedOf([h], [k]) == if k == UnparsedFundHeader then [h] else []
  {
    assert [k][..0] == [] && [h][..0] == [];
    assert KeysOf([k][..0]) == KeysOf([]) == [];
    assert UnparsedOf([h][..0], [k][..0]) == UnparsedOf([], []) == [];
  }

  /**
   * A fund header whose date does not parse adds nothing to the fund keys,
   * is reported, and the headers after it are processed as usual.
   */
  lemma UnparsedHeaderIsSkipped(a: seq<string>, h: string, b: seq<string>)
    requires Classify(h) == UnparsedFundHeader
    ensures FundKeys(a + [h] + b) == FundKeys(a) + FundKeys(b)
    ensures Unparsed(a + [h] + b) == Unparsed(a) + [h] + Unparsed(b)
  {
    FundKeysAppend(a + [h], b);
    FundKeysAppend(a, [h]);
    SingleUnparsed(h);
    assert FundKeys(a) + [] == FundKeys(a);
  }

  // ---------------------------------------------------------------------
  // The loader
  // ---------------------------------------------------------------------

  /**
   * The body of the first loop of `load_data` for one header `col`: the
   * new name the `if`/`elif` chain gives it, whether that name is a fund
   * key, and whether the header is a fund header whose date does not parse.
   */
  method ClassifyHeader(col: string) returns (newName: Option<string>, isFund: bool, unparsed: bool)
    ensures newName == NewName(col)
    ensures isFund <==> Classify(col).FundColumn?
    ensures unparsed <==> Classify(col) == UnparsedFundHeader
  {
    newName, isFund, unparsed := None, false, false;
    var cleanCol := Lower(Trim(col));
    if cleanCol == "state" { newName := Some("state"); }
    else if cleanCol == "unit" { newName := Some("unit"); }
    else if cleanCol == "customer name" { newName := Some("customer_name"); }
    else if cleanCol == "segment" { newName := Some("segment"); }
    else if cleanCol == "gratuity" { newName := Some("gratuity"); }
    else if cleanCol == "superannuation" { newName := Some("superannuation"); }
    else if cleanCol == "leave encashment" { newName := Some("leave_encashment"); }
    else if MatchesPrefixIgnoringCase(cleanCol, FundHeaderPrefix) {
      var dateStr := LastField(Trim(col), ' ');
      match ParseDayMonthYear(dateStr) {
        case Some(d) =>
          newName := Some(FundKey(d));
          isFund := true;
        case None =>
          unparsed := true;
      }
    }
  }

  /** The first loop of `load_data`: the rename dictionary, the fund keys and the warnings. */
  method ClassifyHeaders(headers: seq<string>) returns (newCols: map<string, string>, fundKeys: seq<string>, warnings: seq<string>)
    ensures newCols == RenameMap(headers)
    ensures fundKeys == FundKeys(headers)
    ensures warnings == Unparsed(headers)
  {
    newCols, fundKeys, warnings := map[], [], [];
    for i := 0 to |headers|
      invariant newCols == RenameMap(headers[..i])
      invariant fundKeys == FundKeys(headers[..i])
      invariant warnings == Unparsed(headers[..i])
    {
      var col := headers[i];
      var newName, isFund, unparsed := ClassifyHeader(col);
      if newName.Some? {
        newCols := newCols[col := newName.value];
      }
      if isFund {
        fundKeys := fundKeys + [newName.value];
      }
      if unparsed {
        warnings := warnings + [col];
      }
      HeaderStep(headers, i);
    }
    assert headers[..|headers|] == headers;
  }

  /** What one more header adds to the dictionary, the fund keys and the warnings. */
  lemma HeaderStep(headers: seq<string>, i: int)
    requires 0 <= i < |headers|
    ensures RenameMap(headers[..i + 1]) ==
      match NewName(headers[i]) case Some(n) => RenameMap(headers[..i])[headers[i] := n] case None => RenameMap(headers[..i])
    ensures FundKeys(headers[..i + 1]) ==
      FundKeys(headers[..i]) + (if Classify(headers[i]).FundColumn? then [Classify(headers[i]).key] else [])
    ensures Unparsed(headers[..i + 1]) ==
      Unparsed(headers[..i]) + (if Classify(headers[i]) == UnparsedFundHeader then [headers[i]] else [])
  {
    var a, h := headers[..i], headers[i];
    assert headers[..i + 1] == a + [h];
    RenameStep(a, h);
    FundKeysAppend(a, [h]);
    SingleHeader(h);
  }

  lemma RenameStep(a: seq<string>, h: string)
    ensures RenameMap(a + [h]) ==
      match NewName(h) case Some(n) => RenameMap(a)[h := n] case None => RenameMap(a)
  {
    assert (a + [h])[..|a|] == a;
  }

  /** The fund keys and the warnings of a single header. */
  lemma SingleHeader(h: string)
    ensures FundKeys([h]) == if Classify(h).FundColumn? then [Classify(h).key] else []
    ensures Unparsed([h]) == if Classify(h) == UnparsedFundHeader then [h] else []
  {
    assert [h][..0] == [];
    assert ClassifyAll([h]) == [Classify(h)];
    SingleKind(h, Classify(h));
  }

  /** Every column named like a fund key is one, and its cell in `r` is a number or missing. */
  predicate FundCellsReady(columns: seq<string>, r: Row) {
    forall c :: c in columns && StartsWith(c, FundKeyPrefix) ==> IsFundKey(c) && c in r && !r[c].Text?
  }

  /** The name `df.rename(columns=newCols)` gives column `c`. */
  function RenameWith(c: string, newCols: map<string, string>): string {
    if c in newCols then newCols[c] else c
  }

  function RenameAll(cols: seq<string>, newCols: map<string, string>): (r: seq<string>)
    ensures |r| == |cols|
  {
    seq(|cols|, i requires 0 <= i < |cols| => RenameWith(cols[i], newCols))
  }

  /** `r` has a cell in every column of `cols` and in no other. */
  predicate RowOver(r: Row, cols: seq<string>) {
    (forall j :: 0 <= j < |cols| ==> cols[j] in r) && forall k :: k in r ==> k in cols
  }

  /** A row whose keys are renamed column by column. */
  function RenameRow(r: Row, cols: seq<string>, newCols: map<string, string>): (r': Row)
    requires forall c :: c in cols ==> c in r
    requires Distinct(RenameAll(cols, newCols))
    ensures RowOver(r', RenameAll(cols, newCols))
    ensures forall j :: 0 <= j < |cols| ==> r'[RenameAll(cols, newCols)[j]] == r[cols[j]]
  {
    var cells := seq(|cols|, j requires 0 <= j < |cols| => r[cols[j]]);
    RowOf(RenameAll(cols, newCols), cells)
  }

  /** The row holding `cells[j]` under `names[j]`. */
  function RowOf(names: seq<string>, cells: seq<Cell>): (r: Row)
    requires Distinct(names) && |cells| == |names|
    ensures RowOver(r, names)
    ensures forall j :: 0 <= j < |names| ==> r[names[j]] == cells[j]
  {
    var r := map j | 0 <= j < |names| :: names[j] := cells[j];
    assert forall k :: k in r <==> k in names by {
      forall k | k in names ensures k in r { var j :| 0 <= j < |names| && names[j] == k; }
    }
    r
  }

  /** The table being loaded (a `DataFrame`): its column names and its rows. */
  class Frame {
    var columns: seq<string>
    var rows: seq<Row>

    /** The columns are distinct and every row has a cell in every column and nowhere else. */
    ghost predicate Valid()
      reads this
    {
      && Distinct(columns)
      && (forall i, j :: 0 <= i < |rows| && 0 <= j < |columns| ==> columns[j] in rows[i])
      && (forall i, c :: 0 <= i < |rows| && c in rows[i] ==> c in columns)
    }

    /** The table as read from the spreadsheet. */
    constructor (columns: seq<string>, rows: seq<Row>)
      requires Distinct(columns)
      requires forall i, j :: 0 <= i < |rows| && 0 <= j < |columns| ==> columns[j] in rows[i]
      requires forall i, c :: 0 <= i < |rows| && c in rows[i] ==> c in columns
      ensures Valid() && this.columns == columns && this.rows == rows
    {
      this.columns := columns;
      this.rows := rows;
    }

    /**
     * `df.rename(columns=newCols, inplace=True)`: every column in `newCols`
     * takes its new name, every other keeps its own, and every cell stays in its column.
     */
    method Rename(newCols: map<string, string>)
      requires Valid()
      requires Distinct(RenameAll(columns, newCols))
      modifies this
      ensures Valid()
      ensures columns == RenameAll(old(columns), newCols)
      ensures |rows| == |old(rows)|
      ensures forall i, j :: 0 <= i < |rows| && 0 <= j < |columns| ==> rows[i][columns[j]] == old(rows)[i][old(columns)[j]]
    {
      var cols, rs := columns, rows;
      assert forall i, c :: 0 <= i < |rs| && c in cols ==> c in rs[i] by {
        forall i, c | 0 <= i < |rs| && c in cols ensures c in rs[i] { var j :| 0 <= j < |cols| && cols[j] == c; }
      }
      rows := seq(|rs|, i requires 0 <= i < |rs| => RenameRow(rs[i], cols, newCols));
      columns := RenameAll(cols, newCols);
    }

    /** `df[key] = pd.to_numeric(df[key], errors='coerce')`: only column `key` changes. */
    method CoerceColumn(key: string, toNumber: string -> Option<real>)
      requires Valid() && key in columns
      modifies this
      ensures Valid() && columns == old(columns) && |rows| == |old(rows)|
      ensures forall i, c :: 0 <= i < |rows| && c in columns ==>
        rows[i][c] == if c == key then Coerce(old(rows)[i][c], toNumber) else old(rows)[i][c]
    {
      var rs := rows;
      rows := seq(|rs|, i requires 0 <= i < |rs| => rs[i][key := Coerce(rs[i][key], toNumber)]);
      assert forall i :: 0 <= i < |rows| ==> rows[i].Keys == rs[i].Keys;
    }

    /** The loader's loop over the fund keys: every column named among `keys` is coerced, once. */
    method CoerceAll(keys: seq<string>, toNumber: string -> Option<real>)
      requires Valid()
      modifies this
      ensures Valid() && columns == old(columns) && |rows| == |old(rows)|
      ensures forall i, c :: 0 <= i < |rows| && c in columns ==>
        rows[i][c] == if c in keys then Coerce(old(rows)[i][c], toNumber) else old(rows)[i][c]
    {
      ghost var rs := rows;
      for k := 0 to |keys|
        invariant Valid() && columns == old(columns) && |rows| == |rs|
        invariant forall i, c :: 0 <= i < |rows| && c in columns ==>
          rows[i][c] == if c in keys[..k] then Coerce(rs[i][c], toNumber) else rs[i][c]
      {
        var key := keys[k];
        if key in columns {
          CoerceColumn(key, toNumber);
        }
        forall c: Cell ensures Coerce(Coerce(c, toNumber), toNumber) == Coerce(c, toNumber) {
          CoerceIdempotent(c, toNumber);
        }
        assert keys[..k + 1] == keys[..k] + [key];
      }
      assert keys[..|keys|] == keys;
    }
  }

  lemma CoerceIdempotent(c: Cell, toNumber: string -> Option<real>)
    ensures Coerce(Coerce(c, toNumber), toNumber) == Coerce(c, toNumber)
  {
  }

  /** Renaming by the loader's dictionary gives every header its `Renamed` name. */
  lemma RenamedByDictionary(headers: seq<string>)
    ensures RenameAll(headers, RenameMap(headers)) == RenamedHeaders(headers)
  {
    RenameMapMembers(headers);
    MapIndex(Renamed, headers);
    forall j | 0 <= j < |headers| ensures RenameAll(headers, RenameMap(headers))[j] == RenamedHeaders(headers)[j] {
      var h := headers[j];
      assert h in headers;
    }
  }

  /** With distinct new names, a column is coerced exactly when its header is a dated fund header. */
  lemma CoercedColumns(headers: seq<string>)
    requires Distinct(RenamedHeaders(headers))
    ensures forall j :: 0 <= j < |headers| ==>
      (RenamedHeaders(headers)[j] in FundKeys(headers) <==> ClassifyAll(headers)[j].FundColumn?)
  {
    var names := RenamedHeaders(headers);
    MapIndex(Renamed, headers);
    ClassifyAllIndex(headers);
    FundKeysMembers(headers);
    forall j | 0 <= j < |headers| ensures names[j] in FundKeys(headers) <==> Classify(headers[j]).FundColumn? {
      if names[j] in FundKeys(headers) {
        var j' :| 0 <= j' < |headers| && Classify(headers[j']) == FundColumn(names[j]);
        assert names[j'] == names[j];
      }
      if Classify(headers[j]).FundColumn? {
        assert names[j] == Classify(headers[j]).key;
      }
    }
  }

  /**
   * A header not itself starting with "fund_" gets a name starting with
   * "fund_" only as a dated fund column, and that name is a fund key.
   */
  lemma FundPrefixedName(h: string)
    requires !StartsWith(h, FundKeyPrefix)
    ensures StartsWith(Renamed(h), FundKeyPrefix) ==> Classify(h).FundColumn? && IsFundKey(Renamed(h))
  {
    FundColumnKey(h);
    if Classify(h).Field? {
      FixedFieldNames(h);
      assert Renamed(h) in FieldTable.Values;
      NoFieldNameIsFundKey();
    }
  }

  /** None of the seven field names starts with "fund_". */
  lemma NoFieldNameIsFundKey()
    ensures forall n :: n in FieldTable.Values ==> !StartsWith(n, FundKeyPrefix)
  {
    forall n | n in FieldTable.Values ensures !StartsWith(n, FundKeyPrefix) {
      var k :| k in FieldTable && FieldTable[k] == n;
      assert n[0] != 'f';
    }
  }

  /**
   * When no header of the spreadsheet itself starts with "fund_", the only
   * columns whose new name starts with it are the dated fund columns.
   */
  lemma FundPrefixedNames(headers: seq<string>)
    requires forall h :: h in headers ==> !StartsWith(h, FundKeyPrefix)
    ensures forall j :: 0 <= j < |headers| && StartsWith(RenamedHeaders(headers)[j], FundKeyPrefix) ==>
      ClassifyAll(headers)[j].FundColumn? && IsFundKey(RenamedHeaders(headers)[j])
  {
    MapIndex(Renamed, headers);
    ClassifyAllIndex(headers);
    forall j | 0 <= j < |headers|
      ensures StartsWith(Renamed(headers[j]), FundKeyPrefix) ==> Classify(headers[j]).FundColumn? && IsFundKey(Renamed(headers[j]))
    {
      assert headers[j] in headers;
      FundPrefixedName(headers[j]);
    }
  }

  /**
   * The cells of the loaded table, column by column: renaming moves every
   * cell to its column's new name, and the fund-key loop coerces exactly the
   * columns whose header has kind `FundColumn`.
   */
  lemma LoadedCells(headers: seq<string>, names: seq<string>, kinds: seq<Kind>, fundKeys: seq<string>,
                    table: seq<Row>, renamed: seq<Row>, rows: seq<Row>, toNumber: string -> Option<real>)
    requires |names| == |headers| && |kinds| == |headers|
    requires forall j :: 0 <= j < |headers| ==> (names[j] in fundKeys <==> kinds[j].FundColumn?)
    requires |renamed| == |table| && |rows| == |table|
    requires forall i, j :: 0 <= i < |table| && 0 <= j < |headers| ==> headers[j] in table[i]
    requires forall i, j :: 0 <= i < |table| && 0 <= j < |names| ==> names[j] in renamed[i] && names[j] in rows[i]
    requires forall i, j :: 0 <= i < |table| && 0 <= j < |headers| ==> renamed[i][names[j]] == table[i][headers[j]]
    requires forall i, c :: 0 <= i < |table| && c in names && c in renamed[i] && c in rows[i] ==>
      rows[i][c] == if c in fundKeys then Coerce(renamed[i][c], toNumber) else renamed[i][c]
    ensures forall i, j :: 0 <= i < |table| && 0 <= j < |headers| ==>
      rows[i][names[j]] == if kinds[j].FundColumn? then Coerce(table[i][headers[j]], toNumber) else table[i][headers[j]]
  {
    forall i, j | 0 <= i < |table| && 0 <= j < |headers|
      ensures rows[i][names[j]] == if kinds[j].FundColumn? then Coerce(table[i][headers[j]], toNumber) else table[i][headers[j]]
    {
      var c := names[j];
      assert c in names;
      assert rows[i][c] == if c in fundKeys then Coerce(renamed[i][c], toNumber) else renamed[i][c];
    }
  }

  /**
   * When every "fund_" column comes from a dated fund header and those
   * columns hold no text, every row of the table is ready for the fund view.
   */
  lemma FundCellsAfterLoad(names: seq<string>, kinds: seq<Kind>, rows: seq<Row>)
    requires |kinds| == |names|
    requires forall j :: 0 <= j < |names| && StartsWith(names[j], FundKeyPrefix) ==> kinds[j].FundColumn? && IsFundKey(names[j])
    requires forall i, j :: 0 <= i < |rows| && 0 <= j < |names| ==> names[j] in rows[i]
    requires forall i, j :: 0 <= i < |rows| && 0 <= j < |names| && kinds[j].FundColumn? ==> !rows[i][names[j]].Text?
    ensures forall i :: 0 <= i < |rows| ==> FundCellsReady(names, rows[i])
  {
    forall i, c | 0 <= i < |rows| && c in names && StartsWith(c, FundKeyPrefix)
      ensures IsFundKey(c) && c in rows[i] && !rows[i][c].Text?
    {
      var j :| 0 <= j < |names| && names[j] == c;
    }
  }

  /**
   * `load_data` on a spreadsheet already read into `headers` and `table`.
   * Two headers that would receive the same name are outside the model
   * (pandas would then hold two columns of that name).
   */
  method LoadData(headers: seq<string>, table: seq<Row>, toNumber: string -> Option<real>) returns (df: Frame, warnings: seq<string>)
    requires Distinct(headers)
    requires forall i, j :: 0 <= i < |table| && 0 <= j < |headers| ==> headers[j] in table[i]
    requires forall i, c :: 0 <= i < |table| && c in table[i] ==> c in headers
    requires Distinct(RenamedHeaders(headers))
    ensures fresh(df) && df.Valid()
    ensures df.columns == RenamedHeaders(headers)
    ensures |df.rows| == |table|
    ensures forall i, j :: 0 <= i < |table| && 0 <= j < |headers| ==>
      df.rows[i][df.columns[j]] ==
        if ClassifyAll(headers)[j].FundColumn? then Coerce(table[i][headers[j]], toNumber) else table[i][headers[j]]
    ensures warnings == Unparsed(headers)
    ensures (forall h :: h in headers ==> !StartsWith(h, FundKeyPrefix)) ==>
      forall i :: 0 <= i < |df.rows| ==> FundCellsReady(df.columns, df.rows[i])
  {
    df := new Frame(headers, table);
    var newCols, fundKeys;
    newCols, fundKeys, warnings := ClassifyHeaders(headers);
    RenamedByDictionary(headers);
    df.Rename(newCols);
    ghost var renamed := df.rows;
    df.CoerceAll(fundKeys, toNumber);
    LoadedTable(headers, table, toNumber, df.columns, fundKeys, renamed, df.rows);
  }

  /**
   * The loader's steps put together: after renaming by the dictionary and
   * coercing the fund keys, every cell sits under its header's new name,
   * coerced exactly when the header is a dated fund header.
   */
  lemma LoadedTable(headers: seq<string>, table: seq<Row>, toNumber: string -> Option<real>,
                    cols: seq<string>, fundKeys: seq<string>, renamed: seq<Row>, rows: seq<Row>)
    requires Distinct(RenamedHeaders(headers))
    requires forall i, j :: 0 <= i < |table| && 0 <= j < |headers| ==> headers[j] in table[i]
    requires cols == RenamedHeaders(headers) && fundKeys == FundKeys(headers)
    requires |renamed| == |table| && |rows| == |table|
    requires forall i, j :: 0 <= i < |renamed| && 0 <= j < |cols| ==> cols[j] in renamed[i]
    requires forall i, j :: 0 <= i < |rows| && 0 <= j < |cols| ==> cols[j] in rows[i]
    requires forall i, j :: 0 <= i < |renamed| && 0 <= j < |cols| ==> renamed[i][cols[j]] == table[i][headers[j]]
    requires forall i, c :: 0 <= i < |rows| && c in cols && c in rows[i] && c in renamed[i] ==>
      rows[i][c] == if c in fundKeys then Coerce(renamed[i][c], toNumber) else renamed[i][c]
    ensures forall i, j :: 0 <= i < |table| && 0 <= j < |headers| ==>
      rows[i][cols[j]] ==
        if ClassifyAll(headers)[j].FundColumn? then Coerce(table[i][headers[j]], toNumber) else table[i][headers[j]]
    ensures (forall h :: h in headers ==> !StartsWith(h, FundKeyPrefix)) ==>
      forall i :: 0 <= i < |rows| ==> FundCellsReady(cols, rows[i])
  {
    CoercedColumns(headers);
    LoadedCells(headers, cols, ClassifyAll(headers), fundKeys, table, renamed, rows, toNumber);
    if forall h :: h in headers ==> !StartsWith(h, FundKeyPrefix) {
      LoadedFundCellsReady(headers, table, rows, toNumber);
    }
  }

  /** The loaded rows are ready for the fund view when no raw header starts with "fund_". */
  lemma LoadedFundCellsReady(headers: seq<string>, table: seq<Row>, rows: seq<Row>, toNumber: string -> Option<real>)
    requires forall h :: h in headers ==> !StartsWith(h, FundKeyPrefix)
    requires |rows| == |table|
    requires forall i, j :: 0 <= i < |rows| && 0 <= j < |headers| ==> RenamedHeaders(headers)[j] in rows[i]
    requires forall i, j :: 0 <= i < |table| && 0 <= j < |headers| ==> headers[j] in table[i]
    requires forall i, j :: 0 <= i < |table| && 0 <= j < |headers| ==>
      rows[i][RenamedHeaders(headers)[j]] ==
        if ClassifyAll(headers)[j].FundColumn? then Coerce(table[i][headers[j]], toNumber) else table[i][headers[j]]
    ensures forall i :: 0 <= i < |rows| ==> FundCellsReady(RenamedHeaders(headers), rows[i])
  {
    FundPrefixedNames(headers);
    FundCellsAfterLoad(RenamedHeaders(headers), ClassifyAll(headers), rows);
  }
}
