/**
 * Calendar dates as the loader parses and prints them: the strict
 * `DD.MM.YYYY` parse of a fund-column header, the `YYYY-MM-DD` form the
 * fund keys carry, and the `DD.MM.YYYY` form shown next to the latest fund
 * value. Only dates a pandas nanosecond `Timestamp` can hold are accepted.
 */
module Dates {
  import opened Wrappers
  import opened Strings

  datatype Date = Date(year: int, month: int, day: int)

  predicate IsLeapYear(y: int) {
    y % 4 == 0 && (y % 100 != 0 || y % 400 == 0)
  }

  function DaysInMonth(y: int, m: int): (n: int)
    requires 1 <= m <= 12
    ensures 28 <= n <= 31
  {
    if m == 2 then (if IsLeapYear(y) then 29 else 28)
    else if m == 4 || m == 6 || m == 9 || m == 11 then 30
    else 31
  }

  /** A day of the proleptic Gregorian calendar, as Python's `datetime` admits it. */
  predicate IsCalendarDate(d: Date) {
    1 <= d.year && 1 <= d.month <= 12 && 1 <= d.day <= DaysInMonth(d.year, d.month)
  }

  /** Chronological order. */
  predicate Before(a: Date, b: Date) {
    || a.year < b.year
    || (a.year == b.year && (a.month < b.month || (a.month == b.month && a.day < b.day)))
  }

  /** The first and last midnight inside pandas' nanosecond `Timestamp` range. */
  const FirstTimestampDay := Date(1677, 9, 22)
  const LastTimestampDay := Date(2262, 4, 11)

  /** A date `pd.to_datetime` returns rather than rejecting as out of bounds. */
  predicate IsTimestampDate(d: Date) {
    IsCalendarDate(d) && !Before(d, FirstTimestampDay) && !Before(LastTimestampDay, d)
  }

  lemma BeforeIsStrictOrder(a: Date, b: Date, c: Date)
    ensures !Before(a, a)
    ensures Before(a, b) && Before(b, c) ==> Before(a, c)
    ensures a == b || Before(a, b) || Before(b, a)
  {
  }

  /**
   * `pd.to_datetime(tok, format='%d.%m.%Y')`: a day of one or two digits,
   * a dot, a month of one or two digits, a dot and exactly four year digits,
   * nothing else; the day and month must name a calendar date inside the
   * `Timestamp` range. `None` is the `ValueError` the loader catches.
   */
  function ParseDayMonthYear(tok: string): (r: Option<Date>)
    ensures r.Some? ==> IsTimestampDate(r.value)
  {
    match IndexOf(tok, '.')
    case None => None
    case Some(i) =>
      var dd, rest := tok[..i], tok[i + 1..];
      match IndexOf(rest, '.')
      case None => None
      case Some(j) =>
        var mm, yyyy := rest[..j], rest[j + 1..];
        if && 1 <= |dd| <= 2 && AllDigits(dd)
           && 1 <= |mm| <= 2 && AllDigits(mm)
           && |yyyy| == 4 && AllDigits(yyyy)
           && IsTimestampDate(Date(Value(yyyy), Value(mm), Value(dd)))
        then Some(Date(Value(yyyy), Value(mm), Value(dd)))
        else None
  }

  /** `strftime('%Y-%m-%d')`. */
  function FormatIso(d: Date): (s: string)
    requires IsTimestampDate(d)
    ensures |s| == 10 && s[4] == '-' && s[7] == '-'
    ensures AllDigits(s[..4]) && AllDigits(s[5..7]) && AllDigits(s[8..])
  {
    Pad(d.year, 4) + ("-" + (Pad(d.month, 2) + ("-" + Pad(d.day, 2))))
  }

  /** `strftime('%d.%m.%Y')`. */
  function FormatDayMonthYear(d: Date): (s: string)
    requires IsTimestampDate(d)
    ensures |s| == 10 && s[2] == '.' && s[5] == '.'
    ensures AllDigits(s[..2]) && AllDigits(s[3..5]) && AllDigits(s[6..])
  {
    Pad(d.day, 2) + ("." + (Pad(d.month, 2) + ("." + Pad(d.year, 4))))
  }

  /**
   * `pd.to_datetime(s)` on a `YYYY-MM-DD` string. The model accepts exactly
   * the zero-padded form, which is the only form the fund keys carry.
   */
  function ParseIso(s: string): (r: Option<Date>)
    ensures r.Some? ==> IsTimestampDate(r.value)
  {
    if && |s| == 10 && s[4] == '-' && s[7] == '-'
       && AllDigits(s[..4]) && AllDigits(s[5..7]) && AllDigits(s[8..])
       && IsTimestampDate(Date(Value(s[..4]), Value(s[5..7]), Value(s[8..])))
    then Some(Date(Value(s[..4]), Value(s[5..7]), Value(s[8..])))
    else None
  }

  /** Joining three digit fields of the right widths with dashes gives a string `ParseIso` reads back field by field. */
  lemma ParseIsoJoin(yyyy: string, mm: string, dd: string)
    requires |yyyy| == 4 && |mm| == 2 && |dd| == 2
    requires AllDigits(yyyy) && AllDigits(mm) && AllDigits(dd)
    requires IsTimestampDate(Date(Value(yyyy), Value(mm), Value(dd)))
    ensures ParseIso(yyyy + ("-" + (mm + ("-" + dd)))) == Some(Date(Value(yyyy), Value(mm), Value(dd)))
  {
    var s := yyyy + ("-" + (mm + ("-" + dd)));
    assert s[..4] == yyyy && s[4] == '-';
    assert s[5..7] == mm && s[7] == '-';
    assert s[8..] == dd;
  }

  lemma ParseFormatIso(d: Date)
    requires IsTimestampDate(d)
    ensures ParseIso(FormatIso(d)) == Some(d)
  {
    var yyyy, mm, dd := Pad(d.year, 4), Pad(d.month, 2), Pad(d.day, 2);
    ValueOfPad(d.year, 4);
    ValueOfPad(d.month, 2);
    ValueOfPad(d.day, 2);
    assert Date(Value(yyyy), Value(mm), Value(dd)) == d;
    ParseIsoJoin(yyyy, mm, dd);
  }

  lemma FormatParseIso(s: string)
    requires ParseIso(s).Some?
    ensures FormatIso(ParseIso(s).value) == s
  {
    PadOfValue(s[..4]);
    PadOfValue(s[5..7]);
    PadOfValue(s[8..]);
    assert s == s[..4] + ("-" + (s[5..7] + ("-" + s[8..])));
  }

  /** The three fields `ParseDayMonthYear` cuts a token with two dots into. */
  lemma SplitDayMonthYear(dd: string, mm: string, yyyy: string)
    requires '.' !in dd && '.' !in mm
    ensures var tok := dd + ("." + (mm + ("." + yyyy)));
      && IndexOf(tok, '.') == Some(|dd|)
      && tok[..|dd|] == dd
      && IndexOf(tok[|dd| + 1..], '.') == Some(|mm|)
      && tok[|dd| + 1..][..|mm|] == mm
      && tok[|dd| + 1..][|mm| + 1..] == yyyy
  {
    var rest := mm + ("." + yyyy);
    var tok := dd + ("." + rest);
    assert tok == dd + ['.'] + rest;
    IndexOfJoin(dd, '.', rest);
    assert tok[|dd| + 1..] == rest;
    assert rest == mm + ['.'] + yyyy;
    IndexOfJoin(mm, '.', yyyy);
  }

  /** Printing the date three zero-padded digit fields denote gives back those fields. */
  lemma FormatOfFields(dd: string, mm: string, yyyy: string)
    requires |dd| == 2 && |mm| == 2 && |yyyy| == 4
    requires AllDigits(dd) && AllDigits(mm) && AllDigits(yyyy)
    requires IsTimestampDate(Date(Value(yyyy), Value(mm), Value(dd)))
    ensures FormatDayMonthYear(Date(Value(yyyy), Value(mm), Value(dd))) == dd + ("." + (mm + ("." + yyyy)))
  {
    PadOfValue(dd);
    PadOfValue(mm);
    PadOfValue(yyyy);
  }

  /** A token that parses is its day, month and year digit fields joined by dots, and denotes their date. */
  lemma ParsedFields(tok: string) returns (dd: string, mm: string, yyyy: string)
    requires ParseDayMonthYear(tok).Some?
    ensures tok == dd + ("." + (mm + ("." + yyyy)))
    ensures 1 <= |dd| <= 2 && 1 <= |mm| <= 2 && |yyyy| == 4
    ensures AllDigits(dd) && AllDigits(mm) && AllDigits(yyyy)
    ensures ParseDayMonthYear(tok) == Some(Date(Value(yyyy), Value(mm), Value(dd)))
  {
    var i := IndexOf(tok, '.').value;
    var rest := tok[i + 1..];
    var j := IndexOf(rest, '.').value;
    dd, mm, yyyy := tok[..i], rest[..j], rest[j + 1..];
    assert rest == mm + ("." + yyyy);
    assert tok == dd + ("." + rest);
  }

  /** Printing a parsed date gives back the header's token when that token was zero-padded. */
  lemma FormatParseDayMonthYear(tok: string)
    requires |tok| == 10 && ParseDayMonthYear(tok).Some?
    ensures FormatDayMonthYear(ParseDayMonthYear(tok).value) == tok
  {
    var dd, mm, yyyy := ParsedFields(tok);
    assert |tok| == |dd| + |mm| + 6;
    FormatOfFields(dd, mm, yyyy);
  }

  /** Every printed date parses back to itself. */
  lemma ParseFormatDayMonthYear(d: Date)
    requires IsTimestampDate(d)
    ensures ParseDayMonthYear(FormatDayMonthYear(d)) == Some(d)
  {
    var dd, mm, yyyy := Pad(d.day, 2), Pad(d.month, 2), Pad(d.year, 4);
    assert '.' !in dd && '.' !in mm by {
      assert forall k :: 0 <= k < 2 ==> IsDigit(dd[k]) && IsDigit(mm[k]);
    }
    SplitDayMonthYear(dd, mm, yyyy);
    ValueOfPad(d.year, 4);
    ValueOfPad(d.month, 2);
    ValueOfPad(d.day, 2);
  }

  /** ISO strings sort as strings in chronological order. */
  lemma IsoOrder(a: Date, b: Date)
    requires IsTimestampDate(a) && IsTimestampDate(b)
    ensures LexLess(FormatIso(a), FormatIso(b)) <==> Before(a, b)
  {
    var ya, ma, da := Pad(a.year, 4), Pad(a.month, 2), Pad(a.day, 2);
    var yb, mb, db := Pad(b.year, 4), Pad(b.month, 2), Pad(b.day, 2);
    PadOrder(a.year, b.year, 4);
    PadOrder(a.month, b.month, 2);
    PadOrder(a.day, b.day, 2);
    PadInjective(a.year, b.year, 4);
    PadInjective(a.month, b.month, 2);
    LexIrreflexive("-");
    LexConcat(ya, "-" + (ma + ("-" + da)), yb, "-" + (mb + ("-" + db)));
    LexConcat("-", ma + ("-" + da), "-", mb + ("-" + db));
    LexConcat(ma, "-" + da, mb, "-" + db);
    LexConcat("-", da, "-", db);
    assert "-" + (ma + ("-" + da)) == "-" + (mb + ("-" + db)) <==> ma + ("-" + da) == mb + ("-" + db);
  }

  /** Two dates print to the same ISO string only when they are the same date. */
  lemma IsoInjective(a: Date, b: Date)
    requires IsTimestampDate(a) && IsTimestampDate(b)
    ensures FormatIso(a) == FormatIso(b) <==> a == b
  {
    ParseFormatIso(a);
    ParseFormatIso(b);
  }
}
