/**
 * The string operations the loader and the query layer use, as Python
 * defines them: `str.strip`, `str.lower`/`str.upper` on the characters that
 * matter here, `startswith`, `re.match` of a literal with IGNORECASE,
 * `split(sep)[-1]`, and the code-point order `<` that `sorted` uses.
 * Also fixed-width decimal digits, for the date formats.
 */
module Strings {
  import opened Wrappers

  // ---------------------------------------------------------------------
  // Whitespace and trimming
  // ---------------------------------------------------------------------

  /** The characters for which Python's `str.isspace()` holds; `str.strip()` removes these. */
  predicate IsSpace(c: char) {
    || c == ' '
    || '\t' <= c <= '\r'
    || '\U{1C}' <= c <= '\U{1F}'
    || c == '\U{85}' || c == '\U{A0}' || c == '\U{1680}'
    || '\U{2000}' <= c <= '\U{200A}'
    || c == '\U{2028}' || c == '\U{2029}' || c == '\U{202F}' || c == '\U{205F}' || c == '\U{3000}'
  }

  predicate AllSpace(s: string) {
    forall i :: 0 <= i < |s| ==> IsSpace(s[i])
  }

  /** `s` without its leading whitespace. */
  function TrimLeft(s: string): (r: string)
    ensures |r| <= |s| && r == s[|s| - |r|..]
  {
    if s != [] && IsSpace(s[0]) then TrimLeft(s[1..]) else s
  }

  /** `s` without its trailing whitespace. */
  function TrimRight(s: string): (r: string)
    ensures |r| <= |s| && r == s[..|r|]
  {
    if s != [] && IsSpace(s[|s| - 1]) then TrimRight(s[..|s| - 1]) else s
  }

  /** What `TrimLeft` cuts off is whitespace, and what it keeps does not start with any. */
  lemma {:induction false} TrimLeftCuts(s: string)
    ensures forall i :: 0 <= i < |s| - |TrimLeft(s)| ==> IsSpace(s[i])
    ensures TrimLeft(s) == [] || !IsSpace(TrimLeft(s)[0])
  {
    if s != [] && IsSpace(s[0]) {
      var u := s[1..];
      TrimLeftCuts(u);
      assert TrimLeft(s) == TrimLeft(u);
      forall i | 0 <= i < |s| - |TrimLeft(s)| ensures IsSpace(s[i]) {
        if i > 0 {
          assert s[i] == u[i - 1];
        }
      }
    }
  }

  /** What `TrimRight` cuts off is whitespace, and what it keeps does not end with any. */
  lemma {:induction false} TrimRightCuts(s: string)
    ensures forall i :: |TrimRight(s)| <= i < |s| ==> IsSpace(s[i])
    ensures TrimRight(s) == [] || !IsSpace(TrimRight(s)[|TrimRight(s)| - 1])
  {
    if s != [] && IsSpace(s[|s| - 1]) {
      var u := s[..|s| - 1];
      TrimRightCuts(u);
      assert TrimRight(s) == TrimRight(u);
      forall i | |TrimRight(s)| <= i < |s| ensures IsSpace(s[i]) {
        if i < |u| {
          assert s[i] == u[i];
        }
      }
    }
  }

  /** `s` is `r` at offset `i` with only whitespace before and after it. */
  predicate Padded(s: string, i: int, r: string) {
    0 <= i <= |s| - |r| && r == s[i..][..|r|] && AllSpace(s[..i]) && AllSpace(s[i..][|r|..])
  }

  /** Python's `str.strip()` with no argument. */
  function Trim(s: string): string {
    TrimRight(TrimLeft(s))
  }

  /**
   * `str.strip()` returns the part of `s` between its leading and its
   * trailing whitespace: neither end of the result is whitespace, and
   * everything cut off on either side is.
   */
  lemma TrimStrips(s: string)
    ensures Trim(s) == [] || (!IsSpace(Trim(s)[0]) && !IsSpace(Trim(s)[|Trim(s)| - 1]))
    ensures exists i :: Padded(s, i, Trim(s))
  {
    TrimStripsOf(s, TrimLeft(s), Trim(s));
  }

  lemma TrimStripsOf(s: string, t: string, r: string)
    requires t == TrimLeft(s) && r == TrimRight(t)
    ensures r == [] || (!IsSpace(r[0]) && !IsSpace(r[|r| - 1]))
    ensures exists i :: Padded(s, i, r)
  {
    TrimLeftCuts(s);
    TrimRightCuts(t);
    TrimShape(s, t, r);
  }

  /**
   * A suffix `t` of `s` after leading whitespace, cut to a prefix `r` before
   * trailing whitespace, is a slice of `s` with only whitespace around it.
   */
  lemma TrimShape(s: string, t: string, r: string)
    requires |t| <= |s| && t == s[|s| - |t|..]
    requires forall i :: 0 <= i < |s| - |t| ==> IsSpace(s[i])
    requires |r| <= |t| && r == t[..|r|]
    requires forall i :: |r| <= i < |t| ==> IsSpace(t[i])
    requires (t == [] || !IsSpace(t[0])) && (r == [] || !IsSpace(r[|r| - 1]))
    ensures r == [] || (!IsSpace(r[0]) && !IsSpace(r[|r| - 1]))
    ensures exists i :: Padded(s, i, r)
  {
    var i := |s| - |t|;
    forall j | 0 <= j < |s[..i]| ensures IsSpace(s[..i][j]) {
      assert s[..i][j] == s[j];
    }
    forall j | 0 <= j < |t[|r|..]| ensures IsSpace(t[|r|..][j]) {
      assert t[|r|..][j] == t[|r| + j];
    }
    assert Padded(s, i, r);
  }

  lemma {:induction false} TrimLeftPrefix(pre: string, t: string)
    requires AllSpace(pre)
    ensures TrimLeft(pre + t) == TrimLeft(t)
  {
    if pre != [] {
      assert (pre + t)[0] == pre[0] && IsSpace(pre[0]);
      assert (pre + t)[1..] == pre[1..] + t;
      TrimLeftPrefix(pre[1..], t);
    } else {
      assert pre + t == t;
    }
  }

  lemma {:induction false} TrimRightSuffix(t: string, post: string)
    requires AllSpace(post)
    ensures TrimRight(t + post) == TrimRight(t)
  {
    if post != [] {
      var n := |post| - 1;
      assert (t + post)[|t + post| - 1] == post[n] && IsSpace(post[n]);
      assert (t + post)[..|t + post| - 1] == t + post[..n];
      TrimRightSuffix(t, post[..n]);
    } else {
      assert t + post == t;
    }
  }

  lemma {:induction false} TrimBothSuffix(t: string, post: string)
    requires AllSpace(post)
    ensures TrimRight(TrimLeft(t + post)) == TrimRight(TrimLeft(t))
  {
    if t == [] {
      assert t + post == post + [];
      TrimLeftPrefix(post, []);
      assert TrimLeft(t + post) == [] == TrimLeft(t);
    } else if IsSpace(t[0]) {
      assert (t + post)[0] == t[0];
      assert (t + post)[1..] == t[1..] + post;
      assert TrimLeft(t + post) == TrimLeft(t[1..] + post);
      assert TrimLeft(t) == TrimLeft(t[1..]);
      TrimBothSuffix(t[1..], post);
    } else {
      assert (t + post)[0] == t[0];
      assert TrimLeft(t + post) == t + post;
      assert TrimLeft(t) == t;
      TrimRightSuffix(t, post);
    }
  }

  /** Whitespace around a header does not change what `strip()` gives. */
  lemma TrimIgnoresPadding(pre: string, s: string, post: string)
    requires AllSpace(pre) && AllSpace(post)
    ensures Trim(pre + (s + post)) == Trim(s)
  {
    TrimLeftPrefix(pre, s + post);
    TrimBothSuffix(s, post);
  }

  // ---------------------------------------------------------------------
  // Case
  // ---------------------------------------------------------------------

  function LowerChar(c: char): char {
    if 'A' <= c <= 'Z' then (c as int + 32) as char else c
  }

  function UpperChar(c: char): char {
    if 'a' <= c <= 'z' then (c as int - 32) as char else c
  }

  /**
   * `str.lower()` on ASCII letters. Non-ASCII letters are left as they are.
   * The only non-ASCII character whose lower case contains a letter of the
   * names the loader compares against is U+0130 (capital I with dot), which
   * lower-cases to `i` followed by the combining dot U+0307; the dot that
   * follows keeps such a header from equalling a field name or matching the
   * fund prefix, so the comparisons come out as with full Unicode.
   */
  function Lower(s: string): string {
    seq(|s|, i requires 0 <= i < |s| => LowerChar(s[i]))
  }

  /** `str.upper()` on ASCII letters. */
  function Upper(s: string): string {
    seq(|s|, i requires 0 <= i < |s| => UpperChar(s[i]))
  }

  // ---------------------------------------------------------------------
  // Prefixes and fields
  // ---------------------------------------------------------------------

  /** Python's `s.startswith(p)`. */
  predicate StartsWith(s: string, p: string) {
    |p| <= |s| && s[..|p|] == p
  }

  /**
   * One character of an already lower-cased subject matched against a
   * lower-case pattern character under `re.IGNORECASE`: besides identity,
   * the regular-expression engine treats U+0131 (dotless i) as `i` and
   * U+017F (long s) as `s`.
   */
  predicate FoldsTo(c: char, p: char) {
    c == p || (p == 'i' && c == '\U{131}') || (p == 's' && c == '\U{17F}')
  }

  /** `re.match(p, s, re.IGNORECASE)` for a lower-case literal pattern `p` and a lower-cased `s`. */
  predicate MatchesPrefixIgnoringCase(s: string, p: string)
    ensures StartsWith(s, p) ==> MatchesPrefixIgnoringCase(s, p)
    ensures (forall i :: 0 <= i < |s| ==> s[i] != '\U{131}' && s[i] != '\U{17F}') ==>
      (MatchesPrefixIgnoringCase(s, p) <==> StartsWith(s, p))
  {
    |p| <= |s| && forall i :: 0 <= i < |p| ==> FoldsTo(s[i], p[i])
  }

  /** Python's `s.split(sep)[-1]`: the text after the last `sep`, or all of `s`. */
  function LastField(s: string, sep: char): (r: string)
    ensures |r| <= |s| && forall i :: 0 <= i < |r| ==> r[i] == s[|s| - |r| + i] && r[i] != sep
    ensures |r| < |s| ==> s[|s| - |r| - 1] == sep
  {
    if s == [] then []
    else if s[|s| - 1] == sep then []
    else LastField(s[..|s| - 1], sep) + [s[|s| - 1]]
  }

  /** The last field lies after every separator. */
  lemma {:induction false} LastFieldAfter(s: string, sep: char, j: int)
    requires 0 <= j < |s| && s[j] == sep
    ensures |LastField(s, sep)| <= |s| - 1 - j
  {
    var n := |s| - 1;
    if s[n] != sep {
      assert j < n && s[..n][j] == sep;
      LastFieldAfter(s[..n], sep, j);
    }
  }

  /** The position of the first `c` in `s`, as `s.index(c)` would find it. */
  function IndexOf(s: string, c: char): (r: Option<nat>)
    ensures r.None? ==> forall k :: 0 <= k < |s| ==> s[k] != c
    ensures r.Some? ==> r.value < |s| && s[r.value] == c && forall k :: 0 <= k < r.value ==> s[k] != c
  {
    if s == [] then None
    else if s[0] == c then Some(0)
    else match IndexOf(s[1..], c)
      case None => None
      case Some(i) => Some(i + 1)
  }

  lemma {:induction false} IndexOfJoin(a: string, c: char, b: string)
    requires c !in a
    ensures IndexOf(a + [c] + b, c) == Some(|a|)
  {
    if a != [] {
      assert (a + [c] + b)[1..] == a[1..] + [c] + b;
      IndexOfJoin(a[1..], c, b);
    }
  }

  // ---------------------------------------------------------------------
  // Code-point order of strings (Python's `<` on `str`)
  // ---------------------------------------------------------------------

  predicate LexLess(a: string, b: string) {
    if a == [] then b != []
    else if b == [] then false
    else if a[0] == b[0] then LexLess(a[1..], b[1..])
    else a[0] < b[0]
  }

  lemma {:induction false} LexIrreflexive(a: string)
    ensures !LexLess(a, a)
  {
    if a != [] { LexIrreflexive(a[1..]); }
  }

  lemma {:induction false} LexTransitive(a: string, b: string, c: string)
    requires LexLess(a, b) && LexLess(b, c)
    ensures LexLess(a, c)
  {
    if a != [] && b != [] && c != [] && a[0] == b[0] && b[0] == c[0] {
      LexTransitive(a[1..], b[1..], c[1..]);
    }
  }

  lemma {:induction false} LexTotal(a: string, b: string)
    ensures a == b || LexLess(a, b) || LexLess(b, a)
  {
    if a != [] && b != [] && a[0] == b[0] {
      LexTotal(a[1..], b[1..]);
      if a[1..] == b[1..] { assert a == [a[0]] + a[1..] && b == [b[0]] + b[1..]; }
    }
  }

  lemma LexAsymmetric(a: string, b: string)
    requires LexLess(a, b)
    ensures !LexLess(b, a) && a != b
  {
    LexIrreflexive(a);
    if LexLess(b, a) { LexTransitive(a, b, a); }
  }

  /** Comparing two strings whose first blocks have equal length compares block by block. */
  lemma {:induction false} LexConcat(x1: string, y1: string, x2: string, y2: string)
    requires |x1| == |x2|
    ensures LexLess(x1 + y1, x2 + y2) <==> LexLess(x1, x2) || (x1 == x2 && LexLess(y1, y2))
  {
    if x1 == [] {
      assert x1 + y1 == y1 && x2 + y2 == y2;
      LexIrreflexive(x1);
    } else {
      assert (x1 + y1)[0] == x1[0] && (x2 + y2)[0] == x2[0];
      assert (x1 + y1)[1..] == x1[1..] + y1 && (x2 + y2)[1..] == x2[1..] + y2;
      LexConcat(x1[1..], y1, x2[1..], y2);
      if x1[0] == x2[0] {
        assert x1 == x2 <==> x1[1..] == x2[1..] by {
          assert x1 == [x1[0]] + x1[1..] && x2 == [x2[0]] + x2[1..];
        }
      }
    }
  }

  // ---------------------------------------------------------------------
  // Sorted, duplicate-free sequences (`sorted(set(...))`)
  // ---------------------------------------------------------------------

  predicate Ascending(s: seq<string>) {
    forall i, j :: 0 <= i < j < |s| ==> LexLess(s[i], s[j])
  }

  predicate Descending(s: seq<string>) {
    forall i, j :: 0 <= i < j < |s| ==> LexLess(s[j], s[i])
  }

  lemma BelowHead(x: string, s: seq<string>)
    requires Ascending(s) && s != [] && LexLess(x, s[0])
    ensures forall j :: 0 <= j < |s| ==> LexLess(x, s[j])
  {
    forall j | 0 < j < |s| { LexTransitive(x, s[0], s[j]); }
  }

  /** Inserts `x` into an ascending sequence unless it is already there. */
  function Insert(x: string, s: seq<string>): (r: seq<string>)
    requires Ascending(s)
    ensures Ascending(r)
    ensures forall y :: y in r <==> y == x || y in s
  {
    if s == [] then [x]
    else if x == s[0] then s
    else if LexLess(x, s[0]) then BelowHead(x, s); [x] + s
    else
      LexTotal(x, s[0]);
      var t := Insert(x, s[1..]);
      assert forall y :: y in t ==> LexLess(s[0], y);
      [s[0]] + t
  }

  /** Python's `sorted(set(s))` on strings: ascending, without duplicates, the same elements. */
  function SortedDistinct(s: seq<string>): (r: seq<string>)
    ensures Ascending(r)
    ensures forall y :: y in r <==> y in s
  {
    if s == [] then []
    else
      var rest := SortedDistinct(s[..|s| - 1]);
      assert forall y :: y in s <==> y in s[..|s| - 1] || y == s[|s| - 1] by {
        assert s == s[..|s| - 1] + [s[|s| - 1]];
      }
      Insert(s[|s| - 1], rest)
  }

  function Reverse(s: seq<string>): (r: seq<string>)
    ensures |r| == |s| && forall i :: 0 <= i < |s| ==> r[i] == s[|s| - 1 - i]
  {
    seq(|s|, i requires 0 <= i < |s| => s[|s| - 1 - i])
  }

  lemma ReverseOfAscending(s: seq<string>)
    requires Ascending(s)
    ensures Descending(Reverse(s))
    ensures forall y :: y in Reverse(s) <==> y in s
  {
    var r := Reverse(s);
    forall y | y in s ensures y in r {
      var i :| 0 <= i < |s| && s[i] == y;
      assert r[|s| - 1 - i] == y;
    }
  }

  // ---------------------------------------------------------------------
  // Decimal digits
  // ---------------------------------------------------------------------

  predicate IsDigit(c: char) { '0' <= c <= '9' }

  predicate AllDigits(s: string) {
    forall i :: 0 <= i < |s| ==> IsDigit(s[i])
  }

  function DigitChar(n: nat): (c: char)
    requires n < 10
    ensures IsDigit(c)
  {
    ('0' as int + n) as char
  }

  function Pow10(w: nat): (p: nat)
    ensures p >= 1
  {
    if w == 0 then 1 else 10 * Pow10(w - 1)
  }

  /** The number a string of decimal digits denotes (as `int(s)` does). */
  function Value(s: string): nat
    requires AllDigits(s)
  {
    if s == [] then 0
    else 10 * Value(s[..|s| - 1]) + (s[|s| - 1] as int - '0' as int)
  }

  /** `n` written with exactly `w` digits, zero-padded on the left (`%0wd`, for `n < 10^w`). */
  function Pad(n: nat, w: nat): (r: string)
    ensures |r| == w && AllDigits(r)
  {
    if w == 0 then [] else Pad(n / 10, w - 1) + [DigitChar(n % 10)]
  }

  lemma {:induction false} ValueOfPad(n: nat, w: nat)
    requires n < Pow10(w)
    ensures Value(Pad(n, w)) == n
  {
    if w > 0 {
      var p := Pad(n, w);
      assert p[..w - 1] == Pad(n / 10, w - 1);
      ValueOfPad(n / 10, w - 1);
    }
  }

  lemma {:induction false} PadOfValue(s: string)
    requires AllDigits(s)
    ensures Value(s) < Pow10(|s|)
    ensures Pad(Value(s), |s|) == s
  {
    if s != [] {
      var init := s[..|s| - 1];
      PadOfValue(init);
      var d := s[|s| - 1] as int - '0' as int;
      assert Value(s) / 10 == Value(init) && Value(s) % 10 == d;
      assert s == init + [s[|s| - 1]];
    }
  }

  lemma PadInjective(a: nat, b: nat, w: nat)
    requires a < Pow10(w) && b < Pow10(w)
    ensures Pad(a, w) == Pad(b, w) <==> a == b
  {
    ValueOfPad(a, w);
    ValueOfPad(b, w);
  }

  /** Zero-padded numbers of one width sort as strings in numeric order. */
  lemma {:induction false} PadOrder(a: nat, b: nat, w: nat)
    requires a < Pow10(w) && b < Pow10(w)
    ensures LexLess(Pad(a, w), Pad(b, w)) <==> a < b
  {
    if w == 0 {
      LexIrreflexive([]);
    } else {
      PadOrder(a / 10, b / 10, w - 1);
      PadInjective(a / 10, b / 10, w - 1);
      LexConcat(Pad(a / 10, w - 1), [DigitChar(a % 10)], Pad(b / 10, w - 1), [DigitChar(b % 10)]);
      assert LexLess([DigitChar(a % 10)], [DigitChar(b % 10)]) <==> a % 10 < b % 10;
    }
  }
}
