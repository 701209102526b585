/**
 * The JavaScript string operations the repository relies on:
 * `String.prototype.trim`, `toUpperCase`, `split(',')` and the
 * comparison of ISO `yyyy-mm-dd` date strings.
 */
module Text {

  // ---------------------------------------------------------------------------
  // Whitespace and trim
  // ---------------------------------------------------------------------------

  /** The characters `trim` removes: ECMAScript WhiteSpace and LineTerminator. */
  predicate IsWhitespace(c: char) {
    || c == '\t' || c == '\n' || c == '\U{000B}' || c == '\U{000C}' || c == '\r'
    || c == ' ' || c == '\U{00A0}' || c == '\U{1680}'
    || ('\U{2000}' <= c <= '\U{200A}')
    || c == '\U{2028}' || c == '\U{2029}' || c == '\U{202F}' || c == '\U{205F}'
    || c == '\U{3000}' || c == '\U{FEFF}'
  }

  /** Every character of `s` from index `lo` up to `hi` is whitespace. */
  ghost predicate BlankBetween(s: string, lo: int, hi: int) {
    forall i :: lo <= i < hi && 0 <= i < |s| ==> IsWhitespace(s[i])
  }

  /** The first index at or after `i` that holds no whitespace, or `|s|`. */
  function SkipBlanks(s: string, i: nat): (k: nat)
    requires i <= |s|
    ensures i <= k <= |s|
    ensures BlankBetween(s, i, k)
    ensures k == |s| || !IsWhitespace(s[k])
    decreases |s| - i
  {
    if i < |s| && IsWhitespace(s[i]) then SkipBlanks(s, i + 1) else i
  }

  /** The end, at or before `j` and not below `lo`, of `s[lo..j]` with its trailing whitespace dropped. */
  function SkipBlanksBack(s: string, lo: nat, j: nat): (k: nat)
    requires lo <= j <= |s|
    ensures lo <= k <= j
    ensures BlankBetween(s, k, j)
    ensures k == lo || !IsWhitespace(s[k - 1])
    decreases j
  {
    if lo < j && IsWhitespace(s[j - 1]) then SkipBlanksBack(s, lo, j - 1) else j
  }

  /** Where the trimmed text of `s` starts. */
  function TrimStartIndex(s: string): nat {
    SkipBlanks(s, 0)
  }

  /**
   * `String.prototype.trim`: neither starts nor ends with whitespace, and is
   * empty exactly when `s` is blank (see TrimIsInfix for where it sits in `s`).
   */
  function Trim(s: string): (r: string)
    ensures |r| <= |s|
    ensures r == [] || (!IsWhitespace(r[0]) && !IsWhitespace(r[|r| - 1]))
    ensures r == [] <==> BlankBetween(s, 0, |s|)
  {
    var a := SkipBlanks(s, 0);
    var b := SkipBlanksBack(s, a, |s|);
    assert a == b ==> BlankBetween(s, 0, |s|);
    assert a < b ==> !IsWhitespace(s[a]);
    s[a..b]
  }

  /** `Trim(s)` sits at offset `TrimStartIndex(s)` of `s`, with only whitespace on either side of it. */
  lemma TrimIsInfix(s: string)
    ensures var i := TrimStartIndex(s);
            && i + |Trim(s)| <= |s| && s[i..i + |Trim(s)|] == Trim(s)
            && BlankBetween(s, 0, i) && BlankBetween(s, i + |Trim(s)|, |s|)
  {
  }

  /** A string with no blank at either end is its own trim. */
  lemma TrimOfTrimmed(r: string)
    requires r == [] || (!IsWhitespace(r[0]) && !IsWhitespace(r[|r| - 1]))
    ensures Trim(r) == r
  {
    assert SkipBlanks(r, 0) == 0;
    assert SkipBlanksBack(r, 0, |r|) == |r|;
  }

  /** Trimming twice is trimming once. */
  lemma TrimIdempotent(s: string)
    ensures Trim(Trim(s)) == Trim(s)
  {
    TrimOfTrimmed(Trim(s));
  }

  // ---------------------------------------------------------------------------
  // Upper case
  // ---------------------------------------------------------------------------

  predicate IsLower(c: char) {
    'a' <= c <= 'z'
  }

  /** `toUpperCase` on one character: ASCII `a`-`z` become `A`-`Z`, all else is kept. */
  function UpperChar(c: char): (u: char)
    ensures !IsLower(u)
    ensures IsWhitespace(u) <==> IsWhitespace(c)
    ensures !IsLower(c) ==> u == c
    ensures IsLower(c) ==> 'A' <= u <= 'Z'
  {
    if IsLower(c) then (c as int - 'a' as int + 'A' as int) as char else c
  }

  /** No lower-case letter left: the shape every normalised ticker has. */
  predicate IsUpper(s: string) {
    forall i :: 0 <= i < |s| ==> !IsLower(s[i])
  }

  /** `String.prototype.toUpperCase`, character by character. */
  function Upper(s: string): (r: string)
    ensures |r| == |s|
    ensures forall i :: 0 <= i < |s| ==> r[i] == UpperChar(s[i])
  {
    seq(|s|, i requires 0 <= i < |s| => UpperChar(s[i]))
  }

  /** The result of `toUpperCase` has no lower-case letter, and an upper-case string is its own upper case. */
  lemma UpperIsUpper(s: string)
    ensures IsUpper(Upper(s))
    ensures IsUpper(s) <==> Upper(s) == s
  {
    if !IsUpper(s) {
      var i :| 0 <= i < |s| && IsLower(s[i]);
      assert Upper(s)[i] != s[i];
    }
  }

  /** Upper-casing twice is upper-casing once. */
  lemma UpperIdempotent(s: string)
    ensures Upper(Upper(s)) == Upper(s)
  {
    UpperIsUpper(s);
    UpperIsUpper(Upper(s));
  }

  lemma {:induction false} SkipBlanksUpper(s: string, i: nat)
    requires i <= |s|
    ensures SkipBlanks(Upper(s), i) == SkipBlanks(s, i)
    decreases |s| - i
  {
    if i < |s| { SkipBlanksUpper(s, i + 1); }
  }

  lemma {:induction false} SkipBlanksBackUpper(s: string, lo: nat, j: nat)
    requires lo <= j <= |s|
    ensures SkipBlanksBack(Upper(s), lo, j) == SkipBlanksBack(s, lo, j)
    decreases j
  {
    if lo < j {
      assert IsWhitespace(Upper(s)[j - 1]) == IsWhitespace(s[j - 1]);
      SkipBlanksBackUpper(s, lo, j - 1);
    }
  }

  /**
   * `toUpperCase().trim()` and `trim().toUpperCase()` agree: the client
   * normalises tickers in one order and the server in the other.
   */
  lemma TrimUpperCommute(s: string)
    ensures Trim(Upper(s)) == Upper(Trim(s))
  {
    var a := SkipBlanks(s, 0);
    var b := SkipBlanksBack(s, a, |s|);
    SkipBlanksUpper(s, 0);
    SkipBlanksBackUpper(s, a, |s|);
    assert Trim(Upper(s)) == Upper(s)[a..b];
    assert Trim(s) == s[a..b];
    UpperSlice(s, a, b);
  }

  lemma UpperSlice(s: string, a: nat, b: nat)
    requires a <= b <= |s|
    ensures Upper(s)[a..b] == Upper(s[a..b])
  {
    forall k | 0 <= k < b - a ensures Upper(s)[a..b][k] == Upper(s[a..b])[k] {
      assert s[a..b][k] == s[a + k];
    }
  }

  // ---------------------------------------------------------------------------
  // split and join
  // ---------------------------------------------------------------------------

  /** The position of the first `c` in `s`. */
  function IndexOf(s: string, c: char): (i: nat)
    requires c in s
    ensures i < |s| && s[i] == c && c !in s[..i]
  {
    if s[0] == c then 0
    else
      assert s[1..] + [] == s[1..] && s == [s[0]] + s[1..];
      var i := IndexOf(s[1..], c);
      assert s[..i + 1] == [s[0]] + s[1..][..i];
      i + 1
  }

  /** The first position of `c` is the one before which `c` does not occur. */
  lemma FirstIndex(s: string, c: char, j: nat)
    requires j < |s| && s[j] == c && c !in s[..j]
    ensures IndexOf(s, c) == j
  {
    var i := IndexOf(s, c);
    assert forall k :: 0 <= k < j ==> s[..j][k] == s[k];
    assert forall k :: 0 <= k < i ==> s[..i][k] == s[k];
  }

  /** `s.split(sep)` for a one-character separator: never empty, and `""` gives `[""]`. */
  function Split(s: string, sep: char): (parts: seq<string>)
    ensures |parts| >= 1
    decreases |s|
  {
    if sep in s then
      var i := IndexOf(s, sep);
      [s[..i]] + Split(s[i + 1..], sep)
    else [s]
  }

  /** `parts.join(sep)`. */
  function Join(parts: seq<string>, sep: char): string
    decreases |parts|
  {
    if parts == [] then []
    else if |parts| == 1 then parts[0]
    else parts[0] + [sep] + Join(parts[1..], sep)
  }

  /** How often `c` occurs in `s`. */
  function Occurrences(s: string, c: char): nat {
    multiset(s)[c]
  }

  /** Joining the pieces of a split gives back the original string. */
  lemma {:induction false} JoinSplit(s: string, sep: char)
    ensures Join(Split(s, sep), sep) == s
    decreases |s|
  {
    if sep in s {
      var i := IndexOf(s, sep);
      var rest := Split(s[i + 1..], sep);
      JoinSplit(s[i + 1..], sep);
      var parts := [s[..i]] + rest;
      assert parts[1..] == rest;
      assert Join(parts, sep) == s[..i] + [sep] + s[i + 1..];
      assert s == s[..i] + [s[i]] + s[i + 1..];
    }
  }

  /** No piece of a split contains the separator, and there is one piece more than separators. */
  lemma {:induction false} SplitPieces(s: string, sep: char)
    ensures forall k :: 0 <= k < |Split(s, sep)| ==> sep !in Split(s, sep)[k]
    ensures |Split(s, sep)| == Occurrences(s, sep) + 1
    decreases |s|
  {
    if sep in s {
      var i := IndexOf(s, sep);
      var rest := Split(s[i + 1..], sep);
      SplitPieces(s[i + 1..], sep);
      assert s == s[..i] + [s[i]] + s[i + 1..];
      assert multiset(s) == multiset(s[..i]) + multiset{sep} + multiset(s[i + 1..]);
      var parts := Split(s, sep);
      forall k | 0 <= k < |parts| ensures sep !in parts[k] {
        if k > 0 { assert parts[k] == rest[k - 1]; }
      }
    } else {
      assert multiset(s)[sep] == 0;
    }
  }

  /** Splitting a join of separator-free pieces gives back the pieces. */
  lemma {:induction false} SplitJoin(parts: seq<string>, sep: char)
    requires |parts| >= 1
    requires forall k :: 0 <= k < |parts| ==> sep !in parts[k]
    ensures Split(Join(parts, sep), sep) == parts
    decreases |parts|
  {
    if |parts| > 1 {
      var p := parts[0];
      var tail := Join(parts[1..], sep);
      SplitJoin(parts[1..], sep);
      var s := p + [sep] + tail;
      assert s[|p|] == sep;
      assert s[..|p|] == p;
      FirstIndex(s, sep, |p|);
      assert s[|p| + 1..] == tail;
      assert parts == [p] + parts[1..];
    }
  }

  // ---------------------------------------------------------------------------
  // Lexicographic order
  // ---------------------------------------------------------------------------

  /**
   * `a` sorts at or before `b`, character by character. On ISO
   * `yyyy-mm-dd` dates this is the calendar order.
   */
  predicate LexLeq(a: string, b: string)
    decreases |a|
  {
    a == [] || (b != [] && (a[0] < b[0] || (a[0] == b[0] && LexLeq(a[1..], b[1..]))))
  }

  lemma {:induction false} LexLeqReflexive(a: string)
    ensures LexLeq(a, a)
    decreases |a|
  {
    if a != [] { LexLeqReflexive(a[1..]); }
  }

  lemma {:induction false} LexLeqTotal(a: string, b: string)
    ensures LexLeq(a, b) || LexLeq(b, a)
    decreases |a|
  {
    if a != [] && b != [] && a[0] == b[0] { LexLeqTotal(a[1..], b[1..]); }
  }

  lemma {:induction false} LexLeqTransitive(a: string, b: string, c: string)
    requires LexLeq(a, b) && LexLeq(b, c)
    ensures LexLeq(a, c)
    decreases |a|
  {
    if a != [] && a[0] == b[0] && b[0] == c[0] { LexLeqTransitive(a[1..], b[1..], c[1..]); }
  }

  lemma {:induction false} LexLeqAntisymmetric(a: string, b: string)
    requires LexLeq(a, b) && LexLeq(b, a)
    ensures a == b
    decreases |a|
  {
    if a != [] {
      LexLeqAntisymmetric(a[1..], b[1..]);
      assert a == [a[0]] + a[1..] && b == [b[0]] + b[1..];
    }
  }
}
