/**
 * String helpers shared by the models: the parts of JavaScript's and Python's
 * string libraries that the scripts and routes use (lower-casing, trimming,
 * substring search, replace, split/join, number formatting).
 */
module Text {

  // ---------------------------------------------------------------------------
  // Characters
  // ---------------------------------------------------------------------------

  /** Lower-casing of one character; only ASCII letters change. */
  function LowerChar(c: char): char {
    if 'A' <= c <= 'Z' then (c as int + 32) as char else c
  }

  /** `toLowerCase()` / `str.lower()` restricted to ASCII letters. */
  function Lower(s: string): (r: string)
    ensures |r| == |s|
    ensures forall i :: 0 <= i < |s| ==> r[i] == LowerChar(s[i])
  {
    seq(|s|, i requires 0 <= i < |s| => LowerChar(s[i]))
  }

  predicate IsDigit(c: char) { '0' <= c <= '9' }

  predicate IsLowerLetter(c: char) { 'a' <= c <= 'z' }

  /** The regular-expression class `\w`: `[A-Za-z0-9_]`. */
  predicate IsWordChar(c: char) {
    IsLowerLetter(c) || ('A' <= c <= 'Z') || IsDigit(c) || c == '_'
  }

  /** The regular-expression class `\s` of JavaScript (also what `trim()` removes). */
  predicate IsJsSpace(c: char) {
    c == ' ' || c == '\t' || c == '\n' || c == '\U{B}' || c == '\U{C}' || c == '\r'
    || c == '\U{A0}' || c == '\U{1680}' || ('\U{2000}' <= c <= '\U{200A}')
    || c == '\U{2028}' || c == '\U{2029}' || c == '\U{202F}' || c == '\U{205F}'
    || c == '\U{3000}' || c == '\U{FEFF}'
  }

  /** The characters Python's `str.strip()` removes (`str.isspace()`). */
  predicate IsPySpace(c: char) {
    c == ' ' || c == '\t' || c == '\n' || c == '\U{B}' || c == '\U{C}' || c == '\r'
    || ('\U{1C}' <= c <= '\U{1F}') || c == '\U{85}' || c == '\U{A0}' || c == '\U{1680}'
    || ('\U{2000}' <= c <= '\U{200A}') || c == '\U{2028}' || c == '\U{2029}'
    || c == '\U{202F}' || c == '\U{205F}' || c == '\U{3000}'
  }

  // ---------------------------------------------------------------------------
  // Predicates on strings
  // ---------------------------------------------------------------------------

  /** JavaScript's `s || fallback` for a string: the empty string is falsy. */
  function OrElse(s: string, fallback: string): (r: string)
    ensures r == s || r == fallback
    ensures r != "" <== s != "" || fallback != ""
  {
    if s != "" then s else fallback
  }

  predicate StartsWith(s: string, prefix: string) {
    |prefix| <= |s| && s[..|prefix|] == prefix
  }

  /** `s.includes(part)` / `part in s`. */
  predicate Contains(s: string, part: string) {
    exists i | 0 <= i <= |s| - |part| :: OccursAt(s, part, i)
  }

  predicate OccursAt(s: string, part: string, i: int) {
    0 <= i <= |s| - |part| && s[i..i + |part|] == part
  }

  /** Case-insensitive `includes`, as the sources write it: both sides lower-cased. */
  predicate ContainsIgnoreCase(s: string, part: string) {
    Contains(Lower(s), Lower(part))
  }

  lemma ContainsEmpty(s: string)
    ensures Contains(s, "")
  {
    assert OccursAt(s, "", 0);
  }

  lemma ContainsAt(s: string, part: string, i: int)
    requires 0 <= i <= |s| - |part| && s[i..i + |part|] == part
    ensures Contains(s, part)
  {
    assert OccursAt(s, part, i);
  }

  lemma ContainsSelf(s: string)
    ensures Contains(s, s)
  {
    assert OccursAt(s, s, 0);
  }

  // ---------------------------------------------------------------------------
  // Trimming
  // ---------------------------------------------------------------------------

  /** Number of leading characters that satisfy `ws`. */
  function LeadingCount(s: string, ws: char -> bool): (n: nat)
    ensures n <= |s|
    ensures forall i :: 0 <= i < n ==> ws(s[i])
    ensures n < |s| ==> !ws(s[n])
    decreases |s|
  {
    if s != [] && ws(s[0]) then 1 + LeadingCount(s[1..], ws) else 0
  }

  /** Number of trailing characters that satisfy `ws`. */
  function TrailingCount(s: string, ws: char -> bool): (n: nat)
    ensures n <= |s|
    ensures forall i :: |s| - n <= i < |s| ==> ws(s[i])
    ensures n < |s| ==> !ws(s[|s| - n - 1])
    decreases |s|
  {
    if s != [] && ws(s[|s| - 1]) then 1 + TrailingCount(s[..|s| - 1], ws) else 0
  }

  function TrimStartWith(s: string, ws: char -> bool): (r: string)
    ensures r == [] || !ws(r[0])
  {
    s[LeadingCount(s, ws)..]
  }

  function TrimEndWith(s: string, ws: char -> bool): (r: string)
    ensures r == [] || !ws(r[|r| - 1])
  {
    s[..|s| - TrailingCount(s, ws)]
  }

  /** JavaScript's `trim()`. */
  function Trim(s: string): (r: string)
    ensures |r| <= |s|
    ensures r == [] || (!IsJsSpace(r[0]) && !IsJsSpace(r[|r| - 1]))
  {
    TrimEndWith(TrimStartWith(s, IsJsSpace), IsJsSpace)
  }

  /** Trimming at both ends cuts out one slice, with only `ws` characters outside it. */
  lemma TrimSlice(s: string, ws: char -> bool) returns (k: nat, m: nat)
    ensures k <= m <= |s| && TrimEndWith(TrimStartWith(s, ws), ws) == s[k..m]
    ensures forall i :: 0 <= i < k ==> ws(s[i])
    ensures forall i :: m <= i < |s| ==> ws(s[i])
  {
    k := LeadingCount(s, ws);
    var t := s[k..];
    assert TrimStartWith(s, ws) == t;
    m := k + |t| - TrailingCount(t, ws);
    assert TrimEndWith(t, ws) == t[..m - k];
    assert t[..m - k] == s[k..m];
    forall i | m <= i < |s| ensures ws(s[i]) {
      assert s[i] == t[i - k];
    }
  }

  /** Python's `str.strip()`: leading and trailing whitespace removed one character at a time. */
  function PyStrip(s: string): string
    decreases |s|
  {
    if s != [] && IsPySpace(s[0]) then PyStrip(s[1..])
    else if s != [] && IsPySpace(s[|s| - 1]) then PyStrip(s[..|s| - 1])
    else s
  }

  /** The stripped text neither starts nor ends with whitespace, and is no longer than the text. */
  lemma {:induction false} PyStripEnds(s: string)
    ensures |PyStrip(s)| <= |s|
    ensures PyStrip(s) == [] || (!IsPySpace(PyStrip(s)[0]) && !IsPySpace(PyStrip(s)[|PyStrip(s)| - 1]))
    decreases |s|
  {
    if s != [] && IsPySpace(s[0]) {
      PyStripEnds(s[1..]);
    } else if s != [] && IsPySpace(s[|s| - 1]) {
      PyStripEnds(s[..|s| - 1]);
    }
  }

  /** Stripping introduces no character. */
  lemma {:induction false} PyStripKeepsOut(s: string, c: char)
    requires c !in s
    ensures c !in PyStrip(s)
    decreases |s|
  {
    if s != [] && IsPySpace(s[0]) {
      PyStripKeepsOut(s[1..], c);
    } else if s != [] && IsPySpace(s[|s| - 1]) {
      PyStripKeepsOut(s[..|s| - 1], c);
    }
  }

  /** Trimming a trimmed string changes nothing. */
  lemma TrimIdempotent(s: string)
    ensures Trim(Trim(s)) == Trim(s)
  {
    var t := Trim(s);
    assert TrimStartWith(t, IsJsSpace) == t;
    assert TrimEndWith(t, IsJsSpace) == t;
  }

  // ---------------------------------------------------------------------------
  // Replacement
  // ---------------------------------------------------------------------------

  /**
   * `s.replace(pat, rep)` in Python and `s.replace(/pat/g, rep)` in JavaScript:
   * every occurrence, scanning left to right, matches never overlapping and
   * never re-scanning inserted text.
   */
  function ReplaceAll(s: string, pat: string, rep: string): string
    requires pat != []
    decreases |s|
  {
    if |s| < |pat| then s
    else if s[..|pat|] == pat then rep + ReplaceAll(s[|pat|..], pat, rep)
    else [s[0]] + ReplaceAll(s[1..], pat, rep)
  }

  /** Python's `s.replace(pat, rep, 1)` and JavaScript's `s.replace(pat, rep)`: the first occurrence only. */
  function ReplaceFirst(s: string, pat: string, rep: string): string
    requires pat != []
    decreases |s|
  {
    if |s| < |pat| then s
    else if s[..|pat|] == pat then rep + s[|pat|..]
    else [s[0]] + ReplaceFirst(s[1..], pat, rep)
  }

  /** Replacement cannot change a string that holds no character starting the pattern. */
  lemma {:induction false} ReplaceAllNoStart(s: string, pat: string, rep: string)
    requires pat != []
    requires forall i :: 0 <= i < |s| ==> s[i] != pat[0]
    ensures ReplaceAll(s, pat, rep) == s
    decreases |s|
  {
    if |s| >= |pat| {
      assert s[..|pat|][0] == s[0];
      ReplaceAllNoStart(s[1..], pat, rep);
    }
  }

  /**
   * A character that the pattern does not contain splits the replacement:
   * no match can straddle it.
   */
  lemma {:induction false} ReplaceAllAcross(x: string, c: char, y: string, pat: string, rep: string)
    requires pat != [] && c !in pat
    ensures ReplaceAll(x + [c] + y, pat, rep) == ReplaceAll(x, pat, rep) + [c] + ReplaceAll(y, pat, rep)
    decreases |x|
  {
    var s := x + [c] + y;
    if |x| < |pat| <= |s| {
      PrefixThrough(x, c, y, pat);
    }
    if |s| < |pat| {
      assert ReplaceAll(x, pat, rep) == x;
      assert ReplaceAll(y, pat, rep) == y;
    } else if s[..|pat|] == pat {
      assert x[..|pat|] == pat;
      assert s[|pat|..] == x[|pat|..] + [c] + y;
      ReplaceAllAcross(x[|pat|..], c, y, pat, rep);
    } else if x == [] {
      assert s == [c] + y;
      assert s[1..] == y;
    } else {
      assert s[1..] == x[1..] + [c] + y;
      ReplaceAllAcross(x[1..], c, y, pat, rep);
      if |x| < |pat| {
        assert ReplaceAll(x[1..], pat, rep) == x[1..];
        assert [x[0]] + x[1..] == x;
      } else {
        assert x[..|pat|] == s[..|pat|];
      }
    }
  }

  /** A prefix that covers a character the pattern lacks is not the pattern. */
  lemma PrefixThrough(x: string, c: char, y: string, pat: string)
    requires c !in pat && |x| < |pat| <= |x| + 1 + |y|
    ensures (x + [c] + y)[..|pat|] != pat
  {
    assert (x + [c] + y)[..|pat|][|x|] == c;
  }

  /** Replacement introduces no character that neither the text nor the replacement holds. */
  lemma {:induction false} ReplaceAllKeepsOut(s: string, pat: string, rep: string, c: char)
    requires pat != [] && c !in s && c !in rep
    ensures c !in ReplaceAll(s, pat, rep)
    decreases |s|
  {
    if |s| >= |pat| {
      if s[..|pat|] == pat {
        ReplaceAllKeepsOut(s[|pat|..], pat, rep, c);
      } else {
        ReplaceAllKeepsOut(s[1..], pat, rep, c);
      }
    }
  }

  /** Replacing a one-character pattern's first occurrence, when that occurrence follows `x`. */
  lemma {:induction false} ReplaceFirstAt(x: string, c: char, y: string, rep: string)
    requires c !in x
    ensures ReplaceFirst(x + [c] + y, [c], rep) == x + rep + y
    decreases |x|
  {
    var s := x + [c] + y;
    if x == [] {
      assert s[..1] == [c];
      assert s[1..] == y;
    } else {
      assert s[..1] != [c] by { assert s[0] == x[0]; }
      assert s[1..] == x[1..] + [c] + y;
      ReplaceFirstAt(x[1..], c, y, rep);
    }
  }

  lemma {:induction false} ReplaceFirstAbsent(s: string, c: char, rep: string)
    requires c !in s
    ensures ReplaceFirst(s, [c], rep) == s
    decreases |s|
  {
    if |s| >= 1 {
      assert s[..1] != [c] by { assert s[0] != c; }
      ReplaceFirstAbsent(s[1..], c, rep);
    }
  }

  /** Position of the first occurrence of `c`. */
  function IndexOf(s: string, c: char): (k: nat)
    requires c in s
    ensures k < |s| && s[k] == c && c !in s[..k]
  {
    if s[0] == c then 0 else 1 + IndexOf(s[1..], c)
  }

  /** A text splits around any of its positions. */
  lemma SplitAround(s: string, k: nat)
    requires k < |s|
    ensures s == s[..k] + [s[k]] + s[k + 1..]
  {
    assert s[k..] == [s[k]] + s[k + 1..];
    assert s == s[..k] + s[k..];
  }

  // ---------------------------------------------------------------------------
  // Split and join on a separator character
  // ---------------------------------------------------------------------------

  /** `s.split(sep)` for a one-character separator (the same in Python and JavaScript). */
  function Split(s: string, sep: char): (parts: seq<string>)
    ensures |parts| >= 1
    decreases |s|
  {
    if s == [] then [""]
    else if s[0] == sep then [""] + Split(s[1..], sep)
    else
      var rest := Split(s[1..], sep);
      [[s[0]] + rest[0]] + rest[1..]
  }

  /** `sep.join(parts)` / `parts.join(sep)`. */
  function Join(parts: seq<string>, sep: char): string
    decreases |parts|
  {
    if |parts| == 0 then ""
    else if |parts| == 1 then parts[0]
    else parts[0] + [sep] + Join(parts[1..], sep)
  }

  /** Splitting and joining again gives back the text. */
  lemma {:induction false} JoinSplit(s: string, sep: char)
    ensures Join(Split(s, sep), sep) == s
    decreases |s|
  {
    if s == [] {
    } else if s[0] == sep {
      JoinSplit(s[1..], sep);
      var rest := Split(s[1..], sep);
      assert Split(s, sep) == [""] + rest;
      assert ([""] + rest)[1..] == rest;
    } else {
      JoinSplit(s[1..], sep);
      var rest := Split(s[1..], sep);
      var parts := [[s[0]] + rest[0]] + rest[1..];
      assert Split(s, sep) == parts;
      if |rest| == 1 {
        assert [s[0]] + s[1..] == s;
      } else {
        assert parts[1..] == rest[1..];
        assert Join(rest, sep) == rest[0] + [sep] + Join(rest[1..], sep);
        assert [s[0]] + s[1..] == s;
      }
    }
  }

  /** No piece of a split contains the separator. */
  lemma {:induction false} SplitPiecesFree(s: string, sep: char)
    ensures forall k :: 0 <= k < |Split(s, sep)| ==> sep !in Split(s, sep)[k]
    decreases |s|
  {
    if s != [] {
      SplitPiecesFree(s[1..], sep);
    }
  }

  /** A text without the separator is one piece. */
  lemma {:induction false} SplitNone(x: string, sep: char)
    requires sep !in x
    ensures Split(x, sep) == [x]
    decreases |x|
  {
    if x != [] {
      SplitNone(x[1..], sep);
      assert [x[0]] + x[1..] == x;
    }
  }

  /** The first separator ends the first piece. */
  lemma {:induction false} SplitFirst(x: string, sep: char, y: string)
    requires sep !in x
    ensures Split(x + [sep] + y, sep) == [x] + Split(y, sep)
    decreases |x|
  {
    var s := x + [sep] + y;
    if x == [] {
      assert s[1..] == y;
    } else {
      assert s[1..] == x[1..] + [sep] + y;
      SplitFirst(x[1..], sep, y);
      assert [x[0]] + x[1..] == x;
    }
  }

  // ---------------------------------------------------------------------------
  // Decimal formatting of numbers (`${n}`, `n.toString()`, `str(n)`)
  // ---------------------------------------------------------------------------

  function DigitChar(d: nat): (c: char)
    requires d < 10
    ensures IsDigit(c)
  {
    ('0' as int + d) as char
  }

  function DigitValue(c: char): (d: nat)
    requires IsDigit(c)
    ensures d < 10
  {
    c as int - '0' as int
  }

  /** The decimal digits of `n`, without leading zeros. */
  function NatToString(n: nat): (r: string)
    ensures |r| >= 1
    ensures forall i :: 0 <= i < |r| ==> IsDigit(r[i])
    decreases n
  {
    if n < 10 then [DigitChar(n)] else NatToString(n / 10) + [DigitChar(n % 10)]
  }

  function IntToString(n: int): string {
    if n < 0 then "-" + NatToString(-n) else NatToString(n)
  }

  /** The number a string of decimal digits denotes (`parseInt` on digits). */
  function DigitsValue(s: string): nat
    requires forall i :: 0 <= i < |s| ==> IsDigit(s[i])
    decreases |s|
  {
    if s == [] then 0 else DigitsValue(s[..|s| - 1]) * 10 + DigitValue(s[|s| - 1])
  }

  /** Reading back the digits `NatToString` writes gives the number. */
  lemma {:induction false} NatToStringRoundTrip(n: nat)
    ensures DigitsValue(NatToString(n)) == n
    decreases n
  {
    var r := NatToString(n);
    if n >= 10 {
      NatToStringRoundTrip(n / 10);
      assert r[..|r| - 1] == NatToString(n / 10);
    }
  }

  /** Distinct numbers have distinct decimal forms. */
  lemma NatToStringInjective(a: nat, b: nat)
    requires NatToString(a) == NatToString(b)
    ensures a == b
  {
    NatToStringRoundTrip(a);
    NatToStringRoundTrip(b);
  }
}
