/** The JavaScript string operations the components rely on: `trim`,
    `split` on one character, `join`, `indexOf`, ASCII case mapping,
    `replace(/[/]/g, '')`, decimal rendering of numbers and `padStart`. */
module Text {
  import opened Wrappers

  // ---------------------------------------------------------------------
  // Whitespace and String.prototype.trim
  // ---------------------------------------------------------------------

  /** The code points `trim` removes: ECMAScript WhiteSpace and LineTerminator. */
  predicate IsSpace(c: char) {
    || c == ' ' || c == '\t' || c == '\n' || c == '\r'
    || c == '\U{000B}' || c == '\U{000C}' || c == '\U{00A0}' || c == '\U{1680}'
    || ('\U{2000}' <= c <= '\U{200A}')
    || c == '\U{2028}' || c == '\U{2029}' || c == '\U{202F}' || c == '\U{205F}'
    || c == '\U{3000}' || c == '\U{FEFF}'
  }

  /** True when every character of `s` is whitespace (including when `s` is empty). */
  ghost predicate AllSpace(s: string) {
    forall i :: 0 <= i < |s| ==> IsSpace(s[i])
  }

  /** Drops leading whitespace: the result is a suffix of `s` whose removed
      prefix is all whitespace and which does not itself start with whitespace. */
  function TrimStart(s: string): (r: string)
    ensures |r| <= |s| && r == s[|s| - |r|..]
    ensures forall i :: 0 <= i < |s| - |r| ==> IsSpace(s[i])
    ensures r == [] || !IsSpace(r[0])
  {
    if s != [] && IsSpace(s[0]) then TrimStart(s[1..]) else s
  }

  /** Drops trailing whitespace: the result is a prefix of `s` whose removed
      suffix is all whitespace and which does not itself end with whitespace. */
  function TrimEnd(s: string): (r: string)
    ensures |r| <= |s| && r == s[..|r|]
    ensures forall i :: |r| <= i < |s| ==> IsSpace(s[i])
    ensures r == [] || !IsSpace(r[|r| - 1])
  {
    if s != [] && IsSpace(s[|s| - 1]) then TrimEnd(s[..|s| - 1]) else s
  }

  /** `r` is the slice of `s` starting at `k`, with nothing but whitespace
      before and after it. */
  ghost predicate MarginCut(s: string, k: int, r: string) {
    && 0 <= k && k + |r| <= |s| && r == s[k..k + |r|]
    && (forall i :: 0 <= i < k ==> IsSpace(s[i]))
    && (forall i :: k + |r| <= i < |s| ==> IsSpace(s[i]))
  }

  /** String.prototype.trim. The result is a slice of `s` with only
      whitespace before and after it; it is empty exactly when `s` is all
      whitespace, and otherwise starts and ends with a non-space character. */
  function Trim(s: string): (r: string)
    ensures |r| <= |s|
    ensures exists k :: MarginCut(s, k, r)
    ensures r == [] <==> AllSpace(s)
    ensures r != [] ==> !IsSpace(r[0]) && !IsSpace(r[|r| - 1])
  {
    var t := TrimStart(s);
    var r := TrimEnd(t);
    WhitespaceMargins(s, t, r);
    assert MarginCut(s, |s| - |t|, r);
    assert forall i :: |s| - |t| <= i < |s| ==> s[i] == t[i - (|s| - |t|)];
    assert t != [] ==> !AllSpace(s) by {
      if t != [] {
        assert t[0] == s[|s| - |t|];
      }
    }
    r
  }

  /** Cutting a whitespace prefix off `s` and then a whitespace suffix off
      the rest leaves a slice of `s` with only whitespace around it. */
  lemma WhitespaceMargins(s: string, t: string, r: string)
    requires |t| <= |s| && t == s[|s| - |t|..]
    requires forall i :: 0 <= i < |s| - |t| ==> IsSpace(s[i])
    requires |r| <= |t| && r == t[..|r|]
    requires forall i :: |r| <= i < |t| ==> IsSpace(t[i])
    ensures var k := |s| - |t|;
      && k + |r| <= |s| && r == s[k..k + |r|]
      && (forall i :: k + |r| <= i < |s| ==> IsSpace(s[i]))
  {
    var k := |s| - |t|;
    forall i | k + |r| <= i < |s|
      ensures IsSpace(s[i])
    {
      assert s[i] == t[i - k];
    }
  }

  /** The source's `!x.trim()` test. */
  predicate IsBlank(s: string) {
    Trim(s) == ""
  }

  // ---------------------------------------------------------------------
  // split and join on a single character
  // ---------------------------------------------------------------------

  /** Array.prototype.join with a one-character separator. */
  function Join(parts: seq<string>, sep: char): string {
    if |parts| == 0 then ""
    else if |parts| == 1 then parts[0]
    else parts[0] + [sep] + Join(parts[1..], sep)
  }

  /** String.prototype.split with a one-character separator: at least one
      piece, no piece contains the separator, and joining the pieces with
      the separator gives back `s`. */
  function Split(s: string, sep: char): (parts: seq<string>)
    ensures |parts| >= 1
    ensures forall i :: 0 <= i < |parts| ==> sep !in parts[i]
    ensures Join(parts, sep) == s
  {
    if s == [] then [[]]
    else if s[0] == sep then
      var rest := Split(s[1..], sep);
      assert [s[0]] + Join(rest, sep) == s;
      [[]] + rest
    else
      var rest := Split(s[1..], sep);
      var parts := [[s[0]] + rest[0]] + rest[1..];
      assert Join(parts, sep) == [s[0]] + Join(rest, sep) by {
        if |rest| > 1 {
          assert parts[1..] == rest[1..];
        }
      }
      assert [s[0]] + s[1..] == s;
      parts
  }

  /** Splitting a string built by joining separator-free pieces yields
      exactly those pieces again. */
  lemma {:induction false} SplitJoin(parts: seq<string>, sep: char)
    requires |parts| >= 1
    requires forall i :: 0 <= i < |parts| ==> sep !in parts[i]
    ensures Split(Join(parts, sep), sep) == parts
  {
    if |parts| == 1 {
      SplitWord(parts[0], sep);
    } else {
      SplitJoin(parts[1..], sep);
      SplitAfterWord(parts[0], Join(parts[1..], sep), sep);
    }
  }

  /** A separator-free word splits into itself. */
  lemma {:induction false} SplitWord(w: string, sep: char)
    requires sep !in w
    ensures Split(w, sep) == [w]
  {
    if w != [] {
      SplitWord(w[1..], sep);
      assert [w[0]] + w[1..] == w;
    }
  }

  /** A separator-free word followed by the separator becomes the first piece. */
  lemma {:induction false} SplitAfterWord(w: string, rest: string, sep: char)
    requires sep !in w
    ensures Split(w + [sep] + rest, sep) == [w] + Split(rest, sep)
  {
    if w == [] {
      assert w + [sep] + rest == [sep] + rest;
      assert ([sep] + rest)[1..] == rest;
    } else {
      var s := w + [sep] + rest;
      assert s[0] == w[0] && s[0] != sep;
      assert s[1..] == w[1..] + [sep] + rest;
      SplitAfterWord(w[1..], rest, sep);
      var r := Split(s[1..], sep);
      assert r[0] == w[1..] && r[1..] == Split(rest, sep);
      assert Split(s, sep) == [[s[0]] + r[0]] + r[1..];
      assert [s[0]] + r[0] == w;
    }
  }

  /** `s` with every occurrence of `c` removed (`replace(/[/]/g, '')` for `c == '/'`). */
  function RemoveAll(s: string, c: char): (r: string)
    ensures c !in r
    ensures |r| <= |s|
    ensures forall x :: x != c ==> multiset(r)[x] == multiset(s)[x]
  {
    if s == [] then []
    else
      assert s == [s[0]] + s[1..];
      if s[0] == c then RemoveAll(s[1..], c) else [s[0]] + RemoveAll(s[1..], c)
  }

  /** Removing a character that does not occur changes nothing. */
  lemma {:induction false} RemoveAllAbsent(s: string, c: char)
    requires c !in s
    ensures RemoveAll(s, c) == s
  {
    if s != [] {
      RemoveAllAbsent(s[1..], c);
    }
  }

  /** Removal works piece by piece over a concatenation. */
  lemma {:induction false} RemoveAllConcat(a: string, b: string, c: char)
    ensures RemoveAll(a + b, c) == RemoveAll(a, c) + RemoveAll(b, c)
  {
    if a != [] {
      assert (a + b)[1..] == a[1..] + b;
      RemoveAllConcat(a[1..], b, c);
    } else {
      assert a + b == b;
    }
  }

  // ---------------------------------------------------------------------
  // Searching for a substring
  // ---------------------------------------------------------------------

  /** True when `pat` occurs in `s` at position `i`. */
  predicate OccursAt(s: string, pat: string, i: int) {
    0 <= i && i + |pat| <= |s| && s[i..i + |pat|] == pat
  }

  /** The first position at or after `k` where `pat` occurs, if any. */
  function FindFrom(s: string, pat: string, k: nat): (r: Option<nat>)
    requires k <= |s|
    decreases |s| - k
    ensures r.Some? ==> k <= r.value && OccursAt(s, pat, r.value)
    ensures r.Some? ==> forall j :: k <= j < r.value ==> !OccursAt(s, pat, j)
    ensures r.None? ==> forall j :: k <= j ==> !OccursAt(s, pat, j)
  {
    if k + |pat| > |s| then None
    else if s[k..k + |pat|] == pat then Some(k)
    else FindFrom(s, pat, k + 1)
  }

  /** String.prototype.indexOf, with "not found" as None: the first
      position where `pat` occurs. */
  function Find(s: string, pat: string): (r: Option<nat>)
    ensures r.Some? ==> OccursAt(s, pat, r.value) && forall j :: 0 <= j < r.value ==> !OccursAt(s, pat, j)
    ensures r.None? <==> forall j :: !OccursAt(s, pat, j)
  {
    FindFrom(s, pat, 0)
  }

  // ---------------------------------------------------------------------
  // Case mapping
  // ---------------------------------------------------------------------

  function LowerChar(c: char): char {
    if 'A' <= c <= 'Z' then (c as int + 32) as char else c
  }

  function UpperChar(c: char): char {
    if 'a' <= c <= 'z' then (c as int - 32) as char else c
  }

  /** String.prototype.toLowerCase on ASCII letters; the result has the same
      length and maps position by position. */
  function ToLower(s: string): (r: string)
    ensures |r| == |s|
    ensures forall i :: 0 <= i < |s| ==> r[i] == LowerChar(s[i])
  {
    if s == [] then [] else [LowerChar(s[0])] + ToLower(s[1..])
  }

  // ---------------------------------------------------------------------
  // Decimal rendering of numbers
  // ---------------------------------------------------------------------

  predicate IsDigit(c: char) {
    '0' <= c <= '9'
  }

  function DigitChar(d: nat): (c: char)
    requires d < 10
    ensures IsDigit(c)
  {
    ('0' as int + d) as char
  }

  /** The number a string of decimal digits denotes. */
  function DigitsValue(s: string): nat
    requires forall i :: 0 <= i < |s| ==> IsDigit(s[i])
  {
    if s == [] then 0
    else DigitsValue(s[..|s| - 1]) * 10 + DigitValue(s[|s| - 1])
  }

  function DigitValue(c: char): nat
    requires IsDigit(c)
  {
    c as int - '0' as int
  }

  /** `n.toString()` for a non-negative integer: a non-empty run of digits,
      without a leading zero, that denotes `n`. */
  function NatToString(n: nat): (r: string)
    ensures |r| >= 1
    ensures forall i :: 0 <= i < |r| ==> IsDigit(r[i])
    ensures DigitsValue(r) == n
    ensures |r| > 1 ==> r[0] != '0'
    ensures n < 10 <==> |r| == 1
    ensures n < 100 ==> |r| <= 2
  {
    if n < 10 then [DigitChar(n)]
    else
      var r := NatToString(n / 10) + [DigitChar(n % 10)];
      assert r[..|r| - 1] == NatToString(n / 10);
      r
  }

  /** `n.toString()` / template interpolation of an integer: a minus sign
      exactly for a negative number, followed by the decimal digits of its
      magnitude. */
  function IntToString(n: int): (r: string)
    ensures r != [] && (r[0] == '-' <==> n < 0)
    ensures var digits := if n < 0 then r[1..] else r;
      && digits != []
      && (forall i :: 0 <= i < |digits| ==> IsDigit(digits[i]))
      && DigitsValue(digits) == (if n < 0 then -n else n)
  {
    if n < 0 then "-" + NatToString(-n) else NatToString(n)
  }

  /** `padStart(2, '0')`: strings shorter than two characters get leading zeros. */
  function PadStart2(s: string): (r: string)
    ensures |s| >= 2 ==> r == s
    ensures |s| < 2 ==> |r| == 2 && r[2 - |s|..] == s
    ensures |s| < 2 ==> forall i :: 0 <= i < 2 - |s| ==> r[i] == '0'
  {
    if |s| == 0 then "00" else if |s| == 1 then "0" + s else s
  }
}
