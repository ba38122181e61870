/** String operations of JavaScript, Python and PHP that the visitor tracker relies
    on: trimming, lower-casing, substring search, prefix slicing, splitting and
    joining on a character, and decimal rendering of integers. Strings are
    sequences of Unicode scalar values. */
module Strings {

  /** The characters JavaScript's `String.prototype.trim` removes (the ASCII
      controls, the space, and the common Unicode separators). */
  predicate IsJsSpace(c: char) {
    || c == ' ' || c == '\t' || c == '\n' || c == '\r' || c == '\U{000B}' || c == '\U{000C}'
    || c == '\U{00A0}' || c == '\U{1680}' || c == '\U{2028}' || c == '\U{2029}'
    || c == '\U{202F}' || c == '\U{205F}' || c == '\U{3000}' || c == '\U{FEFF}'
    || ('\U{2000}' <= c <= '\U{200A}')
  }

  /** The characters PHP's `trim` removes by default. */
  predicate IsPhpSpace(c: char) {
    c == ' ' || c == '\t' || c == '\n' || c == '\r' || c == '\0' || c == '\U{000B}'
  }

  /** Every character of `s` is a space character. */
  predicate AllSpace(s: string, space: char -> bool) {
    forall i :: 0 <= i < |s| ==> space(s[i])
  }

  /** `s` without its leading space characters. */
  function TrimStart(s: string, space: char -> bool): (r: string)
    ensures |r| <= |s| && r == s[|s| - |r|..]
    ensures AllSpace(s[..|s| - |r|], space)
    ensures |r| > 0 ==> !space(r[0])
  {
    if |s| > 0 && space(s[0]) then TrimStart(s[1..], space) else s
  }

  /** `s` without its trailing space characters. */
  function TrimEnd(s: string, space: char -> bool): (r: string)
    ensures |r| <= |s| && r == s[..|r|]
    ensures AllSpace(s[|r|..], space)
    ensures |r| > 0 ==> !space(r[|r| - 1])
  {
    if |s| > 0 && space(s[|s| - 1]) then TrimEnd(s[..|s| - 1], space) else s
  }

  /** `s` without leading and trailing space characters (`trim`). */
  function Trim(s: string, space: char -> bool): string {
    TrimEnd(TrimStart(s, space), space)
  }

  /** A string trims to nothing exactly when it consists of space characters only. */
  lemma TrimEmptyIffAllSpace(s: string, space: char -> bool)
    ensures Trim(s, space) == "" <==> AllSpace(s, space)
  {
    var t := TrimStart(s, space);
    if Trim(s, space) == "" {
      assert AllSpace(t[..|t|], space);
      assert s == s[..|s| - |t|] + t;
    }
  }

  /** Text without spaces at either end is left as it is by trimming. */
  predicate Unpadded(s: string, space: char -> bool) {
    |s| > 0 ==> !space(s[0]) && !space(s[|s| - 1])
  }

  lemma TrimUnpadded(s: string, space: char -> bool)
    requires Unpadded(s, space)
    ensures Trim(s, space) == s
  {
  }

  /** Trimming removes one trailing space character after unpadded text. */
  lemma TrimTrailing(s: string, c: char, space: char -> bool)
    requires |s| > 0 && Unpadded(s, space) && space(c)
    ensures Trim(s + [c], space) == s
  {
    assert (s + [c])[..|s|] == s;
    assert TrimStart(s + [c], space) == s + [c];
    assert TrimEnd(s, space) == s;
  }

  /** Trimming removes any run of trailing space characters after unpadded text. */
  lemma {:induction false} TrimTrailingSpaces(s: string, t: string, space: char -> bool)
    requires |s| > 0 && Unpadded(s, space) && AllSpace(t, space)
    ensures Trim(s + t, space) == s
  {
    assert TrimStart(s + t, space) == s + t;
    TrimEndSpaces(s, t, space);
  }

  lemma {:induction false} TrimEndSpaces(s: string, t: string, space: char -> bool)
    requires |s| > 0 && Unpadded(s, space) && AllSpace(t, space)
    ensures TrimEnd(s + t, space) == s
    decreases |t|
  {
    if |t| == 0 {
      assert s + t == s;
    } else {
      var u := t[..|t| - 1];
      assert (s + t)[..|s + t| - 1] == s + u;
      TrimEndSpaces(s, u, space);
    }
  }

  /** JavaScript `toLowerCase` restricted to the ASCII letters. */
  function LowerChar(c: char): char {
    if 'A' <= c <= 'Z' then (c as int + 32) as char else c
  }

  function Lower(s: string): (r: string)
    ensures |r| == |s|
    ensures forall i :: 0 <= i < |s| ==> r[i] == LowerChar(s[i])
  {
    if |s| == 0 then "" else [LowerChar(s[0])] + Lower(s[1..])
  }

  /** `haystack.includes(needle)`: the needle occurs at some position. */
  predicate Contains(haystack: string, needle: string) {
    needle <= haystack || (|haystack| > 0 && Contains(haystack[1..], needle))
  }

  /** Python's `s[:n]` for a non-negative `n`. */
  function Take<T>(s: seq<T>, n: nat): (r: seq<T>)
    ensures |r| == (if |s| <= n then |s| else n) && r <= s
  {
    if |s| <= n then s else s[..n]
  }

  // ---------------------------------------------------------------------------
  // Splitting and joining on one separator character
  // ---------------------------------------------------------------------------

  /** JavaScript `s.split(sep)` for a one-character separator: the maximal
      separator-free pieces between separators, always at least one. */
  function Split(s: string, sep: char): (r: seq<string>)
    ensures |r| >= 1
    ensures forall i :: 0 <= i < |r| ==> sep !in r[i]
  {
    if |s| == 0 then [""]
    else
      var rest := Split(s[1..], sep);
      if s[0] == sep then [""] + rest else [[s[0]] + rest[0]] + rest[1..]
  }

  /** JavaScript `parts.join(sep)`. */
  function Join(parts: seq<string>, sep: char): string {
    if |parts| == 0 then ""
    else if |parts| == 1 then parts[0]
    else parts[0] + [sep] + Join(parts[1..], sep)
  }

  lemma JoinConsHead(c: char, x: string, ys: seq<string>, sep: char)
    ensures Join([[c] + x] + ys, sep) == [c] + Join([x] + ys, sep)
  {
    if |ys| > 0 {
      assert ([[c] + x] + ys)[1..] == ys;
      assert ([x] + ys)[1..] == ys;
    }
  }

  /** Joining the pieces of a split with the same separator gives back the string. */
  lemma {:induction false} JoinSplit(s: string, sep: char)
    ensures Join(Split(s, sep), sep) == s
  {
    if |s| > 0 {
      var rest := Split(s[1..], sep);
      JoinSplit(s[1..], sep);
      if s[0] == sep {
        assert ([""] + rest)[1..] == rest;
        assert s == [s[0]] + s[1..];
      } else {
        assert rest == [rest[0]] + rest[1..];
        JoinConsHead(s[0], rest[0], rest[1..], sep);
        assert s == [s[0]] + s[1..];
      }
    }
  }

  lemma {:induction false} SplitNoSeparator(p: string, sep: char)
    requires sep !in p
    ensures Split(p, sep) == [p]
  {
    if |p| > 0 {
      SplitNoSeparator(p[1..], sep);
      assert [p[0]] + p[1..] == p;
    }
  }

  lemma {:induction false} SplitAtSeparator(p: string, q: string, sep: char)
    requires sep !in p
    ensures Split(p + [sep] + q, sep) == [p] + Split(q, sep)
  {
    var s := p + [sep] + q;
    if |p| == 0 {
      assert s[0] == sep && s[1..] == q;
    } else {
      assert s[0] == p[0];
      assert s[1..] == p[1..] + [sep] + q;
      SplitAtSeparator(p[1..], q, sep);
      assert [p[0]] + p[1..] == p;
    }
  }

  /** Splitting a join of separator-free pieces gives back the pieces. */
  lemma {:induction false} SplitJoin(parts: seq<string>, sep: char)
    requires |parts| >= 1
    requires forall i :: 0 <= i < |parts| ==> sep !in parts[i]
    ensures Split(Join(parts, sep), sep) == parts
  {
    if |parts| == 1 {
      SplitNoSeparator(parts[0], sep);
    } else {
      SplitJoin(parts[1..], sep);
      SplitAtSeparator(parts[0], Join(parts[1..], sep), sep);
      assert [parts[0]] + parts[1..] == parts;
    }
  }

  // ---------------------------------------------------------------------------
  // Decimal rendering of integers (JavaScript template literals, Python `str`)
  // ---------------------------------------------------------------------------

  predicate IsDigit(c: char) {
    '0' <= c <= '9'
  }

  function DigitChar(d: int): char
    requires 0 <= d < 10
  {
    ('0' as int + d) as char
  }

  /** The decimal digits of `n`, without leading zeros. */
  function NatToString(n: nat): (r: string)
    ensures |r| >= 1
    ensures forall i :: 0 <= i < |r| ==> IsDigit(r[i])
    ensures |r| > 1 ==> r[0] != '0'
  {
    if n < 10 then [DigitChar(n)] else NatToString(n / 10) + [DigitChar(n % 10)]
  }

  /** The decimal rendering of an integer, with a leading '-' when negative. */
  function IntToString(n: int): string {
    if n < 0 then "-" + NatToString(-n) else NatToString(n)
  }

  /** The number a string of decimal digits denotes. */
  function ParseNat(s: string): nat
    requires forall i :: 0 <= i < |s| ==> IsDigit(s[i])
  {
    if |s| == 0 then 0
    else
      assert IsDigit(s[|s| - 1]);
      ParseNat(s[..|s| - 1]) * 10 + (s[|s| - 1] as int - '0' as int)
  }

  /** Decimal rendering is undone by parsing: distinct ids render differently. */
  lemma {:induction false} ParseNatToString(n: nat)
    ensures ParseNat(NatToString(n)) == n
  {
    if n >= 10 {
      var s := NatToString(n);
      assert s[..|s| - 1] == NatToString(n / 10);
      ParseNatToString(n / 10);
    }
  }
}
