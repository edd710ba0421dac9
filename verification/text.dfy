/**
 * Character classes and string helpers with the meaning Python gives them:
 * `str.isspace`, `str.lower`/`str.upper` (on ASCII letters), `in` on strings,
 * `str.strip()`, and the `.` of a regular expression (anything but a newline).
 */
module Text {

  /** Python's `str.isspace()`: the characters `str.strip()` removes and the regex class `\s` matches. */
  predicate IsSpace(c: char) {
    c == ' ' || '\t' <= c <= '\r' || '\U{1c}' <= c <= '\U{1f}' ||
    c == '\U{85}' || c == '\U{a0}' || c == '\U{1680}' || '\U{2000}' <= c <= '\U{200a}' ||
    c == '\U{2028}' || c == '\U{2029}' || c == '\U{202f}' || c == '\U{205f}' || c == '\U{3000}'
  }

  /** The regex class `\d`, restricted to ASCII digits. */
  predicate IsDigit(c: char) {
    '0' <= c <= '9'
  }

  predicate AllDigits(s: string) {
    forall i :: 0 <= i < |s| ==> IsDigit(s[i])
  }

  predicate AllSpaces(s: string) {
    forall i :: 0 <= i < |s| ==> IsSpace(s[i])
  }

  function LowerChar(c: char): (r: char)
    ensures 'A' <= c <= 'Z' ==> 'a' <= r <= 'z'
    ensures !('A' <= c <= 'Z') ==> r == c
  {
    if 'A' <= c <= 'Z' then (c as int + 32) as char else c
  }

  function UpperChar(c: char): (r: char)
    ensures 'a' <= c <= 'z' ==> 'A' <= r <= 'Z'
    ensures !('a' <= c <= 'z') ==> r == c
  {
    if 'a' <= c <= 'z' then (c as int - 32) as char else c
  }

  /** `s.lower()` */
  function Lower(s: string): (r: string)
    ensures |r| == |s|
  {
    seq(|s|, i requires 0 <= i < |s| => LowerChar(s[i]))
  }

  /** `s.upper()` */
  function Upper(s: string): (r: string)
    ensures |r| == |s|
  {
    seq(|s|, i requires 0 <= i < |s| => UpperChar(s[i]))
  }

  /** Lower-casing forgets whether a letter was upper-cased first. */
  lemma LowerOfUpper(s: string)
    ensures Lower(Upper(s)) == Lower(s)
  {
    forall i | 0 <= i < |s|
      ensures Lower(Upper(s))[i] == Lower(s)[i]
    {
      var c := s[i];
      if 'a' <= c <= 'z' {
        assert UpperChar(c) as int == c as int - 32;
      }
    }
  }

  /** `sub` occurs in `s` starting at position `i`. */
  predicate OccursAt(sub: string, s: string, i: int) {
    0 <= i && i + |sub| <= |s| && s[i..i + |sub|] == sub
  }

  /** Lower-casing twice is lower-casing once. */
  lemma LowerIdempotent(s: string)
    ensures Lower(Lower(s)) == Lower(s)
  {
    forall i | 0 <= i < |s|
      ensures Lower(Lower(s))[i] == Lower(s)[i]
    {
      var c := s[i];
      if 'A' <= c <= 'Z' {
        assert LowerChar(c) as int == c as int + 32;
      }
    }
  }

  /** Python's `sub in s`. */
  predicate IsSubstring(sub: string, s: string) {
    exists i :: 0 <= i <= |s| && OccursAt(sub, s, i)
  }

  /** `sub.lower() in s.lower()` */
  predicate ContainsIgnoreCase(s: string, sub: string) {
    IsSubstring(Lower(sub), Lower(s))
  }

  /** A string can only contain `sub` if it contains every character of `sub`. */
  lemma NotSubstringByChar(sub: string, s: string, k: nat)
    requires k < |sub| && sub[k] !in s
    ensures !IsSubstring(sub, s)
  {
    forall i | 0 <= i && i + |sub| <= |s|
      ensures !OccursAt(sub, s, i)
    {
      assert s[i..i + |sub|][k] == s[i + k];
    }
  }

  /** `s.lstrip()` */
  function TrimStart(s: string): (r: string)
    ensures |r| <= |s| && r == s[|s| - |r|..]
    ensures r == [] || !IsSpace(r[0])
    ensures AllSpaces(s[..|s| - |r|])
  {
    if s != [] && IsSpace(s[0]) then
      var r := TrimStart(s[1..]);
      assert s[..|s| - |r|] == [s[0]] + s[1..][..|s| - 1 - |r|];
      r
    else s
  }

  /** `s.rstrip()` */
  function TrimEnd(s: string): (r: string)
    ensures |r| <= |s| && r == s[..|r|]
    ensures r == [] || !IsSpace(r[|r| - 1])
    ensures AllSpaces(s[|r|..])
  {
    if s != [] && IsSpace(s[|s| - 1]) then
      var r := TrimEnd(s[..|s| - 1]);
      assert s[|r|..] == s[..|s| - 1][|r|..] + [s[|s| - 1]];
      r
    else s
  }

  /** `s.strip()`: what is left once the whitespace at both ends is gone. */
  function Strip(s: string): (r: string)
    ensures r == [] || (!IsSpace(r[0]) && !IsSpace(r[|r| - 1]))
  {
    var t := TrimStart(s);
    var r := TrimEnd(t);
    assert r != [] ==> r[0] == t[0];
    r
  }

  /** `Strip` keeps a contiguous part of `s`, starting at `StripOffset(s)`. */
  lemma StripKeepsSlice(s: string)
    ensures OccursAt(Strip(s), s, StripOffset(s))
  {
    var t := TrimStart(s);
    PrefixOfSuffix(s, t, TrimEnd(t));
  }

  /** A prefix `r` of a suffix `t` of `s` sits in `s` where `t` starts. */
  lemma PrefixOfSuffix<T>(s: seq<T>, t: seq<T>, r: seq<T>)
    requires |t| <= |s| && t == s[|s| - |t|..]
    requires |r| <= |t| && r == t[..|r|]
    ensures s[|s| - |t|..|s| - |t| + |r|] == r
  {
    assert s[|s| - |t|..|s| - |t| + |r|] == s[|s| - |t|..][..|r|];
  }

  /** What `Strip` removes on either side of the kept part is whitespace. */
  lemma StripRemovesOnlySpaces(s: string)
    ensures AllSpaces(s[..StripOffset(s)])
    ensures AllSpaces(s[StripOffset(s) + |Strip(s)|..])
  {
    var t := TrimStart(s);
    var r := TrimEnd(t);
    var i := |s| - |t|;
    assert s[i + |r|..] == t[|r|..];
  }

  /** Where the text kept by `Strip(s)` starts in `s`. */
  function StripOffset(s: string): nat {
    |s| - |TrimStart(s)|
  }

  /**
   * The text a regex `.*` matches at the start of `s`: everything before the
   * first newline (or all of `s` when it has none).
   */
  function FirstLine(s: string): (r: string)
    ensures |r| <= |s| && r == s[..|r|]
    ensures '\n' !in r
    ensures |r| == |s| || s[|r|] == '\n'
  {
    if s == [] || s[0] == '\n' then [] else [s[0]] + FirstLine(s[1..])
  }

  /** A text without a newline is a single line. */
  lemma {:induction false} FirstLineWithoutNewline(s: string)
    requires '\n' !in s
    ensures FirstLine(s) == s
  {
    if s != [] {
      FirstLineWithoutNewline(s[1..]);
      assert s == [s[0]] + s[1..];
    }
  }

  /** Length of the run of ASCII digits at the start of `s` (what a greedy `\d+` consumes). */
  function DigitRun(s: string): (n: nat)
    ensures n <= |s| && AllDigits(s[..n])
    ensures n == |s| || !IsDigit(s[n])
  {
    if s != [] && IsDigit(s[0]) then
      var n := 1 + DigitRun(s[1..]);
      assert s[..n] == [s[0]] + s[1..][..n - 1];
      n
    else 0
  }

  /** Length of the run of whitespace at the start of `s` (what a greedy `\s+` consumes). */
  function SpaceRun(s: string): (n: nat)
    ensures n <= |s| && AllSpaces(s[..n])
    ensures n == |s| || !IsSpace(s[n])
  {
    if s != [] && IsSpace(s[0]) then
      var n := 1 + SpaceRun(s[1..]);
      assert s[..n] == [s[0]] + s[1..][..n - 1];
      n
    else 0
  }

  /** A digit run stops exactly where the leading digits of `d + rest` stop. */
  lemma {:induction false} DigitRunOfPrefix(d: string, rest: string)
    requires AllDigits(d)
    requires rest == [] || !IsDigit(rest[0])
    ensures DigitRun(d + rest) == |d|
  {
    if d != [] {
      assert (d + rest)[1..] == d[1..] + rest;
      DigitRunOfPrefix(d[1..], rest);
    } else {
      assert d + rest == rest;
    }
  }

  /** A space run stops exactly where the leading spaces of `w + rest` stop. */
  lemma {:induction false} SpaceRunOfPrefix(w: string, rest: string)
    requires AllSpaces(w)
    requires rest == [] || !IsSpace(rest[0])
    ensures SpaceRun(w + rest) == |w|
  {
    if w != [] {
      assert (w + rest)[1..] == w[1..] + rest;
      SpaceRunOfPrefix(w[1..], rest);
    } else {
      assert w + rest == rest;
    }
  }
}
