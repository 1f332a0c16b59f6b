/** The Python string operations that `clean_json_response` relies on:
    `str.strip()`, `startswith`/`endswith`, `find`/`rfind` of one character
    (returning -1 when absent) and slicing `s[a:b]` with non-negative bounds. */
module PyText {

  /** Exactly the characters for which Python's `str.isspace()` holds, which
      are the ones `str.strip()` with no argument removes. */
  const SpaceChars: set<char> := {
    '\t', '\n', '\U{0B}', '\U{0C}', '\r', '\U{1C}', '\U{1D}', '\U{1E}', '\U{1F}',
    ' ', '\U{85}', '\U{A0}', '\U{1680}',
    '\U{2000}', '\U{2001}', '\U{2002}', '\U{2003}', '\U{2004}', '\U{2005}',
    '\U{2006}', '\U{2007}', '\U{2008}', '\U{2009}', '\U{200A}',
    '\U{2028}', '\U{2029}', '\U{202F}', '\U{205F}', '\U{3000}'
  }

  predicate IsSpace(c: char) {
    c in SpaceChars
  }

  predicate AllSpace(s: string) {
    forall i :: 0 <= i < |s| ==> IsSpace(s[i])
  }

  /** Neither end of `s` is whitespace: what `strip()` leaves behind. */
  predicate IsStripped(s: string) {
    s == [] || (!IsSpace(s[0]) && !IsSpace(s[|s| - 1]))
  }

  /** The number of whitespace characters `s` starts with. */
  function LeadingSpaces(s: string): (n: nat)
    ensures n <= |s|
    ensures forall i :: 0 <= i < n ==> IsSpace(s[i])
    ensures n == |s| || !IsSpace(s[n])
  {
    if |s| > 0 && IsSpace(s[0]) then 1 + LeadingSpaces(s[1..]) else 0
  }

  /** The number of whitespace characters `s` ends with. */
  function TrailingSpaces(s: string): (n: nat)
    ensures n <= |s|
    ensures forall i :: |s| - n <= i < |s| ==> IsSpace(s[i])
    ensures n == |s| || !IsSpace(s[|s| - n - 1])
  {
    if |s| > 0 && IsSpace(s[|s| - 1]) then 1 + TrailingSpaces(s[..|s| - 1]) else 0
  }

  /** `s.lstrip()`. */
  function LStrip(s: string): string {
    s[LeadingSpaces(s)..]
  }

  /** `s.rstrip()`. */
  function RStrip(s: string): string {
    s[..|s| - TrailingSpaces(s)]
  }

  /** `s.strip()`: `s` with its leading and trailing whitespace removed. */
  function Strip(s: string): (r: string)
    ensures IsStripped(r)
    ensures |r| <= |s|
  {
    var l := LStrip(s);
    assert l == [] || !IsSpace(l[0]);
    RStrip(l)
  }

  predicate StartsWith(s: string, prefix: string) {
    |prefix| <= |s| && s[..|prefix|] == prefix
  }

  predicate EndsWith(s: string, suffix: string) {
    |suffix| <= |s| && s[|s| - |suffix|..] == suffix
  }

  /** `s.find(c)`: the index of the first `c`, or -1. */
  function Find(s: string, c: char): (r: int)
    ensures -1 <= r < |s|
    ensures r == -1 <==> c !in s
    ensures r >= 0 ==> s[r] == c && c !in s[..r]
  {
    if |s| == 0 then -1
    else if s[0] == c then 0
    else
      var k := Find(s[1..], c);
      if k == -1 then -1
      else
        assert s[..k + 1] == [s[0]] + s[1..][..k];
        k + 1
  }

  /** `s.rfind(c)`: the index of the last `c`, or -1. */
  function RFind(s: string, c: char): (r: int)
    ensures -1 <= r < |s|
    ensures r == -1 <==> c !in s
    ensures r >= 0 ==> s[r] == c && c !in s[r + 1..]
  {
    if |s| == 0 then -1
    else if s[|s| - 1] == c then |s| - 1
    else RFind(s[..|s| - 1], c)
  }

  /** `s[start:end]` for non-negative bounds: both are clamped to `len(s)`
      and a slice whose start is not before its end is empty. */
  function Slice(s: string, start: nat, end: nat): (r: string)
    ensures start < end <= |s| ==> r == s[start..end]
    ensures start < |s| < end ==> r == s[start..]
    ensures end <= start || |s| <= start ==> r == []
    ensures |r| <= |s|
  {
    var a := if start <= |s| then start else |s|;
    var b := if end <= |s| then end else |s|;
    if a < b then s[a..b] else []
  }

  // Facts about stripping that the extractor's lemmas use.

  lemma {:induction false} LeadingSpacesOfPrefix(pre: string, s: string)
    requires AllSpace(pre)
    requires s == [] || !IsSpace(s[0])
    ensures LeadingSpaces(pre + s) == |pre|
  {
    if pre != [] {
      assert (pre + s)[1..] == pre[1..] + s;
      LeadingSpacesOfPrefix(pre[1..], s);
    }
  }

  lemma {:induction false} TrailingSpacesOfSuffix(s: string, post: string)
    requires AllSpace(post)
    requires s == [] || !IsSpace(s[|s| - 1])
    ensures TrailingSpaces(s + post) == |post|
  {
    if post != [] {
      assert (s + post)[..|s + post| - 1] == s + post[..|post| - 1];
      TrailingSpacesOfSuffix(s, post[..|post| - 1]);
    }
  }

  /** Stripping text surrounded only by whitespace yields the text. */
  lemma StripSurrounded(pre: string, s: string, post: string)
    requires AllSpace(pre) && AllSpace(post) && IsStripped(s)
    ensures Strip(pre + s + post) == s
  {
    if s == [] {
      assert pre + s + post == pre + post + [];
      LeadingSpacesOfPrefix(pre + post, []);
      assert LStrip(pre + s + post) == [];
    } else {
      assert pre + s + post == pre + (s + post);
      LeadingSpacesOfPrefix(pre, s + post);
      assert LStrip(pre + s + post) == s + post;
      TrailingSpacesOfSuffix(s, post);
    }
  }

  /** Every text is its stripped form with whitespace on either side; with
      StripSurrounded this determines `strip()` completely. */
  lemma StripSplits(s: string) returns (pre: string, post: string)
    ensures AllSpace(pre) && AllSpace(post)
    ensures s == pre + Strip(s) + post
  {
    var a := LeadingSpaces(s);
    var l := s[a..];
    var b := TrailingSpaces(l);
    pre, post := s[..a], l[|l| - b..];
    assert AllSpace(pre) by {
      forall i | 0 <= i < |pre| ensures IsSpace(pre[i]) { assert pre[i] == s[i]; }
    }
    assert AllSpace(post) by {
      forall i | 0 <= i < |post| ensures IsSpace(post[i]) { assert post[i] == l[|l| - b + i]; }
    }
    calc {
      pre + Strip(s) + post;
      s[..a] + l[..|l| - b] + l[|l| - b..];
      { assert l[..|l| - b] + l[|l| - b..] == l; }
      s[..a] + s[a..];
      s;
    }
  }

  /** `strip()` leaves already-stripped text unchanged. */
  lemma StripStripped(s: string)
    requires IsStripped(s)
    ensures Strip(s) == s
  {
    StripSurrounded([], s, []);
    assert [] + s + [] == s;
  }
}
