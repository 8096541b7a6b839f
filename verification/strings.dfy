/**
 * The part of Python's text handling the alarm merger relies on: `str.strip()`
 * with no argument and `str.lower()`, restricted to Latin-1 for case mapping.
 */
module Strings {

  /** The characters `str.strip()` removes (Python's `str.isspace`). */
  predicate IsSpace(c: char) {
    || c == ' '
    || '\t' <= c <= '\r'
    || '\U{1C}' <= c <= '\U{1F}'
    || c == '\U{85}' || c == '\U{A0}' || c == '\U{1680}'
    || '\U{2000}' <= c <= '\U{200A}'
    || c == '\U{2028}' || c == '\U{2029}' || c == '\U{202F}' || c == '\U{205F}'
    || c == '\U{3000}'
  }

  predicate AllSpace(s: string) {
    forall k | 0 <= k < |s| :: IsSpace(s[k])
  }

  /** A trimmed text neither starts nor ends with a space. */
  predicate Unpadded(s: string) {
    s == [] || (!IsSpace(s[0]) && !IsSpace(s[|s| - 1]))
  }

  /** The first index at or after `i` that does not hold a space. */
  function SkipSpaces(s: string, i: nat): (k: nat)
    requires i <= |s|
    ensures i <= k <= |s|
    ensures AllSpace(s[i..k])
    ensures k == |s| || !IsSpace(s[k])
    decreases |s| - i
  {
    if i < |s| && IsSpace(s[i]) then SkipSpaces(s, i + 1) else i
  }

  /** The least index `k >= lo` such that `s[k..j]` is all spaces. */
  function SkipSpacesBack(s: string, lo: nat, j: nat): (k: nat)
    requires lo <= j <= |s|
    ensures lo <= k <= j
    ensures AllSpace(s[k..j])
    ensures k == lo || !IsSpace(s[k - 1])
    decreases j
  {
    if lo < j && IsSpace(s[j - 1]) then
      var k := SkipSpacesBack(s, lo, j - 1);
      assert AllSpace(s[k..j]) by {
        forall i | k <= i < j ensures IsSpace(s[i]) {
          if i < j - 1 { assert s[k..j - 1][i - k] == s[i]; }
        }
      }
      k
    else
      j
  }

  /** `str.strip()`: the text without its leading and trailing spaces. */
  function Trim(s: string): (r: string)
    ensures Unpadded(r)
    ensures |r| <= |s|
  {
    var lo := SkipSpaces(s, 0);
    var hi := SkipSpacesBack(s, lo, |s|);
    s[lo..hi]
  }

  /** The white space `Trim` removes from the front of `s`. */
  function Leading(s: string): string {
    s[..SkipSpaces(s, 0)]
  }

  /** The white space `Trim` removes from the back of `s`. */
  function Trailing(s: string): string {
    s[SkipSpacesBack(s, SkipSpaces(s, 0), |s|)..]
  }

  /** White space followed by white space is white space. */
  lemma AllSpaceConcat(a: string, b: string)
    requires AllSpace(a) && AllSpace(b)
    ensures AllSpace(a + b)
  {
    forall k | 0 <= k < |a + b| ensures IsSpace((a + b)[k]) {
      if k >= |a| { assert (a + b)[k] == b[k - |a|]; }
    }
  }

  /**
   * Whatever spaces surround an unpadded text, trimming gives back exactly
   * that text: `Trim` removes all padding and nothing else.
   */
  lemma TrimOfPadded(a: string, w: string, b: string)
    requires AllSpace(a) && AllSpace(b) && Unpadded(w)
    ensures Trim(a + w + b) == w
    ensures w != [] ==> Leading(a + w + b) == a && Trailing(a + w + b) == b
  {
    var s := a + w + b;
    if w == [] {
      assert s == a + b;
      AllSpaceConcat(a, b);
      assert SkipSpaces(s, 0) == |s|;
    } else {
      PaddedBounds(a, w, b);
      assert s[|a|..|a| + |w|] == w;
      assert s[..|a|] == a && s[|a| + |w|..] == b;
    }
  }

  /** Where the padding around a non-empty unpadded text starts and ends. */
  lemma PaddedBounds(a: string, w: string, b: string)
    requires AllSpace(a) && AllSpace(b) && Unpadded(w) && w != []
    ensures SkipSpaces(a + w + b, 0) == |a|
    ensures SkipSpacesBack(a + w + b, |a|, |a + w + b|) == |a| + |w|
  {
    var s := a + w + b;
    var e := |a| + |w|;
    var lo := SkipSpaces(s, 0);
    assert s[|a|] == w[0];
    assert lo == |a|;
    assert s[e - 1] == w[|w| - 1];
    var hi := SkipSpacesBack(s, lo, |s|);
    assert hi == e;
  }

  /** Extra white space around a text does not change what it trims to. */
  lemma TrimIgnoresPadding(a: string, v: string, b: string)
    requires AllSpace(a) && AllSpace(b)
    ensures Trim(a + v + b) == Trim(v)
  {
    var t := Trim(v);
    var p, q := TrimSplit(v);
    AllSpaceConcat(a, p);
    AllSpaceConcat(q, b);
    assert a + v + b == (a + p) + t + (q + b);
    TrimOfPadded(a + p, t, q + b);
  }

  /** Every text is its trimmed form between the white space `Trim` removes. */
  lemma TrimSplit(v: string) returns (p: string, q: string)
    ensures AllSpace(p) && AllSpace(q)
    ensures p == Leading(v) && q == Trailing(v)
    ensures v == p + Trim(v) + q
  {
    var lo := SkipSpaces(v, 0);
    var hi := SkipSpacesBack(v, lo, |v|);
    p, q := v[0..lo], v[hi..|v|];
    assert p == v[..lo] && q == v[hi..];
    assert v == v[0..lo] + v[lo..hi] + v[hi..|v|];
  }

  /**
   * `str.lower()` on one character: ASCII capitals and the Latin-1 capitals
   * (U+00C0 to U+00DE, except the multiplication sign) map 32 code points up.
   */
  function LowerChar(c: char): char {
    if 'A' <= c <= 'Z' || ('\U{C0}' <= c <= '\U{DE}' && c != '\U{D7}') then
      (c as int + 32) as char
    else
      c
  }

  /** `str.lower()`, character by character. */
  function Lower(s: string): (r: string)
    ensures |r| == |s|
    ensures forall k | 0 <= k < |s| :: r[k] == LowerChar(s[k])
  {
    seq(|s|, k requires 0 <= k < |s| => LowerChar(s[k]))
  }

  /** Lower-casing never turns a space into a non-space or back. */
  lemma LowerCharKeepsSpaces(c: char)
    ensures IsSpace(LowerChar(c)) <==> IsSpace(c)
  {
  }
}
