/**
 * The two Python string methods the script relies on: `str.strip(chars)`
 * (drop a set of characters from both ends) and `str.replace(old, new)` for
 * single characters.
 */
module Strings {

  /** Every character of `s` belongs to the dropped set. */
  predicate AllDropped(s: string, drop: char -> bool)
  {
    forall i :: 0 <= i < |s| ==> drop(s[i])
  }

  /** `s.lstrip(chars)`. */
  function StripLeft(s: string, drop: char -> bool): string
    decreases |s|
  {
    if |s| > 0 && drop(s[0]) then StripLeft(s[1..], drop) else s
  }

  /** `s.rstrip(chars)`. */
  function StripRight(s: string, drop: char -> bool): string
    decreases |s|
  {
    if |s| > 0 && drop(s[|s| - 1]) then StripRight(s[..|s| - 1], drop) else s
  }

  /** `lstrip` keeps the longest suffix of `s` that does not start with a dropped character. */
  lemma {:induction false} StripLeftSuffix(s: string, drop: char -> bool)
    ensures var r := StripLeft(s, drop);
            && |r| <= |s| && r == s[|s| - |r|..]
            && AllDropped(s[..|s| - |r|], drop)
            && (r == [] || !drop(r[0]))
    decreases |s|
  {
    if |s| > 0 && drop(s[0]) {
      StripLeftSuffix(s[1..], drop);
      var r := StripLeft(s, drop);
      assert s[..|s| - |r|] == [s[0]] + s[1..][..|s| - 1 - |r|];
    }
  }

  /** `rstrip` keeps the longest prefix of `s` that does not end with a dropped character. */
  lemma {:induction false} StripRightPrefix(s: string, drop: char -> bool)
    ensures var r := StripRight(s, drop);
            && |r| <= |s| && r == s[..|r|]
            && AllDropped(s[|r|..], drop)
            && (r == [] || !drop(r[|r| - 1]))
    decreases |s|
  {
    if |s| > 0 && drop(s[|s| - 1]) {
      StripRightPrefix(s[..|s| - 1], drop);
      var r := StripRight(s, drop);
      assert s[|r|..] == s[..|s| - 1][|r|..] + [s[|s| - 1]];
    }
  }

  /**
   * `s.strip(chars)`: `s` without its leading and trailing run of dropped
   * characters. Nothing is left exactly when every character is dropped, and
   * a non-empty result starts and ends with a kept character.
   */
  function Strip(s: string, drop: char -> bool): (r: string)
    ensures |r| <= |s|
    ensures r == [] <==> AllDropped(s, drop)
    ensures r != [] ==> !drop(r[0]) && !drop(r[|r| - 1])
  {
    var left := StripLeft(s, drop);
    StripLeftSuffix(s, drop);
    StripRightPrefix(left, drop);
    assert s == s[..|s| - |left|] + left;
    StripRight(left, drop)
  }

  /** The stripped string is a slice of `s`, and all that lies outside the slice is dropped. */
  lemma StripIsSlice(s: string, drop: char -> bool)
    ensures exists lo :: 0 <= lo <= |s| - |Strip(s, drop)|
              && Strip(s, drop) == s[lo..lo + |Strip(s, drop)|]
              && AllDropped(s[..lo], drop) && AllDropped(s[lo + |Strip(s, drop)|..], drop)
  {
    var left := StripLeft(s, drop);
    var r := StripRight(left, drop);
    StripLeftSuffix(s, drop);
    StripRightPrefix(left, drop);
    var lo := |s| - |left|;
    assert s[lo..] == left;
    assert s[lo..lo + |r|] == left[..|r|];
    assert s[lo + |r|..] == left[|r|..];
  }

  /** Stripping leaves a string alone when none of its characters is dropped. */
  lemma StripKeptString(s: string, drop: char -> bool)
    requires forall i :: 0 <= i < |s| ==> !drop(s[i])
    ensures Strip(s, drop) == s
  {
  }

  /** `s.replace(from, to)` for single characters: every `from` becomes `to`, the rest is kept. */
  function ReplaceChar(s: string, from: char, to: char): (r: string)
    ensures |r| == |s|
    ensures forall i :: 0 <= i < |s| ==> r[i] == (if s[i] == from then to else s[i])
  {
    if s == [] then [] else [if s[0] == from then to else s[0]] + ReplaceChar(s[1..], from, to)
  }

  /**
   * Python's `str.isspace()`: the characters that `str.strip()` with no
   * argument removes.
   */
  predicate IsPythonSpace(c: char)
  {
    || ('\t' <= c <= '\r')
    || ('\U{1C}' <= c <= ' ')
    || c == '\U{85}' || c == '\U{A0}' || c == '\U{1680}'
    || ('\U{2000}' <= c <= '\U{200A}')
    || c == '\U{2028}' || c == '\U{2029}' || c == '\U{202F}' || c == '\U{205F}' || c == '\U{3000}'
  }
}
