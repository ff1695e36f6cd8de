/** Case-insensitive suffix matching, as a JavaScript regular expression of the form
    `/\.(ext1|ext2)$/i` performs it on a string: without the `u` flag, the `i` flag folds
    only characters whose folded form is on the same side of code point 128, so for the
    ASCII extensions used here it amounts to ASCII lower-casing. */
module Text {

  /** ASCII lower-casing; every other character is left as it is. */
  function LowerAscii(c: char): (r: char)
    ensures 'A' <= c <= 'Z' ==> 'a' <= r <= 'z' && r as int - c as int == 32
    ensures !('A' <= c <= 'Z') ==> r == c
  {
    if 'A' <= c <= 'Z' then (c as int + 32) as char else c
  }

  /** Two characters are equal when letter case is ignored. */
  predicate SameIgnoringCase(a: char, b: char)
  {
    LowerAscii(a) == LowerAscii(b)
  }

  /** The string with every ASCII letter lower-cased. */
  function Lower(s: string): (r: string)
    ensures |r| == |s|
    ensures forall i :: 0 <= i < |s| ==> r[i] == LowerAscii(s[i])
  {
    seq(|s|, i requires 0 <= i < |s| => LowerAscii(s[i]))
  }

  /** `s` ends with `suffix`, letter case ignored (the `$` anchor of a regex without the
      `m` flag): equivalently, lower-casing both, the tail of `s` is `suffix`. */
  predicate EndsWithIgnoringCase(s: string, suffix: string)
    ensures EndsWithIgnoringCase(s, suffix) <==>
      |suffix| <= |s| && Lower(s[|s| - |suffix|..]) == Lower(suffix)
  {
    && |suffix| <= |s|
    && forall k :: 0 <= k < |suffix| ==> SameIgnoringCase(s[|s| - |suffix| + k], suffix[k])
  }

  /** `s` ends, letter case ignored, with one of `suffixes` (a regex alternation). */
  predicate EndsWithAnyIgnoringCase(s: string, suffixes: seq<string>)
  {
    exists i :: 0 <= i < |suffixes| && EndsWithIgnoringCase(s, suffixes[i])
  }

  /** Whatever precedes a matching tail does not matter. */
  lemma {:induction false} EndsWithExtend(prefix: string, s: string, suffix: string)
    requires EndsWithIgnoringCase(s, suffix)
    ensures EndsWithIgnoringCase(prefix + s, suffix)
  {
    var t := prefix + s;
    forall k | 0 <= k < |suffix|
      ensures SameIgnoringCase(t[|t| - |suffix| + k], suffix[k])
    {
      assert t[|t| - |suffix| + k] == s[|s| - |suffix| + k];
    }
  }
}
