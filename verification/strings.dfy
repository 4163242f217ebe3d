/** Small string helpers shared by the path recognisers, the posix path
    functions and the batch driver. */
module Strings {

  /** Index of the last occurrence of `c` in `s`, or -1 if there is none. */
  function LastIndex(s: string, c: char): (d: int)
    ensures -1 <= d < |s|
    ensures d >= 0 ==> s[d] == c
    ensures forall j | d < j < |s| :: s[j] != c
  {
    if |s| == 0 then -1
    else if s[|s| - 1] == c then |s| - 1
    else LastIndex(s[..|s| - 1], c)
  }

  /** Python's `str.endswith` for one suffix. */
  predicate EndsWith(s: string, suffix: string) {
    |suffix| <= |s| && s[|s| - |suffix|..] == suffix
  }

  /** Python's `str.replace` for one character by another. */
  function ReplaceChar(s: string, from: char, to: char): (r: string)
    ensures |r| == |s|
    ensures forall i | 0 <= i < |s| :: r[i] == (if s[i] == from then to else s[i])
    ensures from != to ==> from !in r
  {
    seq(|s|, i requires 0 <= i < |s| => if s[i] == from then to else s[i])
  }

  /** `s.split(sep)[-1]`: the text after the last separator, or all of `s`. */
  function LastField(s: string, sep: char): (r: string)
    ensures sep !in r
    ensures EndsWith(s, r)
    ensures |r| < |s| ==> s[|s| - |r| - 1] == sep
  {
    var d := LastIndex(s, sep);
    assert sep !in s[d + 1..] by {
      AfterLast(s, sep, d);
    }
    s[d + 1..]
  }

  lemma AfterLast(s: string, sep: char, d: int)
    requires -1 <= d < |s|
    requires forall j | d < j < |s| :: s[j] != sep
    ensures sep !in s[d + 1..]
  {
    var t := s[d + 1..];
    forall k | 0 <= k < |t|
      ensures t[k] != sep
    {
      assert t[k] == s[d + 1 + k];
    }
  }

  /** A suffix made of one separator and separator-free text is the last
      field. */
  lemma LastFieldOfSuffix(s: string, sep: char, x: string)
    requires sep !in x && EndsWith(s, [sep] + x)
    ensures LastField(s, sep) == x
  {
    var n := |s| - |x|;
    assert s[n - 1] == sep by {
      assert s[n - 1] == ([sep] + x)[0];
    }
    forall j | n <= j < |s|
      ensures s[j] != sep
    {
      assert s[j] == ([sep] + x)[j - n + 1];
    }
    assert LastIndex(s, sep) == n - 1;
    assert s[n..] == x;
  }
}
