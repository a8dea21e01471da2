/** Searching in strings. */
module Strings {

  /** The first position of `c`, or the length when it does not occur. */
  function IndexOf(s: string, c: char): (k: nat)
    ensures k <= |s|
    ensures forall i :: 0 <= i < k ==> s[i] != c
    ensures k < |s| ==> s[k] == c
  {
    if s == "" || s[0] == c then 0 else 1 + IndexOf(s[1..], c)
  }

  /** A string is cut at its first `c`. */
  lemma {:induction false} CutAtFirst(before: string, c: char, after: string)
    requires c !in before
    ensures var s := before + [c] + after;
            IndexOf(s, c) == |before| && s[..|before|] == before && s[|before| + 1..] == after
  {
    hide IndexOf;
    var s := before + [c] + after;
    assert s[|before|] == c;
    assert forall i :: 0 <= i < |before| ==> s[i] == before[i];
  }
}
