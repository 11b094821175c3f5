/**
  Facts about sequences that the other modules share: joining, slicing and
  membership, independent of what the elements are.
 */
module Sequences {

  /** Joining is associative. */
  lemma AppendAssoc<T>(a: seq<T>, b: seq<T>, c: seq<T>)
    ensures (a + b) + c == a + (b + c)
  {
  }

  /** A slice of `x` is the same slice, shifted by `|w|`, of `w + x`. */
  lemma SliceAfterPrefix<T>(w: seq<T>, x: seq<T>, a: nat, b: nat)
    requires a <= b <= |x|
    ensures (w + x)[|w| + a..|w| + b] == x[a..b]
  {
  }

  /** A slice grown by one element. */
  lemma SliceExtend<T>(s: seq<T>, i: nat, j: nat)
    requires i <= j < |s|
    ensures s[i..j + 1] == s[i..j] + [s[j]]
  {
  }

  /** A suffix is its first element followed by the next suffix. */
  lemma SuffixCons<T>(s: seq<T>, p: nat)
    requires p < |s|
    ensures s[p..] == [s[p]] + s[p + 1..]
  {
  }

  /** What is in a slice is in the whole. */
  lemma SliceMembers<T>(s: seq<T>, i: nat, j: nat)
    requires i <= j <= |s|
    ensures forall x :: x in s[i..j] ==> x in s
  {
    forall x | x in s[i..j]
      ensures x in s
    {
      var k :| 0 <= k < j - i && s[i..j][k] == x;
      assert s[i + k] == x;
    }
  }

  /** A list of at most one element holding `x` is `[x]`. */
  lemma Singleton<T>(d: seq<T>, x: T)
    requires |d| <= 1 && x in d
    ensures d == [x]
  {
  }
}
