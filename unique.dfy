/**
  The order-preserving de-duplication `unique` nested in `parse_inp`: a
  `seen` set beside a `result` list, filled in one pass over the input.
  `Dedup` is the specification of that loop; the lemmas say what it means:
  no repeats, the same elements, first-occurrence order, and nothing to do
  on a list that already has no repeats.
 */
module Deduplication {

  /** No element occurs twice. */
  predicate NoDups<T(==,!new)>(s: seq<T>) {
    forall i, j :: 0 <= i < j < |s| ==> s[i] != s[j]
  }

  /** The position of the first occurrence of `x` in `s`. */
  function FirstIndex<T(==,!new)>(s: seq<T>, x: T): (k: nat)
    requires x in s
    ensures k < |s| && s[k] == x && x !in s[..k]
  {
    if s[0] == x then 0 else 1 + FirstIndex(s[1..], x)
  }

  /** The distinct elements of `s`, each kept where it first occurs. */
  function Dedup<T(==,!new)>(s: seq<T>): (r: seq<T>)
    ensures NoDups(r)
    ensures forall x :: x in r <==> x in s
    ensures |r| <= |s|
  {
    if s == [] then []
    else
      var init := s[..|s| - 1];
      var x := s[|s| - 1];
      assert s == init + [x];
      var d := Dedup(init);
      if x in d then d else d + [x]
  }

  /** Appending an element does not move the first occurrence of an element
      that was already there. */
  lemma FirstIndexAppend<T(!new)>(s: seq<T>, x: T, y: T)
    requires y in s
    ensures FirstIndex(s + [x], y) == FirstIndex(s, y)
  {
    var k := FirstIndex(s, y);
    var k' := FirstIndex(s + [x], y);
    assert forall i :: 0 <= i < k' ==> (s + [x])[..k'][i] != y;
    assert (s + [x])[k] == y;
    assert k' <= k;
    assert forall i :: 0 <= i < k ==> s[..k][i] != y;
    assert s[k'] == y;
  }

  /** `Dedup` lists the elements in the order of their first occurrence, so
      it is a subsequence of its input. */
  lemma {:induction false} DedupFirstOccurrenceOrder<T(!new)>(s: seq<T>)
    ensures forall i, j :: 0 <= i < j < |Dedup(s)| ==>
              FirstIndex(s, Dedup(s)[i]) < FirstIndex(s, Dedup(s)[j])
  {
    if s != [] {
      var init, x := s[..|s| - 1], s[|s| - 1];
      assert s == init + [x];
      DedupFirstOccurrenceOrder(init);
      var d := Dedup(init);
      forall y | y in d
        ensures FirstIndex(s, y) == FirstIndex(init, y) < |init|
      {
        FirstIndexAppend(init, x, y);
      }
      if x !in d {
        assert x !in init;
        assert FirstIndex(s, x) == |init| by {
          assert forall i :: 0 <= i < |init| ==> s[i] == init[i] != x;
        }
        forall i, j | 0 <= i < j < |Dedup(s)|
          ensures FirstIndex(s, Dedup(s)[i]) < FirstIndex(s, Dedup(s)[j])
        {
          assert Dedup(s) == d + [x];
          assert Dedup(s)[i] in d;
          if j < |d| {
            assert Dedup(s)[j] in d;
          }
        }
      }
    }
  }

  /** On a list without repeats `Dedup` changes nothing. */
  lemma {:induction false} DedupOfDistinct<T(!new)>(s: seq<T>)
    requires NoDups(s)
    ensures Dedup(s) == s
  {
    if s != [] {
      var init, x := s[..|s| - 1], s[|s| - 1];
      assert s == init + [x];
      assert NoDups(init);
      DedupOfDistinct(init);
      assert x !in init by {
        assert forall i :: 0 <= i < |init| ==> init[i] == s[i] != s[|s| - 1];
      }
    }
  }

  /** De-duplicating twice is de-duplicating once. */
  lemma DedupIdempotent<T(!new)>(s: seq<T>)
    ensures Dedup(Dedup(s)) == Dedup(s)
  {
    DedupOfDistinct(Dedup(s));
  }

  /** Elements are listed in strictly increasing order of first occurrence in `s`. */
  predicate InFirstOccurrenceOrder<T(==,!new)>(s: seq<T>, r: seq<T>)
    requires forall x :: x in r ==> x in s
  {
    forall i, j :: 0 <= i < j < |r| ==> FirstIndex(s, r[i]) < FirstIndex(s, r[j])
  }

  /** `Dedup(s)` is the only list without repeats, with the elements of `s`,
      in first-occurrence order. */
  lemma DedupCharacterized<T(!new)>(s: seq<T>, r: seq<T>)
    requires NoDups(r)
    requires forall x :: x in r <==> x in s
    requires InFirstOccurrenceOrder(s, r)
    ensures r == Dedup(s)
  {
    DedupFirstOccurrenceOrder(s);
    SameOrderedElements(s, r, Dedup(s));
  }

  /** The head of a list in first-occurrence order occurs first of all its elements. */
  lemma HeadOccursFirst<T(!new)>(s: seq<T>, r: seq<T>)
    requires r != []
    requires forall x :: x in r ==> x in s
    requires InFirstOccurrenceOrder(s, r)
    ensures forall x :: x in r ==> FirstIndex(s, r[0]) <= FirstIndex(s, x)
  {
    forall x | x in r
      ensures FirstIndex(s, r[0]) <= FirstIndex(s, x)
    {
      var i :| 0 <= i < |r| && r[i] == x;
      assert i == 0 || FirstIndex(s, r[0]) < FirstIndex(s, r[i]);
    }
  }

  /** Dropping the common head of two lists without repeats and with the
      same elements leaves two lists with the same elements. */
  lemma TailsSameElements<T(!new)>(r: seq<T>, d: seq<T>)
    requires r != [] && d != [] && r[0] == d[0]
    requires NoDups(r) && NoDups(d)
    requires forall x :: x in r <==> x in d
    ensures forall x :: x in r[1..] <==> x in d[1..]
  {
    forall x
      ensures x in r[1..] ==> x in d[1..]
      ensures x in d[1..] ==> x in r[1..]
    {
      if x in r[1..] {
        var i :| 0 <= i < |r[1..]| && r[1..][i] == x;
        assert r[i + 1] == x != r[0];
        assert x in r && x in d;
        var j :| 0 <= j < |d| && d[j] == x;
        assert d[1..][j - 1] == x;
      }
      if x in d[1..] {
        var j :| 0 <= j < |d[1..]| && d[1..][j] == x;
        assert d[j + 1] == x != d[0];
        assert x in d && x in r;
        var i :| 0 <= i < |r| && r[i] == x;
        assert r[1..][i - 1] == x;
      }
    }
  }

  /** A list is empty exactly when nothing is in it. */
  lemma EmptyIffNoElements<T(!new)>(d: seq<T>)
    ensures d == [] <==> forall x :: x !in d
  {
    if d != [] {
      assert d[0] in d;
    }
  }

  /** Two lists without repeats, with the same elements, both ordered by
      first occurrence in `s`, are equal. */
  lemma {:induction false} SameOrderedElements<T(!new)>(s: seq<T>, r: seq<T>, d: seq<T>)
    requires NoDups(r) && NoDups(d)
    requires forall x :: x in r ==> x in s
    requires forall x :: x in r <==> x in d
    requires InFirstOccurrenceOrder(s, r) && InFirstOccurrenceOrder(s, d)
    ensures r == d
    decreases |r|
  {
    if r == [] {
      EmptyIffNoElements(d);
    } else {
      assert r[0] in d;
      assert d[0] in r;
      HeadOccursFirst(s, r);
      HeadOccursFirst(s, d);
      assert FirstIndex(s, r[0]) == FirstIndex(s, d[0]);
      assert r[0] == d[0];
      TailsSameElements(r, d);
      var r', d' := r[1..], d[1..];
      assert InFirstOccurrenceOrder(s, r') by {
        assert forall i :: 0 <= i < |r'| ==> r'[i] == r[i + 1];
      }
      assert InFirstOccurrenceOrder(s, d') by {
        assert forall i :: 0 <= i < |d'| ==> d'[i] == d[i + 1];
      }
      SameOrderedElements(s, r', d');
      assert r == [r[0]] + r';
      assert d == [d[0]] + d';
    }
  }

  /** `unique(seq)`: a `seen` set and a `result` list updated in one pass. */
  method Unique<T(==,!new)>(s: seq<T>) returns (result: seq<T>)
    ensures result == Dedup(s)
  {
    var seen: set<T> := {};
    result := [];
    for k := 0 to |s|
      invariant result == Dedup(s[..k])
      invariant forall x :: x in seen <==> x in result
    {
      var x := s[k];
      assert s[..k + 1] == s[..k] + [x];
      if x !in seen {
        seen := seen + {x};
        result := result + [x];
      }
    }
    assert s[..|s|] == s;
  }
}
