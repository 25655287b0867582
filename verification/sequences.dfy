/**
  Sequence helpers for the feed's derived values: `[...new Set(xs)]`, which
  keeps the first occurrence of every value in encounter order, and the
  position of a value's first occurrence.
 */
module Sequences {

  ghost predicate NoDuplicates<T>(s: seq<T>)
  {
    forall i, j :: 0 <= i < j < |s| ==> s[i] != s[j]
  }

  /** The values of `s` as a set. */
  function Elements<T>(s: seq<T>): set<T>
  {
    set x | x in s
  }

  /** The position of the first occurrence of `x` in `s`. */
  function FirstIndex<T(==)>(s: seq<T>, x: T): (i: nat)
    requires x in s
    ensures i < |s| && s[i] == x
    ensures forall j :: 0 <= j < i ==> s[j] != x
  {
    if s[0] == x then 0 else 1 + FirstIndex(s[1..], x)
  }

  /**
    `[...new Set(s)]`: a `Set` adds a value only when it is not yet present and
    iterates in insertion order.
   */
  function Distinct<T(==,!new)>(s: seq<T>): (r: seq<T>)
    ensures forall x :: x in r <==> x in s
    ensures NoDuplicates(r)
  {
    if |s| == 0 then []
    else
      var init, last := s[..|s| - 1], s[|s| - 1];
      assert s == init + [last];
      var p := Distinct(init);
      if last in p then p else p + [last]
  }

  /** Appending one element adds it to the distinct values unless it is already there. */
  lemma DistinctSnoc<T(!new)>(s: seq<T>, x: T)
    ensures Distinct(s + [x]) == if x in Distinct(s) then Distinct(s) else Distinct(s) + [x]
  {
    assert (s + [x])[..|s + [x]| - 1] == s;
  }

  lemma {:induction false} FirstIndexInPrefix<T>(s: seq<T>, x: T)
    requires |s| > 0 && x in s[..|s| - 1]
    ensures FirstIndex(s, x) == FirstIndex(s[..|s| - 1], x)
  {
    var n := |s| - 1;
    var i := FirstIndex(s[..n], x);
    assert s[i] == x;
    assert forall j :: 0 <= j < i ==> s[j] == s[..n][j];
    var k := FirstIndex(s, x);
    assert k <= i;
    assert s[..n][k] == x;
  }

  /** The distinct values appear in the order of their first occurrences in `s`. */
  lemma {:induction false} DistinctKeepsFirstOccurrenceOrder<T(!new)>(s: seq<T>)
    ensures forall i, j :: 0 <= i < j < |Distinct(s)| ==> FirstIndex(s, Distinct(s)[i]) < FirstIndex(s, Distinct(s)[j])
  {
    if |s| > 0 {
      var n := |s| - 1;
      var init, last := s[..n], s[n];
      DistinctKeepsFirstOccurrenceOrder(init);
      var p := Distinct(init);
      var r := Distinct(s);
      forall i, j | 0 <= i < j < |r|
        ensures FirstIndex(s, r[i]) < FirstIndex(s, r[j])
      {
        assert r[i] == p[i] && r[i] in init;
        FirstIndexInPrefix(s, r[i]);
        if j < |p| {
          assert r[j] == p[j] && r[j] in init;
          FirstIndexInPrefix(s, r[j]);
        } else {
          assert r[j] == last && last !in init;
          assert FirstIndex(s, last) == n by {
            assert forall k :: 0 <= k < n ==> s[k] == init[k];
          }
        }
      }
    }
  }

  lemma {:induction false} NoDuplicatesCardinality<T>(s: seq<T>)
    requires NoDuplicates(s)
    ensures |Elements(s)| == |s|
  {
    if |s| > 0 {
      var init := s[..|s| - 1];
      NoDuplicatesCardinality(init);
      assert Elements(s) == Elements(init) + {s[|s| - 1]};
      assert s[|s| - 1] !in Elements(init);
    }
  }

  /** The number of distinct values is the size of the value set of `s`. */
  lemma DistinctLength<T(!new)>(s: seq<T>)
    ensures |Distinct(s)| == |Elements(s)|
  {
    NoDuplicatesCardinality(Distinct(s));
    assert Elements(Distinct(s)) == Elements(s);
  }

  /** A sequence has at most as many distinct values as elements, and some when it is not empty. */
  lemma {:induction false} ElementsCardinality<T>(s: seq<T>)
    ensures |Elements(s)| <= |s|
    ensures |s| > 0 ==> |Elements(s)| > 0
  {
    if |s| > 0 {
      var init := s[..|s| - 1];
      ElementsCardinality(init);
      assert Elements(s) == Elements(init) + {s[|s| - 1]};
    }
  }
}
