/**
  `Array.prototype.sort` with a comparator, which the ECMAScript specification
  requires to be stable: a stable insertion sort over sequences, with the
  properties the community feed relies on — the result is a permutation, it is
  ordered by the comparator, elements the comparator ties keep their input
  order, and a comparator that ties everything leaves the input as it is.
 */
module StableSort {

  /**
    The comparator laws for one triple: swapping the arguments negates the
    result, and "not after" is transitive.
   */
  ghost predicate Laws<T>(cmp: (T, T) -> int, a: T, b: T, c: T)
  {
    && cmp(b, a) == -cmp(a, b)
    && (cmp(a, b) <= 0 && cmp(b, c) <= 0 ==> cmp(a, c) <= 0)
  }

  /** A consistent comparator on the elements of `s`: the laws hold for every triple. */
  ghost predicate Consistent<T(!new)>(cmp: (T, T) -> int, s: seq<T>)
  {
    forall a, b, c {:trigger Laws(cmp, a, b, c)} :: a in s && b in s && c in s ==> Laws(cmp, a, b, c)
  }

  /** No element is placed after one that the comparator wants later. */
  ghost predicate Sorted<T>(cmp: (T, T) -> int, s: seq<T>)
  {
    forall i, j :: 0 <= i < j < |s| ==> cmp(s[i], s[j]) <= 0
  }

  /**
    Inserts `x` behind every element of `s` that does not compare after it;
    on a sorted `s` these elements form a prefix.
   */
  function Insert<T>(cmp: (T, T) -> int, x: T, s: seq<T>): seq<T>
  {
    if |s| == 0 then [x]
    else if cmp(s[0], x) <= 0 then [s[0]] + Insert(cmp, x, s[1..])
    else [x] + s
  }

  /** Insertion adds exactly `x` to the elements. */
  lemma {:induction false} InsertPermutes<T>(cmp: (T, T) -> int, x: T, s: seq<T>)
    ensures multiset(Insert(cmp, x, s)) == multiset(s) + multiset{x}
  {
    if |s| > 0 && cmp(s[0], x) <= 0 {
      assert s == [s[0]] + s[1..];
      InsertPermutes(cmp, x, s[1..]);
    }
  }

  lemma InsertBefore<T>(cmp: (T, T) -> int, x: T, h: T, rest: seq<T>)
    requires cmp(h, x) > 0
    ensures Insert(cmp, x, [h] + rest) == [x, h] + rest
  {
  }

  lemma InsertPast<T>(cmp: (T, T) -> int, x: T, h: T, rest: seq<T>)
    requires cmp(h, x) <= 0
    ensures Insert(cmp, x, [h] + rest) == [h] + Insert(cmp, x, rest)
  {
    assert ([h] + rest)[1..] == rest;
  }

  /** Sorts by inserting the elements one by one in input order. */
  function Sort<T>(cmp: (T, T) -> int, s: seq<T>): seq<T>
  {
    if |s| == 0 then []
    else Insert(cmp, s[|s| - 1], Sort(cmp, s[..|s| - 1]))
  }

  /** Sorting only reorders: the result is a permutation of the input. */
  lemma {:induction false} SortPermutes<T>(cmp: (T, T) -> int, s: seq<T>)
    ensures multiset(Sort(cmp, s)) == multiset(s)
    ensures |Sort(cmp, s)| == |s|
  {
    if |s| > 0 {
      var p, y := s[..|s| - 1], s[|s| - 1];
      assert s == p + [y];
      SortPermutes(cmp, p);
      InsertPermutes(cmp, y, Sort(cmp, p));
      var r := Sort(cmp, s);
      assert |r| == |multiset(r)|;
    }
  }

  /** Sorting one more element inserts it into the sorted rest. */
  lemma SortSnoc<T>(cmp: (T, T) -> int, p: seq<T>, y: T)
    ensures Sort(cmp, p + [y]) == Insert(cmp, y, Sort(cmp, p))
  {
    assert (p + [y])[..|p|] == p;
  }

  /** The elements of `s` that tie with `x`, in their order in `s`. */
  function TiesWith<T>(cmp: (T, T) -> int, s: seq<T>, x: T): seq<T>
  {
    if |s| == 0 then []
    else (if cmp(s[0], x) == 0 then [s[0]] else []) + TiesWith(cmp, s[1..], x)
  }

  lemma ConsistentSubset<T(!new)>(cmp: (T, T) -> int, s: seq<T>, t: seq<T>)
    requires Consistent(cmp, s)
    requires forall a :: a in t ==> a in s
    ensures Consistent(cmp, t)
  {
  }

  lemma {:induction false} TiesWithConcat<T>(cmp: (T, T) -> int, a: seq<T>, b: seq<T>, x: T)
    ensures TiesWith(cmp, a + b, x) == TiesWith(cmp, a, x) + TiesWith(cmp, b, x)
  {
    if |a| == 0 {
      assert a + b == b;
    } else {
      assert (a + b)[1..] == a[1..] + b;
      TiesWithConcat(cmp, a[1..], b, x);
      var head := if cmp(a[0], x) == 0 then [a[0]] else [];
      assert TiesWith(cmp, a + b, x) == head + TiesWith(cmp, a[1..] + b, x);
      assert TiesWith(cmp, a, x) == head + TiesWith(cmp, a[1..], x);
    }
  }

  lemma {:induction false} TiesWithNone<T>(cmp: (T, T) -> int, s: seq<T>, x: T)
    requires forall z :: z in s ==> cmp(z, x) != 0
    ensures TiesWith(cmp, s, x) == []
  {
    if |s| > 0 {
      TiesWithNone(cmp, s[1..], x);
    }
  }

  lemma {:induction false} InsertSorted<T(!new)>(cmp: (T, T) -> int, x: T, s: seq<T>)
    requires Consistent(cmp, s + [x])
    requires Sorted(cmp, s)
    ensures Sorted(cmp, Insert(cmp, x, s))
  {
    if |s| > 0 {
      var r := Insert(cmp, x, s);
      assert s[0] in s + [x] && x in s + [x];
      if cmp(s[0], x) <= 0 {
        var rest := Insert(cmp, x, s[1..]);
        InsertPermutes(cmp, x, s[1..]);
        ConsistentSubset(cmp, s + [x], s[1..] + [x]);
        InsertSorted(cmp, x, s[1..]);
        forall k | 0 <= k < |rest|
          ensures cmp(s[0], rest[k]) <= 0
        {
          assert rest[k] in multiset(rest);
          assert rest[k] == x || rest[k] in s[1..];
        }
        assert r == [s[0]] + rest;
      } else {
        assert Laws(cmp, s[0], x, x);
        forall j | 0 < j < |s|
          ensures cmp(x, s[j]) <= 0
        {
          assert s[j] in s + [x];
          assert Laws(cmp, x, s[0], s[j]);
        }
        assert r == [x] + s;
      }
    }
  }

  /** The result is ordered by the comparator, provided it obeys the laws on `s`. */
  lemma {:induction false} SortSorted<T(!new)>(cmp: (T, T) -> int, s: seq<T>)
    requires Consistent(cmp, s)
    ensures Sorted(cmp, Sort(cmp, s))
  {
    if |s| > 0 {
      var p, y := s[..|s| - 1], s[|s| - 1];
      assert s == p + [y];
      ConsistentSubset(cmp, s, p);
      SortSorted(cmp, p);
      var sp := Sort(cmp, p);
      SortPermutes(cmp, p);
      forall a | a in sp + [y]
        ensures a in s
      {
        assert a in multiset(sp) || a == y;
      }
      ConsistentSubset(cmp, s, sp + [y]);
      InsertSorted(cmp, y, sp);
    }
  }

  /**
    In a sorted `t` whose head compares strictly after `y`, nothing ties with
    an `x` that ties with `y`: it would compare no later than `y`, and so
    before the head.
   */
  lemma NoTiesBehindLaterHead<T(!new)>(cmp: (T, T) -> int, y: T, t: seq<T>, x: T)
    requires Consistent(cmp, t + [y, x])
    requires Sorted(cmp, t)
    requires |t| > 0 && cmp(t[0], y) > 0 && cmp(y, x) == 0
    ensures forall z :: z in t ==> cmp(z, x) != 0
  {
    var t0 := t[0];
    assert t0 in t + [y, x] && y in t + [y, x] && x in t + [y, x];
    assert Laws(cmp, y, x, x);
    assert Laws(cmp, t0, t0, t0);
    forall z | z in t
      ensures cmp(z, x) != 0
    {
      var j :| 0 <= j < |t| && t[j] == z;
      assert z in t + [y, x];
      assert cmp(t0, z) <= 0 by {
        if j > 0 {
          assert cmp(t[0], t[j]) <= 0;
        }
      }
      assert Laws(cmp, z, x, y);
      assert Laws(cmp, t0, z, y);
    }
  }

  /**
    Inserting `y` adds it to the ties of `x` after every tie already present:
    every element behind the insertion point compares strictly after `y`.
   */
  lemma {:induction false} InsertTies<T(!new)>(cmp: (T, T) -> int, y: T, t: seq<T>, x: T)
    requires Consistent(cmp, t + [y, x])
    requires Sorted(cmp, t)
    ensures TiesWith(cmp, Insert(cmp, y, t), x) == TiesWith(cmp, t, x) + (if cmp(y, x) == 0 then [y] else [])
  {
    var ys := if cmp(y, x) == 0 then [y] else [];
    if |t| == 0 {
      assert Insert(cmp, y, t) == [y] + [];
      TiesWithCons(cmp, y, [], x);
      assert TiesWith(cmp, [y] + [], x) == ys + [];
    } else if cmp(t[0], y) <= 0 {
      var t0, tail := t[0], t[1..];
      var rest := Insert(cmp, y, tail);
      assert Insert(cmp, y, t) == [t0] + rest;
      assert t == [t0] + tail;
      ConsistentSubset(cmp, t + [y, x], tail + [y, x]);
      SortedTail(cmp, t);
      InsertTies(cmp, y, tail, x);
      TiesWithCons(cmp, t0, rest, x);
      TiesWithCons(cmp, t0, tail, x);
      var head, mid := if cmp(t0, x) == 0 then [t0] else [], TiesWith(cmp, tail, x);
      assert head + (mid + ys) == (head + mid) + ys;
    } else {
      assert Insert(cmp, y, t) == [y] + t;
      TiesWithCons(cmp, y, t, x);
      if cmp(y, x) == 0 {
        NoTiesBehindLaterHead(cmp, y, t, x);
        TiesWithNone(cmp, t, x);
      }
    }
  }

  lemma TiesWithCons<T>(cmp: (T, T) -> int, a: T, s: seq<T>, x: T)
    ensures TiesWith(cmp, [a] + s, x) == (if cmp(a, x) == 0 then [a] else []) + TiesWith(cmp, s, x)
  {
    assert ([a] + s)[1..] == s;
  }

  lemma SortedTail<T>(cmp: (T, T) -> int, s: seq<T>)
    requires |s| > 0 && Sorted(cmp, s)
    ensures Sorted(cmp, s[1..])
  {
    forall i, j | 0 <= i < j < |s| - 1
      ensures cmp(s[1..][i], s[1..][j]) <= 0
    {
      assert s[1..][i] == s[i + 1] && s[1..][j] == s[j + 1];
    }
  }

  /** The sorted prefix, the next element and `x` keep the comparator laws of the input. */
  lemma SortStepConsistent<T(!new)>(cmp: (T, T) -> int, s: seq<T>, x: T)
    requires |s| > 0
    requires Consistent(cmp, s + [x])
    ensures Consistent(cmp, Sort(cmp, s[..|s| - 1]) + [s[|s| - 1], x])
  {
    var p, y := s[..|s| - 1], s[|s| - 1];
    var sp := Sort(cmp, p);
    SortPermutes(cmp, p);
    forall a | a in sp + [y, x]
      ensures a in s + [x]
    {
      assert a in multiset(sp) || a == y || a == x;
      assert a in multiset(p) ==> a in p;
    }
    ConsistentSubset(cmp, s + [x], sp + [y, x]);
  }

  /**
    Stability: for every `x`, the elements tying with `x` appear in the output
    in exactly the order they had in the input.
   */
  lemma {:induction false} SortStable<T(!new)>(cmp: (T, T) -> int, s: seq<T>, x: T)
    requires Consistent(cmp, s + [x])
    ensures TiesWith(cmp, Sort(cmp, s), x) == TiesWith(cmp, s, x)
  {
    if |s| > 0 {
      var p, y := s[..|s| - 1], s[|s| - 1];
      assert s == p + [y];
      ConsistentSubset(cmp, s + [x], p + [x]);
      SortStable(cmp, p, x);
      ConsistentSubset(cmp, s + [x], p);
      SortSorted(cmp, p);
      SortStepConsistent(cmp, s, x);
      InsertTies(cmp, y, Sort(cmp, p), x);
      TiesWithConcat(cmp, p, [y], x);
      assert [y][1..] == [];
    }
  }

  lemma {:induction false} InsertAllTies<T>(cmp: (T, T) -> int, y: T, t: seq<T>)
    requires forall z :: z in t ==> cmp(z, y) == 0
    ensures Insert(cmp, y, t) == t + [y]
  {
    if |t| > 0 {
      InsertAllTies(cmp, y, t[1..]);
      assert t == [t[0]] + t[1..];
    }
  }

  /** A comparator that ties every pair leaves the order of `s` unchanged. */
  lemma {:induction false} SortAllTies<T>(cmp: (T, T) -> int, s: seq<T>)
    requires forall a, b :: a in s && b in s ==> cmp(a, b) == 0
    ensures Sort(cmp, s) == s
  {
    if |s| > 0 {
      var p, y := s[..|s| - 1], s[|s| - 1];
      assert s == p + [y];
      SortAllTies(cmp, p);
      InsertAllTies(cmp, y, p);
    }
  }

  /** The comparator ties no two distinct elements of `s`. */
  ghost predicate TieFree<T(!new)>(cmp: (T, T) -> int, s: seq<T>)
  {
    forall a, b {:trigger Apart(cmp, a, b)} :: a in s && b in s ==> Apart(cmp, a, b)
  }

  ghost predicate Apart<T>(cmp: (T, T) -> int, a: T, b: T)
  {
    a != b ==> cmp(a, b) != 0
  }

  lemma SortedHeadsEqual<T(!new)>(cmp: (T, T) -> int, s: seq<T>, t: seq<T>)
    requires Consistent(cmp, s) && TieFree(cmp, s)
    requires multiset(s) == multiset(t) && |s| > 0
    requires Sorted(cmp, s) && Sorted(cmp, t)
    ensures |t| > 0 && t[0] == s[0]
  {
    assert |t| == |multiset(t)| == |s|;
    var s0, t0 := s[0], t[0];
    assert s0 in multiset(t) && t0 in multiset(s);
    assert s0 in s && t0 in s;
    assert Laws(cmp, s0, t0, t0);
    assert Apart(cmp, s0, t0);
  }

  lemma {:induction false} SortedPermutationsEqual<T(!new)>(cmp: (T, T) -> int, s: seq<T>, t: seq<T>)
    requires Consistent(cmp, s) && TieFree(cmp, s)
    requires multiset(s) == multiset(t)
    requires Sorted(cmp, s) && Sorted(cmp, t)
    ensures s == t
  {
    if |s| == 0 {
      assert |t| == |multiset(t)| == 0;
    } else {
      SortedHeadsEqual(cmp, s, t);
      var x, s', t' := s[0], s[1..], t[1..];
      assert s == [x] + s' && t == [x] + t';
      TailMultiset(s, t);
      TailFacts(cmp, s);
      assert Sorted(cmp, t');
      SortedPermutationsEqual(cmp, s', t');
    }
  }

  lemma TailMultiset<T>(s: seq<T>, t: seq<T>)
    requires |s| > 0 && |t| > 0 && s[0] == t[0] && multiset(s) == multiset(t)
    ensures multiset(s[1..]) == multiset(t[1..])
  {
    assert s == [s[0]] + s[1..] && t == [t[0]] + t[1..];
    assert multiset(s[1..]) == multiset(s) - multiset{s[0]};
    assert multiset(t[1..]) == multiset(t) - multiset{t[0]};
  }

  lemma TailFacts<T(!new)>(cmp: (T, T) -> int, s: seq<T>)
    requires Consistent(cmp, s) && TieFree(cmp, s) && |s| > 0
    ensures Consistent(cmp, s[1..]) && TieFree(cmp, s[1..])
  {
    assert forall a :: a in s[1..] ==> a in s;
    ConsistentSubset(cmp, s, s[1..]);
    forall a, b | a in s[1..] && b in s[1..]
      ensures Apart(cmp, a, b)
    {
      assert a in s && b in s;
    }
  }

  /**
    Without ties the order is fully determined: the result is the one
    ordered rearrangement of the input.
   */
  lemma SortUnique<T(!new)>(cmp: (T, T) -> int, s: seq<T>, t: seq<T>)
    requires Consistent(cmp, s) && TieFree(cmp, s)
    requires multiset(t) == multiset(s)
    requires Sorted(cmp, t)
    ensures Sort(cmp, s) == t
  {
    var r := Sort(cmp, s);
    SortSorted(cmp, s);
    SortPermutes(cmp, s);
    forall a | a in r
      ensures a in s
    {
      assert a in multiset(r);
    }
    ConsistentSubset(cmp, s, r);
    forall a, b | a in r && b in r
      ensures Apart(cmp, a, b)
    {
      assert a in s && b in s;
    }
    SortedPermutationsEqual(cmp, r, t);
  }
}
