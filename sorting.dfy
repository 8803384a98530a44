/**
 * Stable sorting, as `Array.prototype.sort` with a comparator performs it.
 * A comparator is given as `le(a, b)`, "a may stay before b", which is
 * `compare(a, b) <= 0`. `SortBy` is the stable insertion sort on sequences;
 * `SortInPlace` is the same algorithm on an array, proved to compute `SortBy`.
 */
module Sorting {

  ghost predicate TotalPreorder<T(!new)>(le: (T, T) -> bool)
  {
    && (forall a, b :: le(a, b) || le(b, a))
    && (forall a, b, c :: le(a, b) && le(b, c) ==> le(a, c))
  }

  predicate SortedBy<T>(le: (T, T) -> bool, s: seq<T>)
  {
    forall i, j :: 0 <= i < j < |s| ==> le(s[i], s[j])
  }

  /** No two elements of `s` share a key. */
  predicate DistinctBy<T, K(==)>(key: T -> K, s: seq<T>)
  {
    forall i, j :: 0 <= i < j < |s| ==> key(s[i]) != key(s[j])
  }

  /**
   * Stable insertion of `x` after the elements of `s`: `x` moves left past
   * every element that must come after it, and stops at the first one that
   * may stay before it.
   */
  function Insert<T>(le: (T, T) -> bool, s: seq<T>, x: T): (r: seq<T>)
    ensures |r| == |s| + 1
    ensures multiset(r) == multiset(s) + multiset{x}
  {
    if |s| == 0 || le(s[|s| - 1], x) then s + [x]
    else
      var init := s[..|s| - 1];
      assert s == init + [s[|s| - 1]];
      Insert(le, init, x) + [s[|s| - 1]]
  }

  /** Insertion sort: the elements of `s` inserted one after the other, left to right. */
  function SortBy<T>(le: (T, T) -> bool, s: seq<T>): (r: seq<T>)
    ensures |r| == |s|
    ensures multiset(r) == multiset(s)
  {
    if |s| == 0 then []
    else
      var init := s[..|s| - 1];
      assert s == init + [s[|s| - 1]];
      Insert(le, SortBy(le, init), s[|s| - 1])
  }

  /** The elements of `s` that `le` ranks equal to `k`, in their order in `s`. */
  function Ties<T>(le: (T, T) -> bool, k: T, s: seq<T>): seq<T>
  {
    if |s| == 0 then []
    else
      var last := s[|s| - 1];
      Ties(le, k, s[..|s| - 1]) + (if le(k, last) && le(last, k) then [last] else [])
  }

  function SumOf<T>(f: T -> int, s: seq<T>): int
  {
    if |s| == 0 then 0 else SumOf(f, s[..|s| - 1]) + f(s[|s| - 1])
  }

  // ---------------------------------------------------------------------------
  // The sorted result is ordered

  lemma {:induction false} InsertSorted<T(!new)>(le: (T, T) -> bool, s: seq<T>, x: T)
    requires TotalPreorder(le) && SortedBy(le, s)
    ensures SortedBy(le, Insert(le, s, x))
    decreases |s|
  {
    if |s| == 0 || le(s[|s| - 1], x) {
      var r := s + [x];
      forall i, j | 0 <= i < j < |r|
        ensures le(r[i], r[j])
      {
        if j == |s| && i < |s| - 1 {
          assert le(s[i], s[|s| - 1]);
        }
      }
    } else {
      var init, last := s[..|s| - 1], s[|s| - 1];
      InsertSorted(le, init, x);
      var r := Insert(le, init, x);
      assert Insert(le, s, x) == r + [last];
      forall i | 0 <= i < |r|
        ensures le(r[i], last)
      {
        assert r[i] in multiset(r);
        if r[i] != x {
          assert r[i] in init;
          var k :| 0 <= k < |init| && init[k] == r[i];
          assert le(s[k], s[|s| - 1]);
        }
      }
    }
  }

  lemma {:induction false} SortBySorted<T(!new)>(le: (T, T) -> bool, s: seq<T>)
    requires TotalPreorder(le)
    ensures SortedBy(le, SortBy(le, s))
    decreases |s|
  {
    if |s| > 0 {
      SortBySorted(le, s[..|s| - 1]);
      InsertSorted(le, SortBy(le, s[..|s| - 1]), s[|s| - 1]);
    }
  }

  // ---------------------------------------------------------------------------
  // The sort is stable

  lemma TiesSnoc<T>(le: (T, T) -> bool, k: T, s: seq<T>, x: T)
    ensures Ties(le, k, s + [x]) == Ties(le, k, s) + Ties(le, k, [x])
  {
    assert (s + [x])[..|s|] == s;
    assert [x][..0] == [];
  }

  lemma {:induction false} InsertTies<T(!new)>(le: (T, T) -> bool, k: T, s: seq<T>, x: T)
    requires TotalPreorder(le)
    ensures Ties(le, k, Insert(le, s, x)) == Ties(le, k, s) + Ties(le, k, [x])
    decreases |s|
  {
    if |s| == 0 || le(s[|s| - 1], x) {
      TiesSnoc(le, k, s, x);
    } else {
      var init, last := s[..|s| - 1], s[|s| - 1];
      assert s == init + [last];
      InsertTies(le, k, init, x);
      TiesSnoc(le, k, Insert(le, init, x), last);
      TiesSnoc(le, k, init, last);
      // x and last cannot both tie with k, since last must come after x
      assert !(le(k, x) && le(x, k) && le(k, last) && le(last, k));
    }
  }

  /** Elements that compare equal keep their input order. */
  lemma {:induction false} SortByStable<T(!new)>(le: (T, T) -> bool, k: T, s: seq<T>)
    requires TotalPreorder(le)
    ensures Ties(le, k, SortBy(le, s)) == Ties(le, k, s)
    decreases |s|
  {
    if |s| > 0 {
      var init, last := s[..|s| - 1], s[|s| - 1];
      assert s == init + [last];
      SortByStable(le, k, init);
      InsertTies(le, k, SortBy(le, init), last);
      TiesSnoc(le, k, init, last);
    }
  }

  // ---------------------------------------------------------------------------
  // Sums and distinct keys survive sorting

  lemma SumOfSnoc<T>(f: T -> int, s: seq<T>, x: T)
    ensures SumOf(f, s + [x]) == SumOf(f, s) + f(x)
  {
    assert (s + [x])[..|s|] == s;
  }

  lemma {:induction false} InsertSum<T>(le: (T, T) -> bool, f: T -> int, s: seq<T>, x: T)
    ensures SumOf(f, Insert(le, s, x)) == SumOf(f, s) + f(x)
    decreases |s|
  {
    if |s| == 0 || le(s[|s| - 1], x) {
      SumOfSnoc(f, s, x);
    } else {
      var init, last := s[..|s| - 1], s[|s| - 1];
      InsertSum(le, f, init, x);
      SumOfSnoc(f, Insert(le, init, x), last);
    }
  }

  lemma {:induction false} SortBySum<T>(le: (T, T) -> bool, f: T -> int, s: seq<T>)
    ensures SumOf(f, SortBy(le, s)) == SumOf(f, s)
    decreases |s|
  {
    if |s| > 0 {
      var init := s[..|s| - 1];
      SortBySum(le, f, init);
      InsertSum(le, f, SortBy(le, init), s[|s| - 1]);
    }
  }

  lemma {:induction false} InsertDistinctBy<T, K>(le: (T, T) -> bool, key: T -> K, s: seq<T>, x: T)
    requires DistinctBy(key, s)
    requires forall i :: 0 <= i < |s| ==> key(s[i]) != key(x)
    ensures DistinctBy(key, Insert(le, s, x))
    decreases |s|
  {
    if |s| > 0 && !le(s[|s| - 1], x) {
      var init, last := s[..|s| - 1], s[|s| - 1];
      InsertDistinctBy(le, key, init, x);
      var r := Insert(le, init, x);
      forall i | 0 <= i < |r|
        ensures key(r[i]) != key(last)
      {
        assert r[i] in multiset(r);
        if r[i] != x {
          assert r[i] in init;
          var j :| 0 <= j < |init| && init[j] == r[i];
          assert key(s[j]) != key(s[|s| - 1]);
        }
      }
    }
  }

  lemma {:induction false} SortByDistinctBy<T, K>(le: (T, T) -> bool, key: T -> K, s: seq<T>)
    requires DistinctBy(key, s)
    ensures DistinctBy(key, SortBy(le, s))
    decreases |s|
  {
    if |s| > 0 {
      var init, last := s[..|s| - 1], s[|s| - 1];
      SortByDistinctBy(le, key, init);
      var r := SortBy(le, init);
      forall i | 0 <= i < |r|
        ensures key(r[i]) != key(last)
      {
        assert r[i] in multiset(r);
        var j :| 0 <= j < |init| && init[j] == r[i];
        assert key(s[j]) != key(s[|s| - 1]);
      }
      InsertDistinctBy(le, key, r, last);
    }
  }

  // ---------------------------------------------------------------------------
  // In place

  /** One step of the inner loop of `SortInPlace`: `x` moves left past `s[j - 1]`. */
  lemma InsertShift<T>(le: (T, T) -> bool, s: seq<T>, x: T, j: nat)
    requires 0 < j <= |s| && !le(s[j - 1], x)
    ensures Insert(le, s[..j], x) + s[j..] == Insert(le, s[..j - 1], x) + s[j - 1..]
  {
    assert s[..j][..j - 1] == s[..j - 1];
    assert s[j - 1..] == [s[j - 1]] + s[j..];
  }

  /** Insertion sort of an array, in place; it leaves `a` holding `SortBy(le, old(a[..]))`. */
  method SortInPlace<T>(a: array<T>, le: (T, T) -> bool)
    modifies a
    ensures a[..] == SortBy(le, old(a[..]))
  {
    ghost var input := a[..];
    var i := 0;
    while i < a.Length
      invariant 0 <= i <= a.Length
      invariant a[..i] == SortBy(le, input[..i])
      invariant forall k :: i <= k < a.Length ==> a[k] == input[k]
    {
      InsertInPlace(a, i, le);
      SortByStep(le, input, i);
      i := i + 1;
    }
    assert a[..] == a[..a.Length];
    assert input == input[..a.Length];
  }

  lemma SortByStep<T>(le: (T, T) -> bool, s: seq<T>, i: nat)
    requires i < |s|
    ensures SortBy(le, s[..i + 1]) == Insert(le, SortBy(le, s[..i]), s[i])
  {
    assert s[..i + 1][..i] == s[..i];
  }

  /** Moves `a[i]` left into the sorted prefix `a[..i]`, shifting larger elements right by one. */
  method InsertInPlace<T>(a: array<T>, i: nat, le: (T, T) -> bool)
    requires i < a.Length
    modifies a
    ensures a[..i + 1] == Insert(le, old(a[..i]), old(a[i]))
    ensures forall k :: i < k < a.Length ==> a[k] == old(a[k])
  {
    ghost var sorted := a[..i];
    var x := a[i];
    var j := i;
    assert sorted[..j] == sorted && sorted[j..] == [];
    while j > 0 && !le(a[j - 1], x)
      invariant 0 <= j <= i
      invariant forall k :: 0 <= k < j ==> a[k] == sorted[k]
      invariant forall k :: j < k <= i ==> a[k] == sorted[k - 1]
      invariant forall k :: i < k < a.Length ==> a[k] == old(a[k])
      invariant Insert(le, sorted, x) == Insert(le, sorted[..j], x) + sorted[j..]
    {
      InsertShift(le, sorted, x, j);
      a[j] := a[j - 1];
      j := j - 1;
    }
    a[j] := x;
    InsertDone(le, sorted, x, j, a[..i + 1]);
  }

  /** The end of the inner loop of `SortInPlace`: `x` has reached its place `j`. */
  lemma InsertDone<T>(le: (T, T) -> bool, s: seq<T>, x: T, j: nat, r: seq<T>)
    requires j <= |s| && (j == 0 || le(s[j - 1], x))
    requires |r| == |s| + 1 && r[j] == x
    requires forall k :: 0 <= k < j ==> r[k] == s[k]
    requires forall k :: j < k <= |s| ==> r[k] == s[k - 1]
    ensures Insert(le, s[..j], x) + s[j..] == r
  {
    assert Insert(le, s[..j], x) == s[..j] + [x];
  }
}
