/**
 * Counting over sequences, as the report's tallies do with a JavaScript
 * `Map`: the keys in first-encounter order, and how often each occurs.
 */
module Tally {

  predicate Distinct<T(==)>(s: seq<T>)
  {
    forall i, j :: 0 <= i < j < |s| ==> s[i] != s[j]
  }

  /** How many times `x` occurs in `s`. */
  function Occurrences<T(==)>(s: seq<T>, x: T): nat
  {
    if |s| == 0 then 0
    else Occurrences(s[..|s| - 1], x) + (if s[|s| - 1] == x then 1 else 0)
  }

  /**
   * The distinct elements of `s` in the order of their first occurrence,
   * which is the key order of a JavaScript `Map` filled from `s`.
   */
  function FirstEncounters<T(==,!new)>(s: seq<T>): (r: seq<T>)
    ensures forall x :: x in r <==> x in s
    ensures Distinct(r)
  {
    if |s| == 0 then []
    else
      var init, last := s[..|s| - 1], s[|s| - 1];
      assert s == init + [last];
      var d := FirstEncounters(init);
      if last in d then d else d + [last]
  }

  /** The total, over the keys, of the occurrences of each key in `s`. */
  function SumOccurrences<T(==)>(keys: seq<T>, s: seq<T>): nat
  {
    if |keys| == 0 then 0
    else SumOccurrences(keys[..|keys| - 1], s) + Occurrences(s, keys[|keys| - 1])
  }

  /** Each element of `s` mapped to how often it occurs, as a counting `Map` ends up. */
  function CountMap<T(==)>(s: seq<T>): map<T, nat>
  {
    map x | x in s :: Occurrences(s, x)
  }

  /** Counting one more element adds one to its entry, starting from zero. */
  lemma CountMapSnoc<T>(s: seq<T>, x: T)
    ensures CountMap(s + [x]) == CountMap(s)[x := (if x in CountMap(s) then CountMap(s)[x] else 0) + 1]
  {
    if x !in s {
      OccurrencesPositive(s, x);
    }
    forall y | y in s + [x]
      ensures Occurrences(s + [x], y) == Occurrences(s, y) + (if x == y then 1 else 0)
    {
      OccurrencesSnoc(s, x, y);
    }
  }

  lemma OccurrencesSnoc<T>(s: seq<T>, x: T, y: T)
    ensures Occurrences(s + [x], y) == Occurrences(s, y) + (if x == y then 1 else 0)
  {
    assert (s + [x])[..|s|] == s;
  }

  lemma FirstEncountersSnoc<T(!new)>(s: seq<T>, x: T)
    ensures FirstEncounters(s + [x]) == if x in s then FirstEncounters(s) else FirstEncounters(s) + [x]
  {
    assert (s + [x])[..|s|] == s;
  }

  lemma {:induction false} OccurrencesPositive<T>(s: seq<T>, x: T)
    ensures Occurrences(s, x) > 0 <==> x in s
    decreases |s|
  {
    if |s| > 0 {
      var init := s[..|s| - 1];
      assert s == init + [s[|s| - 1]];
      OccurrencesPositive(init, x);
    }
  }

  /** A key listed once among distinct keys occurs there exactly once. */
  lemma {:induction false} OccurrencesOfDistinct<T>(keys: seq<T>, x: T)
    requires Distinct(keys) && x in keys
    ensures Occurrences(keys, x) == 1
    decreases |keys|
  {
    var init, last := keys[..|keys| - 1], keys[|keys| - 1];
    assert keys == init + [last];
    if last == x {
      assert x !in init;
      OccurrencesPositive(init, x);
    } else {
      OccurrencesOfDistinct(init, x);
    }
  }

  lemma {:induction false} SumOccurrencesSnoc<T>(keys: seq<T>, s: seq<T>, x: T)
    ensures SumOccurrences(keys, s + [x]) == SumOccurrences(keys, s) + Occurrences(keys, x)
    decreases |keys|
  {
    if |keys| > 0 {
      SumOccurrencesSnoc(keys[..|keys| - 1], s, x);
      OccurrencesSnoc(s, x, keys[|keys| - 1]);
    }
  }

  /**
   * When every element of `s` is one of the distinct `keys`, the per-key
   * counts add up to the length of `s`.
   */
  lemma {:induction false} SumOccurrencesCover<T>(keys: seq<T>, s: seq<T>)
    requires Distinct(keys)
    requires forall x :: x in s ==> x in keys
    ensures SumOccurrences(keys, s) == |s|
    decreases |s|
  {
    if |s| == 0 {
      SumOccurrencesEmpty(keys);
    } else {
      var init, last := s[..|s| - 1], s[|s| - 1];
      assert s == init + [last];
      SumOccurrencesCover(keys, init);
      SumOccurrencesSnoc(keys, init, last);
      OccurrencesOfDistinct(keys, last);
    }
  }

  lemma {:induction false} SumOccurrencesEmpty<T>(keys: seq<T>)
    ensures SumOccurrences(keys, []) == 0
    decreases |keys|
  {
    if |keys| > 0 {
      SumOccurrencesEmpty(keys[..|keys| - 1]);
    }
  }
}
