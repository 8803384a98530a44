/**
 * What `errorsByCar` and `errorsByDriver` promise: one entry per trimmed,
 * usable id, with the number of failures carrying it, highest count first,
 * and ids with equal counts in the order they were first met.
 */
module RankingFacts {
  import opened Types
  import opened Strings
  import opened Sorting
  import opened Tally
  import opened Analysis

  /** The values of a column, each trimmed as line 84 trims it. */
  function TrimAll(values: seq<string>): (r: seq<string>)
    ensures |r| == |values|
  {
    if |values| == 0 then [] else TrimAll(values[..|values| - 1]) + [Trim(values[|values| - 1])]
  }

  /** A usable id is kept once for every value that trims to it. */
  lemma {:induction false} UsableIdsOccurrences(values: seq<string>, id: string)
    requires Usable(id)
    ensures Occurrences(UsableIds(values), id) == Occurrences(TrimAll(values), id)
    decreases |values|
  {
    if |values| > 0 {
      var init, last := values[..|values| - 1], values[|values| - 1];
      UsableIdsOccurrences(init, id);
      OccurrencesSnoc(UsableIds(init), Trim(last), id);
      assert UsableIds(init) + [] == UsableIds(init);
    }
  }

  /** The usable ids are exactly the trimmed values that are neither "" nor "(vazio)". */
  lemma UsableIdsMembers(values: seq<string>, id: string)
    ensures id in UsableIds(values) <==> Usable(id) && id in TrimAll(values)
  {
    if Usable(id) {
      UsableIdsOccurrences(values, id);
      OccurrencesPositive(UsableIds(values), id);
      OccurrencesPositive(TrimAll(values), id);
    } else if id in UsableIds(values) {
      UsableIdsTrimmed(values, id);
    }
  }

  /** The unsorted ranking lists the keys of the `Map` in order, each with its count. */
  lemma RankingEntriesIds(values: seq<string>, i: int)
    requires 0 <= i < |RankingEntries(values)|
    ensures RankingEntries(values)[i].id == FirstEncounters(UsableIds(values))[i]
    ensures RankingEntries(values)[i].count == Occurrences(UsableIds(values), RankingEntries(values)[i].id)
  {
    IdKeysCounted(values);
  }

  /**
   * Each entry of a ranking is a trimmed, usable id with the number of values
   * that trim to it, which is at least one.
   */
  lemma RankingEntry(values: seq<string>, e: ErrorCount)
    requires e in Ranking(values)
    ensures Usable(e.id) && Trim(e.id) == e.id
    ensures e.count == Occurrences(TrimAll(values), e.id)
    ensures e.count >= 1
  {
    var u := RankingEntries(values);
    assert e in multiset(Ranking(values));
    assert e in multiset(u);
    var i :| 0 <= i < |u| && u[i] == e;
    RankingEntriesIds(values, i);
    UsableIdsTrimmed(values, e.id);
    UsableIdsOccurrences(values, e.id);
    OccurrencesPositive(UsableIds(values), e.id);
  }

  /** An id has an entry in the ranking exactly when some value trims to it and it is usable. */
  lemma RankingIds(values: seq<string>, id: string)
    ensures (exists e :: e in Ranking(values) && e.id == id) <==> Usable(id) && id in TrimAll(values)
  {
    UsableIdsMembers(values, id);
    if id in UsableIds(values) {
      RankingHasId(values, id);
    }
    if e :| e in Ranking(values) && e.id == id {
      RankingEntry(values, e);
      UsableIdsOccurrences(values, id);
      OccurrencesPositive(TrimAll(values), id);
    }
  }

  lemma RankingHasId(values: seq<string>, id: string)
    requires id in UsableIds(values)
    ensures exists e :: e in Ranking(values) && e.id == id
  {
    var keys := FirstEncounters(UsableIds(values));
    var u := RankingEntries(values);
    var i :| 0 <= i < |keys| && keys[i] == id;
    RankingEntriesIds(values, i);
    assert u[i] in multiset(u);
    assert u[i] in multiset(Ranking(values));
    assert u[i] in Ranking(values);
  }

  /** The counts of a ranking add up to the number of usable values. */
  lemma RankingSum(values: seq<string>)
    ensures SumOf(CountOf, Ranking(values)) == |UsableIds(values)|
    ensures |UsableIds(values)| <= |values|
  {
    var keys := FirstEncounters(UsableIds(values));
    IdKeysCounted(values);
    SortBySum(ByCountDescending, CountOf, RankingEntries(values));
    EntriesSum(keys, IdCounts(values), UsableIds(values));
    SumOccurrencesCover(keys, UsableIds(values));
    UsableIdsLength(values);
  }

  lemma {:induction false} EntriesSum(keys: seq<string>, counts: map<string, nat>, u: seq<string>)
    requires forall k :: k in keys ==> k in counts && counts[k] == Occurrences(u, k)
    ensures SumOf(CountOf, Entries(keys, counts)) == SumOccurrences(keys, u)
    decreases |keys|
  {
    if |keys| > 0 {
      var init := keys[..|keys| - 1];
      var r := Entries(keys, counts);
      assert r[..|r| - 1] == Entries(init, counts);
      EntriesSum(init, counts, u);
    }
  }

  lemma {:induction false} UsableIdsLength(values: seq<string>)
    ensures |UsableIds(values)| <= |values|
    decreases |values|
  {
    if |values| > 0 {
      UsableIdsLength(values[..|values| - 1]);
    }
  }

  /**
   * A ranking is ordered by count, highest first, lists each id once, and
   * keeps ids of equal count in the order they were first met.
   */
  lemma RankingSorted(values: seq<string>, k: ErrorCount)
    ensures forall i, j :: 0 <= i < j < |Ranking(values)| ==> Ranking(values)[i].count >= Ranking(values)[j].count
    ensures DistinctBy(IdOf, Ranking(values))
    ensures Ties(ByCountDescending, k, Ranking(values)) == Ties(ByCountDescending, k, RankingEntries(values))
  {
    var u := RankingEntries(values);
    assert TotalPreorder(ByCountDescending);
    SortBySorted(ByCountDescending, u);
    SortByStable(ByCountDescending, k, u);
    forall i, j | 0 <= i < j < |u|
      ensures IdOf(u[i]) != IdOf(u[j])
    {
      RankingEntriesIds(values, i);
      RankingEntriesIds(values, j);
    }
    SortByDistinctBy(ByCountDescending, IdOf, u);
  }

  /** The values of the example of RankingExample. */
  const ExampleValues: seq<string> := ["B", " A", Placeholder, "", "A "]

  /**
   * Usable ids are trimmed before they are counted, the empty and the
   * placeholder values are skipped, and the most frequent id comes first.
   */
  lemma RankingExample()
    ensures Ranking(ExampleValues) == [ErrorCount("A", 2), ErrorCount("B", 1)]
  {
    ExampleUsableIds();
    var u: seq<string> := ["B", "A", "A"];
    ExampleEncounters(u);
    ExampleCounts(u);
    assert RankingEntries(ExampleValues) == [ErrorCount("B", 1), ErrorCount("A", 2)];
    var e: seq<ErrorCount> := [ErrorCount("B", 1), ErrorCount("A", 2)];
    assert e[..1] == [ErrorCount("B", 1)];
    assert SortBy(ByCountDescending, e[..1]) == [ErrorCount("B", 1)];
  }

  lemma ExampleUsableIds()
    ensures UsableIds(ExampleValues) == ["B", "A", "A"]
  {
    ExampleTrims();
    var v1: seq<string> := ["B"];
    var v2: seq<string> := v1 + [" A"];
    var v3: seq<string> := v2 + [Placeholder];
    var v4: seq<string> := v3 + [""];
    assert v4 + ["A "] == ExampleValues;
    UsableIdsSnoc([], "B");
    assert [] + ["B"] == v1;
    UsableIdsSnoc(v1, " A");
    assert UsableIds(v2) == ["B", "A"];
    UsableIdsSnoc(v2, Placeholder);
    UsableIdsSnoc(v3, "");
    assert UsableIds(v4) == ["B", "A"];
    UsableIdsSnoc(v4, "A ");
  }

  lemma ExampleTrims()
    ensures Trim("B") == "B" && Trim(" A") == "A" && Trim("A ") == "A"
    ensures Trim(Placeholder) == Placeholder
  {
    assert TrimStart("B") == "B";
    assert TrimStart(" A") == TrimStart("A") == "A";
    assert TrimStart(Placeholder) == Placeholder;
    assert TrimStart("A ") == "A ";
    assert TrimEnd("A ") == TrimEnd("A") == "A";
  }

  lemma ExampleEncounters(u: seq<string>)
    requires u == ["B", "A", "A"]
    ensures FirstEncounters(u) == ["B", "A"]
  {
    assert u == [] + ["B"] + ["A"] + ["A"];
    FirstEncountersSnoc([], "B");
    FirstEncountersSnoc([] + ["B"], "A");
    FirstEncountersSnoc([] + ["B"] + ["A"], "A");
  }

  lemma ExampleCounts(u: seq<string>)
    requires u == ["B", "A", "A"]
    ensures CountMap(u) == map["B" := 1, "A" := 2]
  {
    assert u == [] + ["B"] + ["A"] + ["A"];
    CountMapSnoc([], "B");
    CountMapSnoc([] + ["B"], "A");
    CountMapSnoc([] + ["B"] + ["A"], "A");
  }
}
