/**
 * What `mainData` promises: exactly the failed trips, each projected to the
 * fifteen report columns, ordered by date and then scheduled start, with
 * trips of the same date and start left in row order.
 */
module MainDataFacts {
  import opened Types
  import opened Strings
  import opened Sorting
  import opened TripIds
  import opened Analysis

  /** The two-key comparator, as modelled, is a total preorder. */
  lemma ByDateThenStartTotalPreorder()
    ensures TotalPreorder(ByDateThenStart)
  {
    forall a: FailureRow, b: FailureRow
      ensures ByDateThenStart(a, b) || ByDateThenStart(b, a)
    {
      StrLeTotal(a.operationalDate, b.operationalDate);
      StrLeTotal(a.startTimeScheduled, b.startTimeScheduled);
    }
    forall a: FailureRow, b: FailureRow, c: FailureRow | ByDateThenStart(a, b) && ByDateThenStart(b, c)
      ensures ByDateThenStart(a, c)
    {
      ByDateThenStartTransitive(a, b, c);
    }
  }

  lemma ByDateThenStartTransitive(a: FailureRow, b: FailureRow, c: FailureRow)
    requires ByDateThenStart(a, b) && ByDateThenStart(b, c)
    ensures ByDateThenStart(a, c)
  {
    var da, db, dc := a.operationalDate, b.operationalDate, c.operationalDate;
    if da == db && db == dc {
      StrLeTransitive(a.startTimeScheduled, b.startTimeScheduled, c.startTimeScheduled);
    } else if da == dc {
      // a and c share a date that b differs from: b sits both after and before it
      if da == db {
        assert false;
      } else {
        StrLeAntisymmetric(da, db);
      }
    } else {
      if da == db {
        StrLeReflexive(da);
      } else if db == dc {
        StrLeReflexive(db);
      } else {
        StrLeTransitive(da, db, dc);
      }
    }
  }

  /** Two failed trips rank equal exactly when they share the date and the scheduled start. */
  lemma ByDateThenStartTies(a: FailureRow, b: FailureRow)
    ensures ByDateThenStart(a, b) && ByDateThenStart(b, a)
      <==> a.operationalDate == b.operationalDate && a.startTimeScheduled == b.startTimeScheduled
  {
    if a.operationalDate != b.operationalDate {
      if StrLe(a.operationalDate, b.operationalDate) && StrLe(b.operationalDate, a.operationalDate) {
        StrLeAntisymmetric(a.operationalDate, b.operationalDate);
      }
    } else if StrLe(a.startTimeScheduled, b.startTimeScheduled) && StrLe(b.startTimeScheduled, a.startTimeScheduled) {
      StrLeAntisymmetric(a.startTimeScheduled, b.startTimeScheduled);
    } else {
      StrLeReflexive(a.startTimeScheduled);
    }
  }

  /**
   * Each of the fifteen report columns but "TRIP ID New" copies the column of
   * the same name from the row, and "TRIP ID New" is computed from the trip id
   * and the date.
   */
  lemma ProjectColumns(row: RawRow)
    ensures |FailureRowValues(Project(row))| == |FailureRowKeys| == 15
    ensures forall k :: 0 <= k < 15 && k != 2 ==>
      FailureRowValues(Project(row))[k] == Field(row, FailureRowKeys[k])
    ensures FailureRowKeys[2] == "TRIP ID New"
    ensures FailureRowValues(Project(row))[2] == TripIdNew(Field(row, "trip_id"), DateOf(row))
  {
    var tripId := Field(row, "trip_id");
    var read := seq(15, k requires 0 <= k < 15 => Field(row, FailureRowKeys[k]));
    assert FailureRowValues(Project(row)) == read[2 := TripIdNew(tripId, DateOf(row))];
  }

  /**
   * Every entry of the failure table is the projection of a row whose outcome
   * is "fail": its outcome column reads "fail" and its "TRIP ID New" is the
   * rewritten trip id followed by "_" and its date.
   */
  lemma MainDataFromFailures(rows: seq<RawRow>, x: FailureRow)
    requires x in MainData(rows)
    ensures x.analysis == Fail
    ensures x.tripIdNew == TripIdNew(x.tripId, x.operationalDate)
    ensures EndsWith(x.tripIdNew, "_" + x.operationalDate)
    ensures exists row :: row in rows && OutcomeOf(row) == Fail && x == Project(row)
  {
    var failures := Failures(rows);
    var p := ProjectAll(failures);
    assert x in multiset(MainData(rows));
    assert x in multiset(p);
    var i :| 0 <= i < |p| && p[i] == x;
    var row := failures[i];
    assert row in multiset(failures);
    assert row in multiset(rows);
  }

  /** Every row whose outcome is "fail" has its projection in the failure table, as often as it occurs. */
  lemma MainDataHasFailures(rows: seq<RawRow>, row: RawRow)
    requires OutcomeOf(row) == Fail
    ensures multiset(MainData(rows))[Project(row)] >= multiset(rows)[row]
  {
    ProjectAllCount(Failures(rows), row);
  }

  /** A row occurring n times gives a projection occurring at least n times. */
  lemma {:induction false} ProjectAllCount(rows: seq<RawRow>, row: RawRow)
    ensures multiset(ProjectAll(rows))[Project(row)] >= multiset(rows)[row]
    decreases |rows|
  {
    if |rows| > 0 {
      var init, last := rows[..|rows| - 1], rows[|rows| - 1];
      assert rows == init + [last];
      assert ProjectAll(rows) == ProjectAll(init) + [Project(last)];
      ProjectAllCount(init, row);
    }
  }

  /**
   * The failure table is ordered by date and then by scheduled start, is a
   * permutation of the projected failures, and keeps the row order among
   * trips that rank equal.
   */
  lemma MainDataSorted(rows: seq<RawRow>, k: FailureRow)
    ensures SortedBy(ByDateThenStart, MainData(rows))
    ensures multiset(MainData(rows)) == multiset(ProjectAll(Failures(rows)))
    ensures Ties(ByDateThenStart, k, MainData(rows)) == Ties(ByDateThenStart, k, ProjectAll(Failures(rows)))
  {
    ByDateThenStartTotalPreorder();
    SortBySorted(ByDateThenStart, ProjectAll(Failures(rows)));
    SortByStable(ByDateThenStart, k, ProjectAll(Failures(rows)));
  }
}
