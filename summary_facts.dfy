/**
 * What `summaryByDay` promises: one entry per operational day, ordered by
 * date, with the pass and fail counts of that day and their totals.
 */
module SummaryFacts {
  import opened Types
  import opened Strings
  import opened Sorting
  import opened Tally
  import opened Analysis

  /** `localeCompare` on dates, as modelled, is a total preorder. */
  lemma ByDateTotalPreorder()
    ensures TotalPreorder(ByDate)
  {
    forall a: DaySummary, b: DaySummary
      ensures ByDate(a, b) || ByDate(b, a)
    {
      StrLeTotal(a.date, b.date);
    }
    forall a: DaySummary, b: DaySummary, c: DaySummary | ByDate(a, b) && ByDate(b, c)
      ensures ByDate(a, c)
    {
      StrLeTransitive(a.date, b.date, c.date);
    }
  }

  /** The summary lists the entries built from the per-day `Map`, and nothing else. */
  lemma SummaryByDayFrom(rows: seq<RawRow>, s: DaySummary)
    requires s in SummaryByDay(rows)
    ensures exists i :: (0 <= i < |DaysInOrder(rows)| && s.date == DaysInOrder(rows)[i]
      && s == SummaryOf(DaysInOrder(rows)[i], DayCounts(rows)[DaysInOrder(rows)[i]]))
  {
    var u := SummaryRows(DaysInOrder(rows), DayCounts(rows));
    assert s in multiset(SummaryByDay(rows));
    assert s in multiset(u);
    var i :| 0 <= i < |u| && u[i] == s;
  }

  /**
   * Each entry of the summary is a day of the report with its pass and fail
   * counts over all rows, `total` = pass + fail, and `percentPass` = pass / total.
   */
  lemma SummaryByDayEntry(rows: seq<RawRow>, s: DaySummary)
    requires s in SummaryByDay(rows)
    ensures s.date != "" && s.date in NonEmptyDates(rows)
    ensures s.pass == CountOutcome(rows, s.date, Pass)
    ensures s.fail == CountOutcome(rows, s.date, Fail)
    ensures s.total == s.pass + s.fail
    ensures s.percentPass == PercentPass(s.pass, s.total)
  {
    SummaryByDayFrom(rows, s);
  }

  /** Every date some row carries has its entry in the summary, and no other date has one. */
  lemma SummaryByDayDays(rows: seq<RawRow>, d: string)
    ensures (exists s :: s in SummaryByDay(rows) && s.date == d)
      <==> d != "" && exists row :: row in rows && DateOf(row) == d
  {
    NonEmptyDatesMembers(rows, d);
    if d in NonEmptyDates(rows) {
      var days := DaysInOrder(rows);
      var u := SummaryRows(days, DayCounts(rows));
      var i :| 0 <= i < |days| && days[i] == d;
      assert u[i] in multiset(u);
      assert u[i] in multiset(SummaryByDay(rows));
      assert u[i] in SummaryByDay(rows) && u[i].date == d;
    }
    if s :| s in SummaryByDay(rows) && s.date == d {
      SummaryByDayEntry(rows, s);
    }
  }

  /** The summary is ordered by date, and no date appears twice. */
  lemma SummaryByDaySorted(rows: seq<RawRow>)
    ensures SortedBy(ByDate, SummaryByDay(rows))
    ensures DistinctBy(DateKey, SummaryByDay(rows))
  {
    ByDateTotalPreorder();
    SortBySorted(ByDate, SummaryRows(DaysInOrder(rows), DayCounts(rows)));
    SortByDistinctBy(ByDate, DateKey, SummaryRows(DaysInOrder(rows), DayCounts(rows)));
  }

  // ---------------------------------------------------------------------------
  // Totals

  /** A row that some day counts: it has a date and its outcome is pass or fail. */
  predicate Counted(row: RawRow)
  {
    DateOf(row) != "" && (OutcomeOf(row) == Pass || OutcomeOf(row) == Fail)
  }

  /** The dates of the counted rows, one per row, in row order. */
  function CountedDates(rows: seq<RawRow>): seq<string>
  {
    if |rows| == 0 then []
    else
      var last := rows[|rows| - 1];
      CountedDates(rows[..|rows| - 1]) + (if Counted(last) then [DateOf(last)] else [])
  }

  /** A day's pass count plus its fail count is the number of counted rows of that day. */
  lemma {:induction false} DayTotalIsOccurrences(rows: seq<RawRow>, d: string)
    requires d != ""
    ensures CountOutcome(rows, d, Pass) + CountOutcome(rows, d, Fail) == Occurrences(CountedDates(rows), d)
    decreases |rows|
  {
    if |rows| > 0 {
      var init, last := rows[..|rows| - 1], rows[|rows| - 1];
      DayTotalIsOccurrences(init, d);
      OccurrencesSnoc(CountedDates(init), DateOf(last), d);
      assert CountedDates(init) + [] == CountedDates(init);
    }
  }

  /** Every counted row is dated with one of the report's days. */
  lemma {:induction false} CountedDatesAreDays(rows: seq<RawRow>, d: string)
    requires d in CountedDates(rows)
    ensures d in NonEmptyDates(rows)
    decreases |rows|
  {
    var init, last := rows[..|rows| - 1], rows[|rows| - 1];
    if d in CountedDates(init) {
      CountedDatesAreDays(init, d);
    }
  }

  /** The totals of per-day entries built from `counts` add up day by day. */
  lemma {:induction false} SummaryRowsTotal(rows: seq<RawRow>, days: seq<string>, counts: map<string, DayCount>)
    requires forall d :: d in days ==>
      (d != "" && d in counts && counts[d] == DayCount(CountOutcome(rows, d, Pass), CountOutcome(rows, d, Fail)))
    ensures SumOf(TotalOf, SummaryRows(days, counts)) == SumOccurrences(days, CountedDates(rows))
    decreases |days|
  {
    if |days| > 0 {
      var init, last := days[..|days| - 1], days[|days| - 1];
      var u := SummaryRows(days, counts);
      assert u[..|u| - 1] == SummaryRows(init, counts);
      SummaryRowsTotal(rows, init, counts);
      DayTotalIsOccurrences(rows, last);
    }
  }

  /**
   * The day totals of the summary add up to the number of rows that are dated
   * and passed or failed, which is at most the number of rows.
   */
  lemma SummaryTotals(rows: seq<RawRow>)
    ensures SumOf(TotalOf, SummaryByDay(rows)) == |CountedDates(rows)|
    ensures |CountedDates(rows)| <= |rows|
  {
    var days := DaysInOrder(rows);
    DaysInOrderCounted(rows);
    SortBySum(ByDate, TotalOf, SummaryRows(days, DayCounts(rows)));
    SummaryRowsTotal(rows, days, DayCounts(rows));
    forall d | d in CountedDates(rows)
      ensures d in days
    {
      CountedDatesAreDays(rows, d);
    }
    SumOccurrencesCover(days, CountedDates(rows));
    CountedDatesLength(rows);
  }

  /** Every row is counted exactly when no row is lost to the totals. */
  lemma {:induction false} CountedDatesLength(rows: seq<RawRow>)
    ensures |CountedDates(rows)| <= |rows|
    ensures |CountedDates(rows)| == |rows| <==> forall row :: row in rows ==> Counted(row)
    decreases |rows|
  {
    if |rows| > 0 {
      var init, last := rows[..|rows| - 1], rows[|rows| - 1];
      assert rows == init + [last];
      CountedDatesLength(init);
    }
  }
}
