/**
 * `analyzeRawData`: from the parsed rows of an operational report to the
 * `ProcessedData` bundle (per-day summary, failure table, per-vehicle and
 * per-driver failure rankings).
 */
module Analysis {
  import opened Types
  import opened Strings
  import opened Sorting
  import opened Tally
  import opened TripIds

  const DateColumn := "operational_date"
  const OutcomeColumn := "analysis_SIMPLE_THREE_VEHICLE_EVENTS"
  const VehicleColumn := "vehicle_ids"
  const DriverColumn := "driver_ids"
  const Pass := "pass"
  const Fail := "fail"
  /** The placeholder the report writes for a missing vehicle or driver. */
  const Placeholder := "(vazio)"

  function DateOf(row: RawRow): string { Field(row, DateColumn) }

  function OutcomeOf(row: RawRow): string { Field(row, OutcomeColumn) }

  // ===========================================================================
  // 1. Per-day tally, over all rows

  datatype DayCount = DayCount(pass: nat, fail: nat)

  /** The dates of the rows that have one, in row order. */
  function NonEmptyDates(rows: seq<RawRow>): (r: seq<string>)
    ensures forall d :: d in r ==> d != ""
  {
    if |rows| == 0 then []
    else
      var init, last := rows[..|rows| - 1], rows[|rows| - 1];
      assert rows == init + [last];
      NonEmptyDates(init) + (if DateOf(last) != "" then [DateOf(last)] else [])
  }

  /** The number of rows dated `date` whose outcome is `outcome`. */
  function CountOutcome(rows: seq<RawRow>, date: string, outcome: string): nat
  {
    if |rows| == 0 then 0
    else
      var last := rows[|rows| - 1];
      CountOutcome(rows[..|rows| - 1], date, outcome)
        + (if DateOf(last) == date && OutcomeOf(last) == outcome then 1 else 0)
  }

  /** The days of the report, in the order they are first met. */
  function DaysInOrder(rows: seq<RawRow>): seq<string>
  {
    FirstEncounters(NonEmptyDates(rows))
  }

  /** For each day of the report, its pass and fail counts. */
  function DayCounts(rows: seq<RawRow>): map<string, DayCount>
  {
    map d | d in NonEmptyDates(rows) :: DayCount(CountOutcome(rows, d, Pass), CountOutcome(rows, d, Fail))
  }

  /** The days of the report are the non-empty dates of its rows. */
  lemma {:induction false} NonEmptyDatesMembers(rows: seq<RawRow>, d: string)
    ensures d in NonEmptyDates(rows) <==> d != "" && exists row :: row in rows && DateOf(row) == d
    decreases |rows|
  {
    if |rows| > 0 {
      var init, last := rows[..|rows| - 1], rows[|rows| - 1];
      assert rows == init + [last];
      NonEmptyDatesMembers(init, d);
    }
  }

  lemma NonEmptyDatesSnoc(rows: seq<RawRow>, row: RawRow)
    ensures NonEmptyDates(rows + [row]) == NonEmptyDates(rows) + (if DateOf(row) != "" then [DateOf(row)] else [])
  {
    assert (rows + [row])[..|rows|] == rows;
  }

  lemma CountOutcomeSnoc(rows: seq<RawRow>, row: RawRow, date: string, outcome: string)
    ensures CountOutcome(rows + [row], date, outcome)
      == CountOutcome(rows, date, outcome) + (if DateOf(row) == date && OutcomeOf(row) == outcome then 1 else 0)
  {
    assert (rows + [row])[..|rows|] == rows;
  }

  /** A day with no row yet has no pass and no fail. */
  lemma {:induction false} CountOutcomeUnseen(rows: seq<RawRow>, date: string, outcome: string)
    requires date != "" && date !in NonEmptyDates(rows)
    ensures CountOutcome(rows, date, outcome) == 0
    decreases |rows|
  {
    if |rows| > 0 {
      var init := rows[..|rows| - 1];
      NonEmptyDatesSnoc(init, rows[|rows| - 1]);
      assert rows == init + [rows[|rows| - 1]];
      CountOutcomeUnseen(init, date, outcome);
    }
  }

  /**
   * Lines 11-27: one pass over all rows that fills a `Map` from date to
   * counts. `days` is the key order of that `Map`.
   */
  method TallyDays(rows: seq<RawRow>) returns (days: seq<string>, counts: map<string, DayCount>)
    ensures days == DaysInOrder(rows)
    ensures counts == DayCounts(rows)
  {
    days, counts := [], map[];
    var i := 0;
    while i < |rows|
      invariant 0 <= i <= |rows|
      invariant days == DaysInOrder(rows[..i])
      invariant counts == DayCounts(rows[..i])
    {
      assert rows[..i + 1] == rows[..i] + [rows[i]];
      days, counts := TallyDaysStep(rows[..i], days, counts, rows[i]);
      i := i + 1;
    }
    assert rows[..i] == rows;
  }

  /** The body of the loop of TallyDays: one more row into the `Map`. */
  method TallyDaysStep(ghost seen: seq<RawRow>, days0: seq<string>, counts0: map<string, DayCount>, row: RawRow)
    returns (days: seq<string>, counts: map<string, DayCount>)
    requires days0 == DaysInOrder(seen) && counts0 == DayCounts(seen)
    ensures days == DaysInOrder(seen + [row])
    ensures counts == DayCounts(seen + [row])
  {
    days, counts := days0, counts0;
    TallyDaysStepDays(seen, row, days0, counts0);
    var date := DateOf(row);
    if date == "" {
      TallyDaysStepUndated(seen, row);
      return;
    }
    var analysis := OutcomeOf(row);
    if date !in counts {
      counts := counts[date := DayCount(0, 0)];
      days := days + [date];
    }
    var current := counts[date];
    ghost var start := current;
    TallyDaysStepCounts(seen, row, counts0, start);
    if analysis == Pass {
      current := current.(pass := current.pass + 1);
    }
    if analysis == Fail {
      current := current.(fail := current.fail + 1);
    }
    assert current == Bump(start, analysis);
    ghost var before := counts;
    counts := counts[date := current];
    UpdateOverwrites(counts0, before, date, DayCount(0, 0), current);
  }

  /** Setting a key of a map last decides its value, whatever was set there before. */
  lemma UpdateOverwrites<K, V>(m: map<K, V>, m': map<K, V>, k: K, u: V, v: V)
    requires m' == m || m' == m[k := u]
    ensures m'[k := v] == m[k := v]
  {
  }

  /** The counts after one more row, on their own. */
  function Bump(c: DayCount, outcome: string): DayCount
  {
    DayCount(c.pass + (if outcome == Pass then 1 else 0), c.fail + (if outcome == Fail then 1 else 0))
  }

  /** One row of TallyDays keeps the key order of its `Map`. */
  lemma TallyDaysStepDays(seen: seq<RawRow>, row: RawRow, days0: seq<string>, counts0: map<string, DayCount>)
    requires days0 == DaysInOrder(seen) && counts0 == DayCounts(seen)
    ensures DaysInOrder(seen + [row])
      == if DateOf(row) == "" || DateOf(row) in counts0 then days0 else days0 + [DateOf(row)]
  {
    NonEmptyDatesSnoc(seen, row);
    assert NonEmptyDates(seen) + [] == NonEmptyDates(seen);
    if DateOf(row) != "" {
      FirstEncountersSnoc(NonEmptyDates(seen), DateOf(row));
    }
  }

  /** One dated row of TallyDays bumps the counts of its date in the `Map`. */
  lemma TallyDaysStepCounts(seen: seq<RawRow>, row: RawRow, counts0: map<string, DayCount>, start: DayCount)
    requires counts0 == DayCounts(seen)
    requires DateOf(row) != ""
    requires start == if DateOf(row) in counts0 then counts0[DateOf(row)] else DayCount(0, 0)
    ensures DayCounts(seen + [row]) == counts0[DateOf(row) := Bump(start, OutcomeOf(row))]
  {
    var date, next := DateOf(row), seen + [row];
    NonEmptyDatesSnoc(seen, row);
    if date !in counts0 {
      CountOutcomeUnseen(seen, date, Pass);
      CountOutcomeUnseen(seen, date, Fail);
    }
    forall d | d in DayCounts(next)
      ensures DayCounts(next)[d] == DayCount(CountOutcome(next, d, Pass), CountOutcome(next, d, Fail))
    {
      CountOutcomeSnoc(seen, row, d, Pass);
      CountOutcomeSnoc(seen, row, d, Fail);
    }
  }

  /** A row without a date leaves the `Map` of TallyDays as it is. */
  lemma TallyDaysStepUndated(seen: seq<RawRow>, row: RawRow)
    requires DateOf(row) == ""
    ensures DayCounts(seen + [row]) == DayCounts(seen)
  {
    var next := seen + [row];
    NonEmptyDatesSnoc(seen, row);
    assert NonEmptyDates(next) == NonEmptyDates(seen);
    forall d | d in DayCounts(next)
      ensures DayCounts(next)[d] == DayCounts(seen)[d]
    {
      CountOutcomeSnoc(seen, row, d, Pass);
      CountOutcomeSnoc(seen, row, d, Fail);
    }
  }

  /** `percentPass`: pass / total, and 0 for a day with neither pass nor fail. */
  function PercentPass(pass: nat, total: nat): real
  {
    if total > 0 then (pass as real) / (total as real) else 0.0
  }

  /** The share is the fraction of passes, between 0 and 1, and 0 for an empty day. */
  lemma PercentPassShare(pass: nat, total: nat)
    ensures total > 0 ==> PercentPass(pass, total) * (total as real) == pass as real
    ensures total == 0 ==> PercentPass(pass, total) == 0.0
    ensures pass <= total ==> 0.0 <= PercentPass(pass, total) <= 1.0
  {
  }

  function SummaryOf(date: string, c: DayCount): DaySummary
  {
    DaySummary(date, c.pass, c.fail, c.pass + c.fail, PercentPass(c.pass, c.pass + c.fail))
  }

  /** Lines 29-39: one summary per `Map` entry, in key order. */
  function SummaryRows(days: seq<string>, counts: map<string, DayCount>): seq<DaySummary>
    requires forall d :: d in days ==> d in counts
  {
    seq(|days|, i requires 0 <= i < |days| => SummaryOf(days[i], counts[days[i]]))
  }

  /** Line 40: `a.date.localeCompare(b.date)`. */
  function ByDate(a: DaySummary, b: DaySummary): bool
  {
    StrLe(a.date, b.date)
  }

  function DateKey(d: DaySummary): string { d.date }

  function TotalOf(d: DaySummary): int { d.total }

  /** Every day of the report has its entry in the per-day `Map`. */
  lemma DaysInOrderCounted(rows: seq<RawRow>)
    ensures forall d :: d in DaysInOrder(rows) ==> d in DayCounts(rows)
  {
  }

  /** `summaryByDay`. */
  function SummaryByDay(rows: seq<RawRow>): seq<DaySummary>
  {
    SortBy(ByDate, SummaryRows(DaysInOrder(rows), DayCounts(rows)))
  }

  // ===========================================================================
  // 2. Failure filter and 3. row projection

  /** Line 43: the rows whose outcome is exactly "fail", in row order. */
  function Failures(rows: seq<RawRow>): (r: seq<RawRow>)
    ensures forall row :: multiset(r)[row] == if OutcomeOf(row) == Fail then multiset(rows)[row] else 0
  {
    if |rows| == 0 then []
    else
      var init, last := rows[..|rows| - 1], rows[|rows| - 1];
      assert rows == init + [last];
      Failures(init) + (if OutcomeOf(last) == Fail then [last] else [])
  }

  /** Lines 46-71: the fifteen columns of a failed trip, each read as text. */
  function Project(row: RawRow): FailureRow
  {
    var tripId := Field(row, "trip_id");
    var date := DateOf(row);
    FailureRow(
      date,
      Field(row, "pattern_id"),
      TripIdNew(tripId, date),
      tripId,
      Field(row, VehicleColumn),
      Field(row, DriverColumn),
      Field(row, "passengers_observed"),
      Field(row, "start_time_scheduled"),
      Field(row, "start_time_observed"),
      Field(row, "end_time_scheduled"),
      Field(row, "end_time_observed"),
      Field(row, OutcomeColumn),
      Field(row, "analysis_SIMPLE_THREE_VEHICLE_EVENTS_reason"),
      Field(row, "justification_cause"),
      Field(row, "pto_message"))
  }

  function ProjectAll(rows: seq<RawRow>): seq<FailureRow>
  {
    seq(|rows|, i requires 0 <= i < |rows| => Project(rows[i]))
  }

  /**
   * Lines 74-79: by date, then by scheduled start time. When the dates differ
   * the order of the dates decides; otherwise the order of the start times.
   */
  function ByDateThenStart(a: FailureRow, b: FailureRow): bool
  {
    if a.operationalDate != b.operationalDate then StrLe(a.operationalDate, b.operationalDate)
    else StrLe(a.startTimeScheduled, b.startTimeScheduled)
  }

  /** `mainData`. */
  function MainData(rows: seq<RawRow>): seq<FailureRow>
  {
    SortBy(ByDateThenStart, ProjectAll(Failures(rows)))
  }

  // ===========================================================================
  // 4. and 5. Rankings by vehicle and by driver

  predicate Usable(id: string)
  {
    id != "" && id != Placeholder
  }

  /** The trimmed ids that are neither empty nor the placeholder, in order. */
  function UsableIds(values: seq<string>): seq<string>
  {
    if |values| == 0 then []
    else
      var init, id := values[..|values| - 1], Trim(values[|values| - 1]);
      UsableIds(init) + (if Usable(id) then [id] else [])
  }

  /** Every id kept by UsableIds is usable and already trimmed. */
  lemma {:induction false} UsableIdsTrimmed(values: seq<string>, id: string)
    requires id in UsableIds(values)
    ensures Usable(id) && Trim(id) == id
    decreases |values|
  {
    var init, last := values[..|values| - 1], values[|values| - 1];
    if id in UsableIds(init) {
      UsableIdsTrimmed(init, id);
    } else {
      TrimIdempotent(last);
    }
  }

  /** For each usable id, how many of its values trim to it. */
  function IdCounts(values: seq<string>): map<string, nat>
  {
    CountMap(UsableIds(values))
  }

  lemma UsableIdsSnoc(values: seq<string>, v: string)
    ensures UsableIds(values + [v]) == UsableIds(values) + (if Usable(Trim(v)) then [Trim(v)] else [])
  {
    assert (values + [v])[..|values|] == values;
  }

  /**
   * Lines 82-89 and 95-102: one pass over the failures that fills a `Map`
   * from trimmed id to count. `keys` is the key order of that `Map`.
   */
  method TallyIds(values: seq<string>) returns (keys: seq<string>, counts: map<string, nat>)
    ensures keys == FirstEncounters(UsableIds(values))
    ensures counts == IdCounts(values)
  {
    keys, counts := [], map[];
    var i := 0;
    while i < |values|
      invariant 0 <= i <= |values|
      invariant keys == FirstEncounters(UsableIds(values[..i]))
      invariant counts == IdCounts(values[..i])
    {
      assert values[..i + 1] == values[..i] + [values[i]];
      keys, counts := TallyIdsStep(values[..i], keys, counts, values[i]);
      i := i + 1;
    }
    assert values[..i] == values;
  }

  /** The body of the loop of TallyIds: one more value into the `Map`. */
  method TallyIdsStep(ghost seen: seq<string>, keys0: seq<string>, counts0: map<string, nat>, v: string)
    returns (keys: seq<string>, counts: map<string, nat>)
    requires keys0 == FirstEncounters(UsableIds(seen)) && counts0 == IdCounts(seen)
    ensures keys == FirstEncounters(UsableIds(seen + [v]))
    ensures counts == IdCounts(seen + [v])
  {
    keys, counts := keys0, counts0;
    TallyIdsStepKeys(seen, v, keys0, counts0);
    var vid := Trim(v);
    if Usable(vid) {
      if vid !in counts {
        keys := keys + [vid];
      }
      TallyIdsStepCounts(seen, v, counts0);
      counts := counts[vid := (if vid in counts then counts[vid] else 0) + 1];
    } else {
      TallyIdsStepUnusable(seen, v);
    }
  }

  /** One value of TallyIds keeps the key order of its `Map`. */
  lemma TallyIdsStepKeys(seen: seq<string>, v: string, keys0: seq<string>, counts0: map<string, nat>)
    requires keys0 == FirstEncounters(UsableIds(seen)) && counts0 == IdCounts(seen)
    ensures FirstEncounters(UsableIds(seen + [v]))
      == if Usable(Trim(v)) && Trim(v) !in counts0 then keys0 + [Trim(v)] else keys0
  {
    UsableIdsSnoc(seen, v);
    assert UsableIds(seen) + [] == UsableIds(seen);
    if Usable(Trim(v)) {
      FirstEncountersSnoc(UsableIds(seen), Trim(v));
    }
  }

  /** One usable value of TallyIds adds one to the count of its trimmed id. */
  lemma TallyIdsStepCounts(seen: seq<string>, v: string, counts0: map<string, nat>)
    requires counts0 == IdCounts(seen) && Usable(Trim(v))
    ensures IdCounts(seen + [v])
      == counts0[Trim(v) := (if Trim(v) in counts0 then counts0[Trim(v)] else 0) + 1]
  {
    UsableIdsSnoc(seen, v);
    CountMapSnoc(UsableIds(seen), Trim(v));
  }

  /** An empty or placeholder value leaves the `Map` of TallyIds as it is. */
  lemma TallyIdsStepUnusable(seen: seq<string>, v: string)
    requires !Usable(Trim(v))
    ensures IdCounts(seen + [v]) == IdCounts(seen)
  {
    var u := UsableIds(seen);
    UsableIdsSnoc(seen, v);
    assert u + [] == u;
  }

  function Entries(keys: seq<string>, counts: map<string, nat>): seq<ErrorCount>
    requires forall k :: k in keys ==> k in counts
  {
    seq(|keys|, i requires 0 <= i < |keys| => ErrorCount(keys[i], counts[keys[i]]))
  }

  /** Lines 92 and 105: `b.count - a.count`, highest count first. */
  function ByCountDescending(a: ErrorCount, b: ErrorCount): bool
  {
    a.count >= b.count
  }

  function IdOf(e: ErrorCount): string { e.id }

  function CountOf(e: ErrorCount): int { e.count }

  /** Every key of the id `Map` has its count. */
  lemma IdKeysCounted(values: seq<string>)
    ensures forall k :: k in FirstEncounters(UsableIds(values)) ==> k in IdCounts(values)
  {
  }

  /** The ranking of the ids among `values`, unsorted: first-encounter order. */
  function RankingEntries(values: seq<string>): seq<ErrorCount>
  {
    Entries(FirstEncounters(UsableIds(values)), IdCounts(values))
  }

  function Ranking(values: seq<string>): seq<ErrorCount>
  {
    SortBy(ByCountDescending, RankingEntries(values))
  }

  function VehicleValues(rows: seq<RawRow>): seq<string>
  {
    seq(|rows|, i requires 0 <= i < |rows| => Field(rows[i], VehicleColumn))
  }

  function DriverValues(rows: seq<RawRow>): seq<string>
  {
    seq(|rows|, i requires 0 <= i < |rows| => Field(rows[i], DriverColumn))
  }

  // ===========================================================================
  // The whole analysis

  /** What `analyzeRawData` returns for `rows`. */
  function Analyze(rows: seq<RawRow>): ProcessedData
  {
    var failures := Failures(rows);
    ProcessedData(
      MainData(rows),
      Ranking(VehicleValues(failures)),
      Ranking(DriverValues(failures)),
      SummaryByDay(rows))
  }

  /** Lines 11-40: the per-day tally, then its entries sorted by date. */
  method SummarizeDays(rows: seq<RawRow>) returns (summaryByDay: seq<DaySummary>)
    ensures summaryByDay == SummaryByDay(rows)
  {
    var days, counts := TallyDays(rows);
    DaysInOrderCounted(rows);
    summaryByDay := SortBy(ByDate, SummaryRows(days, counts));
  }

  /** Lines 43-79: the failures projected, then sorted in place. */
  method SortedFailures(rows: seq<RawRow>) returns (mainData: seq<FailureRow>)
    ensures mainData == MainData(rows)
  {
    var projected := ProjectAll(Failures(rows));
    var table := new FailureRow[|projected|](i requires 0 <= i < |projected| => projected[i]);
    assert table[..] == projected;
    SortInPlace(table, ByDateThenStart);
    mainData := table[..];
  }

  /** Lines 82-92 (and 95-105 for drivers): the id tally, then its entries sorted by count. */
  method RankIds(values: seq<string>) returns (ranking: seq<ErrorCount>)
    ensures ranking == Ranking(values)
  {
    var keys, counts := TallyIds(values);
    IdKeysCounted(values);
    ranking := SortBy(ByCountDescending, Entries(keys, counts));
  }

  /** Lines 9-113. */
  method AnalyzeRawData(rows: seq<RawRow>) returns (pd: ProcessedData)
    ensures pd == Analyze(rows)
  {
    // 1. summary per day
    var summaryByDay := SummarizeDays(rows);
    // 2. failures, 3. projection, sorted in place
    var mainData := SortedFailures(rows);
    // 4. errors by car
    var failures := Failures(rows);
    var errorsByCar := RankIds(VehicleValues(failures));
    // 5. errors by driver
    var errorsByDriver := RankIds(DriverValues(failures));
    pd := ProcessedData(mainData, errorsByCar, errorsByDriver, summaryByDay);
  }
}
