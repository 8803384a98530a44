/** The report's data model: the loosely typed input row and the `ProcessedData` bundle. */
module Types {

  /** One input row: column name to cell text. Columns may be missing. */
  type RawRow = map<string, string>

  /** A column of a row read as text, defaulting to "" when the column is missing. */
  function Field(row: RawRow, key: string): string
  {
    if key in row then row[key] else ""
  }

  /** One failed trip, with its fifteen columns in the order the exported sheet uses. */
  datatype FailureRow = FailureRow(
    operationalDate: string,
    patternId: string,
    tripIdNew: string,
    tripId: string,
    vehicleIds: string,
    driverIds: string,
    passengersObserved: string,
    startTimeScheduled: string,
    startTimeObserved: string,
    endTimeScheduled: string,
    endTimeObserved: string,
    analysis: string,
    analysisReason: string,
    justificationCause: string,
    ptoMessage: string)

  /** The column names of a `FailureRow`, in declaration order. */
  const FailureRowKeys: seq<string> := [
    "operational_date", "pattern_id", "TRIP ID New", "trip_id", "vehicle_ids", "driver_ids",
    "passengers_observed", "start_time_scheduled", "start_time_observed", "end_time_scheduled",
    "end_time_observed", "analysis_SIMPLE_THREE_VEHICLE_EVENTS",
    "analysis_SIMPLE_THREE_VEHICLE_EVENTS_reason", "justification_cause", "pto_message"]

  /** The values of a `FailureRow`, in the order of `FailureRowKeys`. */
  function FailureRowValues(r: FailureRow): seq<string>
  {
    [r.operationalDate, r.patternId, r.tripIdNew, r.tripId, r.vehicleIds, r.driverIds,
     r.passengersObserved, r.startTimeScheduled, r.startTimeObserved, r.endTimeScheduled,
     r.endTimeObserved, r.analysis, r.analysisReason, r.justificationCause, r.ptoMessage]
  }

  /** Number of failures attributed to one vehicle or one driver. */
  datatype ErrorCount = ErrorCount(id: string, count: nat)

  /** Pass and fail counts of one operational day; `percentPass` is pass / total, or 0. */
  datatype DaySummary = DaySummary(date: string, pass: nat, fail: nat, total: nat, percentPass: real)

  datatype ProcessedData = ProcessedData(
    mainData: seq<FailureRow>,
    errorsByCar: seq<ErrorCount>,
    errorsByDriver: seq<ErrorCount>,
    summaryByDay: seq<DaySummary>)
}
