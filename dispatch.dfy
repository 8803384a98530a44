/**
 * `processExcelData`: a file whose name ends in ".csv", in any letter case,
 * is read as comma-separated text; any other file as a spreadsheet workbook,
 * of which the first sheet is used. The rows read are then analysed. The
 * readers themselves are parameters: their outcome is given, success with
 * rows or failure with a message.
 */
module Dispatch {
  import opened Wrappers
  import opened Strings
  import opened Types
  import opened Analysis

  datatype Format = Csv | Spreadsheet

  /** Lines 117-120: the reader is chosen by the lower-cased file name. */
  function FormatFor(fileName: string): Format
  {
    if EndsWith(ToLowerAscii(fileName), ".csv") then Csv else Spreadsheet
  }

  /** The file is read as text exactly when its last four characters spell ".csv" in some letter case. */
  lemma FormatForCsv(fileName: string)
    ensures FormatFor(fileName) == Csv <==>
      (|fileName| >= 4
      && fileName[|fileName| - 4] == '.'
      && fileName[|fileName| - 3] in {'c', 'C'}
      && fileName[|fileName| - 2] in {'s', 'S'}
      && fileName[|fileName| - 1] in {'v', 'V'})
  {
    var lower := ToLowerAscii(fileName);
    var n := |fileName|;
    if n >= 4 {
      var tail := lower[n - 4..];
      assert tail == [LowerAscii(fileName[n - 4]), LowerAscii(fileName[n - 3]),
        LowerAscii(fileName[n - 2]), LowerAscii(fileName[n - 1])];
    }
  }

  /**
   * Lines 116-164. `csv` is what reading the file as text gives, `book` the
   * sheets of the file read as a workbook, each sheet as rows with "" in
   * every empty cell. Only the reader the name selects is used, and its
   * failure is the result's failure. A workbook without sheets has no first
   * sheet to read rows from, and is analysed as no rows at all.
   */
  method ProcessExcelData(fileName: string, csv: Result<seq<RawRow>, string>, book: Result<seq<seq<RawRow>>, string>)
    returns (r: Result<ProcessedData, string>)
    ensures FormatFor(fileName) == Csv ==>
      r == (if csv.Success? then Success(Analyze(csv.value)) else Failure(csv.error))
    ensures FormatFor(fileName) == Spreadsheet ==>
      r == (if book.Failure? then Failure(book.error)
            else if |book.value| == 0 then Success(Analyze([]))
            else Success(Analyze(book.value[0])))
  {
    var lowered := ToLowerAscii(fileName);
    if EndsWith(lowered, ".csv") {
      match csv
      case Failure(e) =>
        r := Failure(e);
      case Success(rows) =>
        var processed := AnalyzeRawData(rows);
        r := Success(processed);
    } else {
      match book
      case Failure(e) =>
        r := Failure(e);
      case Success(sheets) =>
        var first := if |sheets| == 0 then [] else sheets[0];
        var processed := AnalyzeRawData(first);
        r := Success(processed);
    }
  }
}
