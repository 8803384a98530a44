/**
 * `downloadExcel`: the workbook the report is saved as. Four sheets are
 * built from the `ProcessedData` bundle, each from a list of records, given
 * column widths, and appended to the workbook in order; on the per-day sheet
 * the share of passes is then marked as a number shown as a percentage.
 */
module Export {
  import opened Wrappers
  import opened Types

  // ---------------------------------------------------------------------------
  // Cells and rows of a sheet

  /** The cell type codes the exported file uses: `'s'` (text) and `'n'` (number). */
  datatype CellType = StringCell | NumberCell

  /** A value of a record: the report's records hold text and numbers only. */
  datatype Value = Text(s: string) | Number(n: real)

  /** A cell: its type code, its value and its number format, if any. */
  datatype Cell = Cell(t: CellType, v: Value, z: Option<string>)

  /** A record value written to a cell: text gets type `'s'`, a number type `'n'`. */
  function CellOf(v: Value): (c: Cell)
    ensures c.v == v && c.z.None?
    ensures c.t == NumberCell <==> v.Number?
  {
    match v
    case Text(_) => Cell(StringCell, v, None)
    case Number(_) => Cell(NumberCell, v, None)
  }

  /**
   * The rows a list of records becomes: a header row with the keys, then one
   * row per record. No record gives no row at all, not even a header, since
   * the header is made of the keys the records have.
   */
  function SheetRows(keys: seq<string>, records: seq<seq<Value>>): (rows: seq<seq<Cell>>)
    ensures |records| == 0 ==> rows == []
    ensures |records| > 0 ==> |rows| == |records| + 1
  {
    if |records| == 0 then []
    else
      [seq(|keys|, c requires 0 <= c < |keys| => CellOf(Text(keys[c])))]
        + seq(|records|, r requires 0 <= r < |records| =>
            seq(|records[r]|, c requires 0 <= c < |records[r]| => CellOf(records[r][c])))
  }

  /** Reading a sheet back: the keys of its header row. */
  function HeaderOf(rows: seq<seq<Cell>>): seq<string>
  {
    if |rows| == 0 then []
    else seq(|rows[0]|, c requires 0 <= c < |rows[0]| => match rows[0][c].v case Text(s) => s case Number(_) => "")
  }

  /** Reading a sheet back: the values of its data rows. */
  function RecordsOf(rows: seq<seq<Cell>>): seq<seq<Value>>
  {
    if |rows| == 0 then []
    else seq(|rows| - 1, r requires 0 <= r < |rows| - 1 => seq(|rows[r + 1]|, c requires 0 <= c < |rows[r + 1]| => rows[r + 1][c].v))
  }

  /** The records and their keys can be read back from the sheet they were written to. */
  lemma SheetRowsReadBack(keys: seq<string>, records: seq<seq<Value>>)
    ensures RecordsOf(SheetRows(keys, records)) == records
    ensures |records| > 0 ==> HeaderOf(SheetRows(keys, records)) == keys
  {
    var rows := SheetRows(keys, records);
    if |records| > 0 {
      var back := RecordsOf(rows);
      assert |back| == |records|;
      forall r | 0 <= r < |records|
        ensures back[r] == records[r]
      {
        assert rows[r + 1] == seq(|records[r]|, c requires 0 <= c < |records[r]| => CellOf(records[r][c]));
      }
    }
  }

  /** The number format of the share-of-passes column. */
  const PercentFormat := "0.00%"

  /** A cell marked as a number shown as a percentage; its value is kept. */
  function AsPercent(cell: Cell): Cell
  {
    cell.(t := NumberCell, z := Some(PercentFormat))
  }

  /** Column `col` of one row marked as a percentage, when the row has a cell there. */
  function MarkCell(cells: seq<Cell>, col: nat): (r: seq<Cell>)
    ensures |r| == |cells|
  {
    if col < |cells| then cells[col := AsPercent(cells[col])] else cells
  }

  /** Column `col` marked as a percentage in the data rows `1 <= r < upto`. */
  function MarkColumnBelow(rows: seq<seq<Cell>>, col: nat, upto: nat): (r: seq<seq<Cell>>)
    ensures |r| == |rows|
  {
    seq(|rows|, i requires 0 <= i < |rows| => if 1 <= i < upto then MarkCell(rows[i], col) else rows[i])
  }

  /** Column `col` marked as a percentage in every data row; the header row is left alone. */
  function MarkColumn(rows: seq<seq<Cell>>, col: nat): seq<seq<Cell>>
  {
    MarkColumnBelow(rows, col, |rows|)
  }

  /**
   * Marking a column changes only the type and format of that column's cells
   * below the header: every value, every other cell and the header stay, and
   * each marked cell is a number shown as a percentage.
   */
  lemma MarkColumnCells(rows: seq<seq<Cell>>, col: nat, r: nat, c: nat)
    requires r < |rows| && c < |rows[r]|
    ensures |MarkColumn(rows, col)[r]| == |rows[r]|
    ensures MarkColumn(rows, col)[r][c].v == rows[r][c].v
    ensures MarkColumn(rows, col)[r][c]
      == if 1 <= r && c == col then Cell(NumberCell, rows[r][c].v, Some(PercentFormat)) else rows[r][c]
  {
  }

  /** Marking a column twice is marking it once. */
  lemma MarkColumnIdempotent(rows: seq<seq<Cell>>, col: nat)
    ensures MarkColumn(MarkColumn(rows, col), col) == MarkColumn(rows, col)
  {
    var once := MarkColumn(rows, col);
    forall i | 0 <= i < |rows|
      ensures MarkColumn(once, col)[i] == once[i]
    {
      if 1 <= i && col < |rows[i]| {
        assert MarkCell(once[i], col) == once[i];
      }
    }
  }

  /** Marking keeps what the sheet reads back as. */
  lemma MarkColumnReadBack(rows: seq<seq<Cell>>, col: nat)
    ensures RecordsOf(MarkColumn(rows, col)) == RecordsOf(rows)
    ensures HeaderOf(MarkColumn(rows, col)) == HeaderOf(rows)
  {
    var marked := MarkColumn(rows, col);
    if |rows| > 0 {
      forall r | 0 <= r < |rows| - 1
        ensures RecordsOf(marked)[r] == RecordsOf(rows)[r]
      {
        var before, after := rows[r + 1], marked[r + 1];
        forall c | 0 <= c < |before|
          ensures after[c].v == before[c].v
        {
          MarkColumnCells(rows, col, r + 1, c);
        }
      }
    }
  }

  // ---------------------------------------------------------------------------
  // Worksheets and the workbook

  /** A worksheet: its rows of cells (row 0 is the header) and its column widths. */
  class Worksheet {
    var rows: seq<seq<Cell>>
    var cols: seq<nat>

    /** A sheet made from records, with no column widths set. */
    constructor FromRecords(keys: seq<string>, records: seq<seq<Value>>)
      ensures rows == SheetRows(keys, records) && cols == []
    {
      rows := SheetRows(keys, records);
      cols := [];
    }

    /** The index of the last row of the sheet's range; the range of an empty sheet is its first cell. */
    function LastRow(): nat
      reads this
    {
      if |rows| == 0 then 0 else |rows| - 1
    }

    /** Sets the column widths, in characters. */
    method SetCols(widths: seq<nat>)
      modifies this
      ensures cols == widths && rows == old(rows)
    {
      cols := widths;
    }

    /**
     * Walks the data rows of the range and marks the cell of column `col` of
     * each, where there is one, as a number shown as a percentage.
     */
    method MarkPercentColumn(col: nat)
      modifies this
      ensures rows == MarkColumn(old(rows), col) && cols == old(cols)
    {
      ghost var start := rows;
      var last := LastRow();
      var row := 1;
      while row <= last
        invariant 1 <= row <= |start| + 1 && (|start| > 0 ==> row <= |start|)
        invariant last == LastRow() && |rows| == |start|
        invariant rows == MarkColumnBelow(start, col, row)
        invariant cols == old(cols)
      {
        if col < |rows[row]| {
          var cell := rows[row][col];
          rows := rows[row := rows[row][col := cell.(t := NumberCell, z := Some(PercentFormat))]];
        }
        row := row + 1;
      }
    }
  }

  /** A workbook: its sheet names in order, and the sheet of each name. */
  class Workbook {
    var sheetNames: seq<string>
    var sheets: map<string, Worksheet>

    /** An empty workbook. */
    constructor ()
      ensures sheetNames == [] && sheets == map[]
    {
      sheetNames := [];
      sheets := map[];
    }

    /**
     * Appends `ws` under `name`. A name already in the workbook is refused
     * and nothing changes; otherwise the name goes last and names `ws`.
     */
    method AppendSheet(ws: Worksheet, name: string) returns (ok: bool)
      modifies this
      ensures ok <==> name !in old(sheetNames)
      ensures ok ==> sheetNames == old(sheetNames) + [name] && sheets == old(sheets)[name := ws]
      ensures !ok ==> sheetNames == old(sheetNames) && sheets == old(sheets)
    {
      if name in sheetNames {
        ok := false;
      } else {
        sheetNames := sheetNames + [name];
        sheets := sheets[name := ws];
        ok := true;
      }
    }
  }

  // ---------------------------------------------------------------------------
  // The four sheets of the report

  const MainSheet := "Sheet1"
  const CarSheet := "Erros por Carro"
  const DriverSheet := "Erros por Condutor"
  const SummarySheet := "Resumo por Dia"

  const CarKeys: seq<string> := ["vehicle_ids", "erros"]
  const DriverKeys: seq<string> := ["driver_ids", "erros"]
  const SummaryKeys: seq<string> := ["operational_date", "pass_count", "fail_count", "total", "percent_pass"]

  /** The summary column holding the share of passes, counted from zero. */
  const PercentColumn := 4

  /** The failure table as records: the fifteen columns, all text. */
  function MainRecords(mainData: seq<FailureRow>): (r: seq<seq<Value>>)
    ensures |r| == |mainData|
    ensures forall i :: 0 <= i < |r| ==> |r[i]| == |FailureRowKeys|
  {
    seq(|mainData|, i requires 0 <= i < |mainData| =>
      var values := FailureRowValues(mainData[i]);
      seq(|values|, c requires 0 <= c < |values| => Text(values[c])))
  }

  /** A ranking as records: the id, then the count. */
  function RankingRecords(ranking: seq<ErrorCount>): seq<seq<Value>>
  {
    seq(|ranking|, i requires 0 <= i < |ranking| => [Text(ranking[i].id), Number(ranking[i].count as real)])
  }

  /** The per-day summary as records: date, pass, fail, total and the share of passes. */
  function SummaryRecords(summary: seq<DaySummary>): seq<seq<Value>>
  {
    seq(|summary|, i requires 0 <= i < |summary| =>
      var d := summary[i];
      [Text(d.date), Number(d.pass as real), Number(d.fail as real), Number(d.total as real), Number(d.percentPass)])
  }

  /** Width 20 for each key of the first failure, and no widths when there is none. */
  function MainWidths(mainData: seq<FailureRow>): seq<nat>
  {
    if |mainData| == 0 then [] else seq(|FailureRowKeys|, _ => 20)
  }

  /** The rows of the per-day sheet once its share column is marked. */
  function SummarySheetRows(summary: seq<DaySummary>): seq<seq<Cell>>
  {
    MarkColumn(SheetRows(SummaryKeys, SummaryRecords(summary)), PercentColumn)
  }

  /**
   * The share of passes of each day sits in column 4 of its row of the
   * per-day sheet as a number shown as a percentage; the other columns of
   * the row are as written.
   */
  lemma SummarySheetPercent(summary: seq<DaySummary>, i: nat)
    requires i < |summary|
    ensures |SummarySheetRows(summary)| == |summary| + 1
    ensures |SummarySheetRows(summary)[i + 1]| == 5
    ensures SummarySheetRows(summary)[i + 1][PercentColumn]
      == Cell(NumberCell, Number(summary[i].percentPass), Some(PercentFormat))
    ensures SummarySheetRows(summary)[i + 1][..PercentColumn]
      == SheetRows(SummaryKeys, SummaryRecords(summary))[i + 1][..PercentColumn]
    ensures SummarySheetRows(summary)[0] == SheetRows(SummaryKeys, SummaryRecords(summary))[0]
  {
    var rows := SheetRows(SummaryKeys, SummaryRecords(summary));
    assert rows[i + 1] == seq(5, c requires 0 <= c < 5 => CellOf(SummaryRecords(summary)[i][c]));
    MarkColumnCells(rows, PercentColumn, i + 1, PercentColumn);
  }

  /**
   * Reading the failure sheet back gives the fifteen report columns as its
   * header and each failure's values, as text, in its row.
   */
  lemma MainSheetReadBack(mainData: seq<FailureRow>, i: nat)
    requires i < |mainData|
    ensures HeaderOf(SheetRows(FailureRowKeys, MainRecords(mainData))) == FailureRowKeys
    ensures var back := RecordsOf(SheetRows(FailureRowKeys, MainRecords(mainData)));
      |back| == |mainData| && |back[i]| == 15
      && forall c :: 0 <= c < 15 ==> back[i][c] == Text(FailureRowValues(mainData[i])[c])
  {
    SheetRowsReadBack(FailureRowKeys, MainRecords(mainData));
  }

  /** Reading a ranking sheet back gives, for each entry in rank order, its id and its count. */
  lemma RankingSheetReadBack(keys: seq<string>, ranking: seq<ErrorCount>, i: nat)
    requires |keys| == 2 && i < |ranking|
    ensures HeaderOf(SheetRows(keys, RankingRecords(ranking))) == keys
    ensures var back := RecordsOf(SheetRows(keys, RankingRecords(ranking)));
      |back| == |ranking| && back[i] == [Text(ranking[i].id), Number(ranking[i].count as real)]
  {
    SheetRowsReadBack(keys, RankingRecords(ranking));
  }

  /** The failure sheet has width 20 in each of its fifteen columns, or no widths when it is empty. */
  lemma MainWidthsShape(mainData: seq<FailureRow>)
    ensures |mainData| == 0 ==> MainWidths(mainData) == []
    ensures |mainData| > 0 ==> |MainWidths(mainData)| == |FailureRowKeys| == 15
    ensures forall c :: 0 <= c < |MainWidths(mainData)| ==> MainWidths(mainData)[c] == 20
  {
  }

  /** Lines 167-211, without the final write to a file. */
  method DownloadExcel(data: ProcessedData) returns (wb: Workbook)
    ensures fresh(wb)
    ensures wb.sheetNames == [MainSheet, CarSheet, DriverSheet, SummarySheet]
    ensures wb.sheets.Keys == {MainSheet, CarSheet, DriverSheet, SummarySheet}
    ensures fresh(wb.sheets[MainSheet]) && fresh(wb.sheets[CarSheet])
    ensures fresh(wb.sheets[DriverSheet]) && fresh(wb.sheets[SummarySheet])
    ensures wb.sheets[MainSheet].rows == SheetRows(FailureRowKeys, MainRecords(data.mainData))
    ensures wb.sheets[MainSheet].cols == MainWidths(data.mainData)
    ensures wb.sheets[CarSheet].rows == SheetRows(CarKeys, RankingRecords(data.errorsByCar))
    ensures wb.sheets[CarSheet].cols == [25, 10]
    ensures wb.sheets[DriverSheet].rows == SheetRows(DriverKeys, RankingRecords(data.errorsByDriver))
    ensures wb.sheets[DriverSheet].cols == [25, 10]
    ensures wb.sheets[SummarySheet].rows == SummarySheetRows(data.summaryByDay)
    ensures wb.sheets[SummarySheet].cols == [15, 10, 10, 10, 15]
  {
    var wsMain, wsCar, wsDriver, wsSummary := BuildSheets(data);
    wb := BindSheets(wsMain, wsCar, wsDriver, wsSummary);
  }

  /** Lines 170-206: the four sheets, with their widths and the share column marked. */
  method BuildSheets(data: ProcessedData) returns (wsMain: Worksheet, wsCar: Worksheet, wsDriver: Worksheet, wsSummary: Worksheet)
    ensures fresh(wsMain) && fresh(wsCar) && fresh(wsDriver) && fresh(wsSummary)
    ensures wsMain.rows == SheetRows(FailureRowKeys, MainRecords(data.mainData))
    ensures wsMain.cols == MainWidths(data.mainData)
    ensures wsCar.rows == SheetRows(CarKeys, RankingRecords(data.errorsByCar))
    ensures wsCar.cols == [25, 10]
    ensures wsDriver.rows == SheetRows(DriverKeys, RankingRecords(data.errorsByDriver))
    ensures wsDriver.cols == [25, 10]
    ensures wsSummary.rows == SummarySheetRows(data.summaryByDay)
    ensures wsSummary.cols == [15, 10, 10, 10, 15]
  {
    var mainKeys := if |data.mainData| == 0 then [] else FailureRowKeys;
    var widths := seq(|mainKeys|, _ => 20);
    assert widths == MainWidths(data.mainData);
    wsMain := NewSheet(FailureRowKeys, MainRecords(data.mainData), widths);
    wsCar := NewSheet(CarKeys, RankingRecords(data.errorsByCar), [25, 10]);
    wsDriver := NewSheet(DriverKeys, RankingRecords(data.errorsByDriver), [25, 10]);
    wsSummary := NewSheet(SummaryKeys, SummaryRecords(data.summaryByDay), [15, 10, 10, 10, 15]);
    wsSummary.MarkPercentColumn(PercentColumn);
  }

  /** Lines 168, 173, 179, 185 and 207: a new workbook with the four sheets appended in order. */
  method BindSheets(wsMain: Worksheet, wsCar: Worksheet, wsDriver: Worksheet, wsSummary: Worksheet) returns (wb: Workbook)
    ensures fresh(wb)
    ensures wb.sheetNames == [MainSheet, CarSheet, DriverSheet, SummarySheet]
    ensures wb.sheets == map[MainSheet := wsMain, CarSheet := wsCar, DriverSheet := wsDriver, SummarySheet := wsSummary]
  {
    wb := new Workbook();
    var ok := wb.AppendSheet(wsMain, MainSheet);
    ok := wb.AppendSheet(wsCar, CarSheet);
    ok := wb.AppendSheet(wsDriver, DriverSheet);
    ok := wb.AppendSheet(wsSummary, SummarySheet);
  }

  /** A sheet made from records, with the given column widths. */
  method NewSheet(keys: seq<string>, records: seq<seq<Value>>, widths: seq<nat>) returns (ws: Worksheet)
    ensures fresh(ws)
    ensures ws.rows == SheetRows(keys, records) && ws.cols == widths
  {
    ws := new Worksheet.FromRecords(keys, records);
    ws.SetCols(widths);
  }
}
