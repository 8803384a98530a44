# Report analyser for trip-monitoring exports, modelled in Dafny

The application reads an export of trip-monitoring results, either a
comma-separated file or a spreadsheet workbook. Each row is one trip. Its
columns include `operational_date`, `trip_id`, `vehicle_ids`, `driver_ids`,
`start_time_scheduled`, and the outcome column
`analysis_SIMPLE_THREE_VEHICLE_EVENTS` (`"pass"` or `"fail"`). From these rows
it builds a `ProcessedData` bundle of four parts:

- **summaryByDay**: for every dated row's day, the pass and fail counts, their
  total, and the share of passes. Ordered by date.
- **mainData**: the failed trips only, projected to fifteen report columns and
  ordered by date, then by scheduled start. Trips that tie keep their row
  order. The projection adds a computed column `TRIP ID New`: the trip id with
  every `|…|` segment rewritten to `|X|`, followed by `_` and the date.
- **errorsByCar** and **errorsByDriver**: how many failures each vehicle and
  each driver has. Ids are trimmed first, and empty ids and the placeholder
  `(vazio)` are skipped. Ids keep the order of their first failure and are then
  stably sorted by count, largest first.

The bundle can be saved as a workbook of four sheets:

- `Sheet1`: the failures;
- `Erros por Carro`: failures per vehicle;
- `Erros por Condutor`: failures per driver;
- `Resumo por Dia`: the per-day summary.

Each sheet has fixed column widths. On the per-day sheet, every data cell of
column 4 (the share of passes) is turned into a number shown as a percentage.

The Dafny modules follow the source's structure:

| module | file | what it holds |
|---|---|---|
| `Wrappers` | `wrappers.dfy` | `Option`, `Result` |
| `Strings` | `strings.dfy` | text order, ECMAScript `trim`, ASCII lower-casing, `endsWith` |
| `Sorting` | `sorting.dfy` | a stable sort by a comparator, as a function (`SortBy`) and in place on an array (`SortInPlace`), with its proofs: sorted, a permutation, stable |
| `Tally` | `tally.dfy` | first-encounter key order and counts, the two halves of a JavaScript `Map` used as a counter |
| `Types` | `types.dfy` | rows, the fifteen report columns, `ErrorCount`, `DaySummary`, `ProcessedData` |
| `TripIds` | `tripids.dfy` | the `/\|.*?\|/g` → `"|X|"` rewrite and `TRIP ID New` |
| `Analysis` | `analysis.dfy` | `analyzeRawData`: the specification functions and the imperative code (the tally loops, the in-place sort) proved equal to them |
| `SummaryFacts`, `MainDataFacts`, `RankingFacts` | `*_facts.dfy` | what each part of the bundle promises, proved about the specification functions |
| `Export` | `export.dfy` | `downloadExcel`: the `Worksheet` and `Workbook` classes, the four sheets, and the percentage column loop |
| `Dispatch` | `dispatch.dfy` | `processExcelData`: the reader is chosen by file name |

How the source is represented:

- A row is a `map<string, string>`. `Field(row, k)` is `""` when the column is
  absent; this is the source's `String(row.k || "")` for text cells.
- A JavaScript `Map` that the source fills in a loop is a key sequence in
  insertion order plus a Dafny `map`.
- Every `sort` with comparator `cmp` is the stable sort that orders `a` before
  `b` when `cmp(a, b) <= 0`.
- `localeCompare` is modelled as lexicographic code-point order.

## Model

| member | source | states |
|---|---|---|
| Strings.StrLeReflexive | utils/excelProcessor.ts:40 | the text order behind `localeCompare` relates every string to itself |
| Strings.StrLeTotal | utils/excelProcessor.ts:76-78 | any two strings are ordered one way or the other |
| Strings.StrLeAntisymmetric | utils/excelProcessor.ts:76-78 | strings ordered both ways are equal |
| Strings.StrLeTransitive | utils/excelProcessor.ts:76-78 | the text order is transitive |
| Strings.TrimStartSpec | utils/excelProcessor.ts:84 | dropping leading white space leaves a suffix whose dropped prefix is all white space or line terminators, and which is empty or starts with a kept character |
| Strings.TrimEndSpec | utils/excelProcessor.ts:84 | dropping trailing white space leaves a prefix whose dropped tail is all trimmable, and which is empty or ends with a kept character |
| Strings.TrimEdges | utils/excelProcessor.ts:84 | a trimmed id is empty, or it neither starts nor ends with white space |
| Strings.TrimExtent | utils/excelProcessor.ts:97 | a trimmed id is a contiguous slice of the value, and everything outside it is trimmable |
| Strings.TrimIdempotent | utils/excelProcessor.ts:84 | trimming twice is trimming once |
| TripIds.ClosingPipe | utils/excelProcessor.ts:52 | the lazy `.*?\|` finds the first pipe after `from` with no line terminator before it, and if it finds none then no such pipe exists |
| TripIds.TripIdNew | utils/excelProcessor.ts:52 | `TRIP ID New` always ends in `"_"` + date, and is the trip id + `"_"` + date when the id has no pipe |
| TripIds.RewritePipesNoPipe | utils/excelProcessor.ts:52 | text without a pipe is left unchanged |
| TripIds.RewritePipesSegment | utils/excelProcessor.ts:52 | a segment `\|m\|` on one line becomes `\|X\|`, the text before it is kept, and the rewrite continues after it |
| TripIds.RewritePipesUnclosed | utils/excelProcessor.ts:52 | an opening pipe with no closing pipe is kept as it is |
| TripIds.RewritePipesKeepsPrefix | utils/excelProcessor.ts:52 | a pipe-free prefix is kept, and the rest is rewritten on its own |
| TripIds.RewritePipesLineBreak | utils/excelProcessor.ts:52 | a line terminator before the closing pipe stops the match: the pipe and the line are kept |
| TripIds.ClosingPipeStops | utils/excelProcessor.ts:52 | a line terminator before any pipe means no closing pipe is found |
| TripIds.ClosingPipeFinds | utils/excelProcessor.ts:52 | the first pipe, with no line terminator before it, is the one found |
| TripIds.TripIdNewExample | utils/excelProcessor.ts:51-52 | `"A\|1\|B"` on `2024-01-01` gives `"A\|X\|B_2024-01-01"` |
| Tally.FirstEncounters | utils/excelProcessor.ts:90 | the `Map`'s key order holds exactly the ids seen, each once |
| Tally.CountMapSnoc | utils/excelProcessor.ts:87 | one more occurrence of `x` sets the counter of `x` to its old value, or 0, plus one, and changes no other counter |
| Tally.FirstEncountersSnoc | utils/excelProcessor.ts:87 | a new key goes to the end of the key order, and a known key leaves the order alone |
| Tally.OccurrencesPositive | utils/excelProcessor.ts:86-87 | a key is counted at least once exactly when it occurs |
| Sorting.Insert | utils/excelProcessor.ts:74 | inserting adds exactly the one element |
| Sorting.SortBy | utils/excelProcessor.ts:74 | sorting keeps the length and the multiset of elements |
| Sorting.SortBySorted | utils/excelProcessor.ts:74 | under a total preorder the result is sorted |
| Sorting.SortByStable | utils/excelProcessor.ts:74 | elements that compare equal to any `k` keep their relative order |
| Sorting.SortBySum | utils/excelProcessor.ts:92 | sorting does not change the sum of any measure over the elements |
| Sorting.SortByDistinctBy | utils/excelProcessor.ts:92 | sorting keeps keys distinct |
| Sorting.SortInPlace | utils/excelProcessor.ts:74-79 | the in-place `Array.prototype.sort` on an array leaves the stable sort of the old contents |
| Sorting.InsertInPlace | utils/excelProcessor.ts:74 | one pass of insertion puts element `i` into the sorted prefix before it and leaves the rest of the array untouched |
| Analysis.NonEmptyDates | utils/excelProcessor.ts:15-16 | rows without a date are skipped, so no counted date is empty |
| Analysis.NonEmptyDatesMembers | utils/excelProcessor.ts:15-16 | a date is counted exactly when it is non-empty and some row has it |
| Analysis.CountOutcomeSnoc | utils/excelProcessor.ts:25-26 | one more row adds one to the count of its own date and outcome, and nothing to any other |
| Analysis.TallyDays | utils/excelProcessor.ts:13-27 | the loop over all rows leaves the `Map`'s date order and pass/fail counts equal to the specification of the per-day tally |
| Analysis.TallyDaysStep | utils/excelProcessor.ts:14-26 | one row's step keeps the tally equal to the specification for the rows seen so far |
| Analysis.TallyDaysStepDays | utils/excelProcessor.ts:20-22 | a new date is appended to the key order; an undated row or a known date changes nothing |
| Analysis.TallyDaysStepCounts | utils/excelProcessor.ts:20-26 | a dated row starts its date at 0/0 if it is new, then bumps pass or fail by its outcome |
| Analysis.TallyDaysStepUndated | utils/excelProcessor.ts:16 | a row without a date leaves the tally unchanged |
| Analysis.PercentPassShare | utils/excelProcessor.ts:30-31 | the share times the total is the passes; 0 when the total is 0; between 0 and 1 |
| Analysis.DaysInOrderCounted | utils/excelProcessor.ts:29 | every key of the `Map` has its counts |
| Analysis.Failures | utils/excelProcessor.ts:43 | the failures are the rows whose outcome reads `"fail"`, each as often as in the input, and no other row |
| Analysis.UsableIdsTrimmed | utils/excelProcessor.ts:84-86 | every counted id is trimmed, non-empty and not `(vazio)` |
| Analysis.UsableIdsSnoc | utils/excelProcessor.ts:84-88 | one more value adds its trimmed id when that id is usable, and adds nothing otherwise |
| Analysis.TallyIds | utils/excelProcessor.ts:82-89 | the loop leaves the `Map`'s key order as the first encounters of the usable trimmed ids and its counts as their occurrences |
| Analysis.TallyIdsStep | utils/excelProcessor.ts:84-88 | one value's step keeps the tally equal to its specification |
| Analysis.TallyIdsStepKeys | utils/excelProcessor.ts:86-87 | a new usable id is appended to the key order; anything else leaves it alone |
| Analysis.TallyIdsStepCounts | utils/excelProcessor.ts:87 | a usable id's count becomes `(get(id) \|\| 0) + 1` |
| Analysis.TallyIdsStepUnusable | utils/excelProcessor.ts:86 | an empty or placeholder id leaves the counts unchanged |
| Analysis.IdKeysCounted | utils/excelProcessor.ts:90-91 | every key of the id `Map` has its count |
| Analysis.SummarizeDays | utils/excelProcessor.ts:11-40 | the tally, mapped to summaries and sorted by date, equals `SummaryByDay` |
| Analysis.SortedFailures | utils/excelProcessor.ts:43-79 | projecting the failures into an array and sorting it in place gives `MainData` |
| Analysis.RankIds | utils/excelProcessor.ts:82-92 | the tally, turned into entries and sorted by count, equals `Ranking` |
| Analysis.AnalyzeRawData | utils/excelProcessor.ts:9-113 | the whole analysis equals `Analyze`, which every lemma in the facts modules is about |
| SummaryFacts.ByDateTotalPreorder | utils/excelProcessor.ts:40 | the date comparator is a total preorder, so the summary sort is well defined |
| SummaryFacts.SummaryByDayFrom | utils/excelProcessor.ts:29-40 | every summary comes from one key of the per-day `Map` and its counts |
| SummaryFacts.SummaryByDayEntry | utils/excelProcessor.ts:29-39 | each day's pass and fail are the numbers of its rows with that outcome; total is pass + fail; percent is pass / total, or 0 |
| SummaryFacts.SummaryByDayDays | utils/excelProcessor.ts:13-29 | a day has a summary exactly when its date is non-empty and some row carries it |
| SummaryFacts.SummaryByDaySorted | utils/excelProcessor.ts:40 | the summaries are sorted by date and no date appears twice |
| SummaryFacts.SummaryTotals | utils/excelProcessor.ts:25-30 | the totals add up to the number of dated rows whose outcome is pass or fail, which is at most the number of rows |
| SummaryFacts.CountedDatesLength | utils/excelProcessor.ts:16-26 | every row is counted exactly when every row has a date and an outcome of pass or fail |
| SummaryFacts.DayTotalIsOccurrences | utils/excelProcessor.ts:25-30 | a day's pass + fail is the number of counted rows with that date |
| MainDataFacts.ByDateThenStartTotalPreorder | utils/excelProcessor.ts:74-79 | the two-key comparator is a total preorder |
| MainDataFacts.ByDateThenStartTransitive | utils/excelProcessor.ts:74-79 | the two-key comparator is transitive |
| MainDataFacts.ByDateThenStartTies | utils/excelProcessor.ts:74-79 | two failures tie exactly when their dates and their scheduled start times are both equal |
| MainDataFacts.ProjectColumns | utils/excelProcessor.ts:54-70 | each report column except `TRIP ID New` copies the row's column of the same name; `TRIP ID New`, the third, is computed from the trip id and the date |
| MainDataFacts.MainDataFromFailures | utils/excelProcessor.ts:43-71 | every failure entry reads `"fail"`, carries its `TRIP ID New` ending in `"_"` + date, and is the projection of some failed input row |
| MainDataFacts.MainDataHasFailures | utils/excelProcessor.ts:43-46 | every failed row's projection is in the table at least as often as the row occurs |
| MainDataFacts.ProjectAllCount | utils/excelProcessor.ts:46 | projecting keeps every row's image at least as often as the row occurs |
| MainDataFacts.MainDataSorted | utils/excelProcessor.ts:73-79 | the table is sorted by date then start, is a permutation of the projected failures, and keeps their order among ties |
| RankingFacts.TrimAll | utils/excelProcessor.ts:84 | trimming every value keeps their number |
| RankingFacts.UsableIdsOccurrences | utils/excelProcessor.ts:84-88 | a usable id is counted once per value that trims to it |
| RankingFacts.UsableIdsMembers | utils/excelProcessor.ts:84-86 | an id is counted exactly when it is usable and some value trims to it |
| RankingFacts.RankingEntriesIds | utils/excelProcessor.ts:90-91 | before sorting, entry `i` is the `i`-th first-encountered id with its count |
| RankingFacts.RankingEntry | utils/excelProcessor.ts:84-92 | each ranked id is trimmed and usable, and its count is the number of values trimming to it, at least 1 |
| RankingFacts.RankingIds | utils/excelProcessor.ts:84-92 | an id is ranked exactly when it is usable and some value trims to it |
| RankingFacts.RankingHasId | utils/excelProcessor.ts:87-91 | every counted id has an entry in the ranking |
| RankingFacts.RankingSum | utils/excelProcessor.ts:83-92 | the counts add up to the number of usable values, which is at most the number of failures |
| RankingFacts.EntriesSum | utils/excelProcessor.ts:90-91 | entries built from a counter add up to the occurrences of their keys |
| RankingFacts.UsableIdsLength | utils/excelProcessor.ts:83-89 | there are never more usable ids than values |
| RankingFacts.RankingSorted | utils/excelProcessor.ts:92 | counts do not increase along the ranking, ids are distinct, and entries with equal counts keep first-encounter order |
| RankingFacts.RankingExample | utils/excelProcessor.ts:83-92 | `["B", " A", "(vazio)", "", "A "]` ranks as `A` with 2, then `B` with 1 |
| RankingFacts.ExampleUsableIds | utils/excelProcessor.ts:84-86 | in that example, the usable trimmed ids are `B`, `A`, `A` |
| RankingFacts.ExampleTrims | utils/excelProcessor.ts:84 | `" A"` and `"A "` trim to `A`; `B` and `(vazio)` are already trimmed |
| RankingFacts.ExampleEncounters | utils/excelProcessor.ts:90 | in that example, the key order is `B`, `A` |
| RankingFacts.ExampleCounts | utils/excelProcessor.ts:87 | in that example, `B` is counted 1 and `A` 2 |
| Export.CellOf | utils/excelProcessor.ts:171 | a record value becomes a cell of type `'n'` exactly when it is a number, with no format |
| Export.SheetRows | utils/excelProcessor.ts:171 | no records give no rows; otherwise one header row plus one row per record |
| Export.SheetRowsReadBack | utils/excelProcessor.ts:171 | reading a sheet back gives the records, and the keys as its header |
| Export.MarkCell | utils/excelProcessor.ts:204-207 | marking a cell keeps the row's length |
| Export.MarkColumnBelow | utils/excelProcessor.ts:202-208 | marking keeps the number of rows |
| Export.MarkColumnCells | utils/excelProcessor.ts:202-208 | after marking, cells in column `col` below the header have type `'n'` and format `0.00%`; missing cells are not created; every other cell and every value is unchanged |
| Export.MarkColumnIdempotent | utils/excelProcessor.ts:202-208 | marking twice is marking once |
| Export.MarkColumnReadBack | utils/excelProcessor.ts:202-208 | marking changes neither the header nor any value |
| Export.Worksheet.FromRecords | utils/excelProcessor.ts:171 | a new sheet holds the rows of its records and no widths |
| Export.Worksheet.SetCols | utils/excelProcessor.ts:174 | setting `!cols` replaces the widths and keeps the rows |
| Export.Worksheet.MarkPercentColumn | utils/excelProcessor.ts:199-208 | the loop over rows 1 to the last row leaves the rows marked in column `col` and the widths as they were |
| Export.Workbook.constructor | utils/excelProcessor.ts:168 | a new workbook has no sheets |
| Export.Workbook.AppendSheet | utils/excelProcessor.ts:175 | a fresh name is appended to the sheet order and bound to the sheet; a name already present changes nothing and is refused |
| Export.MainRecords | utils/excelProcessor.ts:171 | one record per failure, each with fifteen values |
| Export.MainWidthsShape | utils/excelProcessor.ts:173 | width 20 for each of the fifteen keys of the first failure, and no widths when there is no failure |
| Export.MainSheetReadBack | utils/excelProcessor.ts:171 | the failure sheet reads back as the fifteen column names and each failure's values in order |
| Export.RankingSheetReadBack | utils/excelProcessor.ts:178-179 | a ranking sheet reads back as its two keys and, row by row, each id and its count |
| Export.SummarySheetPercent | utils/excelProcessor.ts:190-208 | each day's share of passes sits in column 4 of its row as a number formatted `0.00%`; the header and the columns before it are as written |
| Export.DownloadExcel | utils/excelProcessor.ts:167-211 | the workbook holds exactly `Sheet1`, `Erros por Carro`, `Erros por Condutor` and `Resumo por Dia`, in that order, each a new sheet with its rows and widths (`[25, 10]` twice, `[15, 10, 10, 10, 15]`) |
| Export.BuildSheets | utils/excelProcessor.ts:170-208 | the four new sheets have their records' rows, their widths, and the marked percentage column |
| Export.BindSheets | utils/excelProcessor.ts:175-209 | appending the four distinct names in order binds each to its sheet |
| Export.NewSheet | utils/excelProcessor.ts:179-180 | a new sheet from records with the given widths |
| Dispatch.FormatForCsv | utils/excelProcessor.ts:117-120 | a file is read as CSV exactly when its last four characters are `.`, `c`/`C`, `s`/`S`, `v`/`V` |
| Dispatch.ProcessExcelData | utils/excelProcessor.ts:115-164 | a CSV file gives the analysis of the parsed rows, or the parser's failure; any other file gives the analysis of the workbook's first sheet, or the reader's failure; a workbook without sheets is analysed as no rows |

## Left out

- Parsing bytes is left out: reading the CSV text (`Papa.parse` with a header row and empty lines skipped) and the workbook (`XLSX.read`, `sheet_to_json` with `defval: ""`). `Dispatch.ProcessExcelData` takes their outcomes as parameters.
- Writing the file (`XLSX.writeFile` and the default file name) is left out. `Export.DownloadExcel` ends with the workbook it would write.
- `Promise`, `FileReader` and the `try`/`catch` plumbing are left out. A thrown error becomes a `Failure` whose message is given.
- A workbook without sheets hands an undefined sheet to `sheet_to_json`. The library reads that as no rows, and the model does the same.
- Analysis.Failures: `String(r.analysis)` at line 43 has no `|| ""`. It still compares equal to `"fail"` exactly when `Field` does, for text cells, so one reader serves both.
- Non-text cell values are left out. The model covers text cells only; numbers, booleans and dates from a workbook are not. With those, `String(x || "")` would turn a numeric 0 into `""`.
- Strings are sequences of code points, while JavaScript strings are UTF-16 code units. Ordering and trimming agree on the basic multilingual plane.
- Strings.StrLeTotal: `localeCompare` is modelled as lexicographic code-point order. Locale collation, which can order accented letters and case differently, is not modelled.
- Dispatch.FormatForCsv: `toLowerCase` is modelled on ASCII letters only. No non-ASCII character lower-cases to `.`, `c`, `s` or `v`, so the CSV decision is the same.
- Sorting.SortBy: the sort is assumed stable. ECMAScript 2019 and later require `Array.prototype.sort` to be stable.
- Analysis.PercentPassShare: the share of passes is an exact `real`. Floating-point rounding of `pass / total` is not modelled.
- Export.Worksheet.FromRecords: `json_to_sheet` is modelled as a header row of keys plus one row per record. Cell addresses (`A1`, `encode_cell`), the `!ref` range and per-cell objects are left out; row `r` and column `c` stand for them.
- Export.Workbook.AppendSheet: the library throws on a duplicate name. The model refuses it instead, and it cannot happen with the four distinct names used. Sheet-name validation (31-character limit, forbidden characters) is left out.
- Export.Worksheet.MarkPercentColumn: the loop starts at row 1 because an exported sheet starts at row 0. A range starting elsewhere is not modelled.
- `percentPassFormatted` and `tripIds` are not part of this model. Neither is the dashboard's top-10 slicing or any of the user interface.
