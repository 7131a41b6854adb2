# Sonar metrics report — a Dafny model

The program is a dashboard over a SonarCloud organisation. It collects each
project's metrics: quality gate status, lines of code, bugs, the four A–E
letter ratings, duplication, coverage and the last analysis date. It shows
those metrics on screen and exports them to a workbook with two sheets:

* **"Sonar Metrics"** has one header row and then one row per project. A
  metric in the program's integer or float lists is normalised to an
  integer, a one-decimal number or "N/A". Any other metric, such as
  `alert_status`, is stored as received.
  The four raw grade codes are translated to letters. The rows are sorted
  stably by lower-cased project name. A row whose metric cells are all "N/A"
  is filled light red, and every column is sized to its longest text plus 2.
* **"Summary"** is a fixed 13-row grid. It holds the organisation, the
  number of projects, and the bucket counts of seven distributions: quality
  gate, test coverage, the four ratings and code duplication. Four
  conditional-format ranges highlight the positive counts of problem buckets.

The screen builds the same per-project row as a dictionary. It computes the
same summary dictionary from an unsorted scratch sheet. It marks problem
counts with its own style functions. It marks a project row when none of
the metrics it checks is missing or a string other than "N/A"; numbers do
not clear the mark.

The model follows the program's structure:

| module | file | what it holds |
|---|---|---|
| `Wrappers` | wrappers.dfy | `Option` |
| `Text` | text.dfy | Python's `strip`, `upper`/`lower`, `split`/`join`, string ordering and `str(int)` |
| `Cells` | cells.dfy | a cell value (`Str`, `IntV`, `Num`, `Blank` for Python `None`), the numeric test and `len(str(value))` |
| `Normalize` | normalize.dfy | `convert_to_numeric_or_na` and the `RATING_MAP` lookup |
| `Records` | records.dfy | project records, `create_headers`, the workbook row, Python dictionaries as ordered entry lists, and the screen's row |
| `StableSort` | sort.dfy | Python's stable `list.sort(key=...)`, as insertion sort |
| `Workbook` | sheet.dfy | the `Sheet` class and the metrics-sheet operations: populate, sort and clear, N/A fill, column sizing, `find_column_index` |
| `Tally` | tally.dfy | the four bucket counters as functions, proved |
| `Counters` | counters.dfy | the four `calculate_*_counts` loops, proved against `Tally` |
| `Summary` | summary.dfy | `generate_summary_data` |
| `SummarySheet` | summarysheet.dfy | the grid and rules of `add_summary_sheet_to_workbook`, and the summary count tables on screen |
| `Styles` | styles.dfy | the four `apply_*_styles` functions and `highlight_na_rows_dataframe` |
| `Report` | report.dfy | `generate_excel_file`, the scratch sheet the screen summarises, and how the two agree |

Functions the program leaves to the runtime are parameters of the model:

* Python's `float(s)` is `parse: string -> Option<real>`, where `None` means `ValueError`.
* `round(x, 1)` is `round: (real, int) -> real`.
* `str(x)` of a float is `floatRepr: real -> string`.
* The organisation name, a global set from the UI, is `orgName`.

## Model

| member | source | states |
|---|---|---|
| Text.StripLeft | streamlit_sonar_metrics.py:105 | removes the longest run of leading white space and nothing more |
| Text.StripRight | streamlit_sonar_metrics.py:105 | removes the longest run of trailing white space and nothing more |
| Text.Split | streamlit_sonar_metrics.py:127 | `split` always yields at least one piece |
| Text.SplitJoin | streamlit_sonar_metrics.py:127 | joining the pieces of a split gives the string back; no piece holds the separator; there is one piece more than separators |
| Text.JoinSplit | streamlit_sonar_metrics.py:127 | splitting a join of separator-free pieces gives the pieces back |
| Text.LexLeReflexive | streamlit_sonar_metrics.py:187 | Python string order is reflexive |
| Text.LexLeTotal | streamlit_sonar_metrics.py:187 | any two strings are comparable |
| Text.LexLeAntisymmetric | streamlit_sonar_metrics.py:187 | two strings each at most the other are equal |
| Text.LexLeTransitive | streamlit_sonar_metrics.py:187 | the order is transitive, so a sort by it is well defined |
| Text.IntToDecimal | streamlit_sonar_metrics.py:207 | `str` of an integer is never empty |
| Text.NatToDecimal | streamlit_sonar_metrics.py:207 | the decimal digits of a natural number are never empty |
| Cells.Pad | streamlit_sonar_metrics.py:186 | the padded row reaches the width and reads like the row at every column |
| Normalize.NAIsNA | streamlit_sonar_metrics.py:105 | the sentinel "N/A" is itself read as unavailable |
| Normalize.NAForms | streamlit_sonar_metrics.py:105 | a string reads as unavailable exactly when, with the white space around it removed, it is n/a in some mix of cases |
| Normalize.Truncate | streamlit_sonar_metrics.py:110 | `int(x)` rounds toward zero: the floor for non-negative x, and the ceiling for negative x |
| Normalize.ConvertToNumericOrNA | streamlit_sonar_metrics.py:100-118 | "N/A" exactly for None, an unavailable string, or a conversion whose parse fails. An int conversion gives an integer, a float conversion a number, and no conversion the value unchanged |
| Normalize.IntConversionTruncates | streamlit_sonar_metrics.py:109-110 | a parsed integer metric is the truncation of the parsed number |
| Normalize.FloatConversionRounds | streamlit_sonar_metrics.py:110-114 | a parsed float metric is the parsed number, rounded to the given number of places (one place for coverage and duplication) |
| Normalize.RatingLetter | streamlit_sonar_metrics.py:39-46 | letter k exactly for the code "k.0", "N/A" for a missing metric and any other code, and always one of A–E or "N/A" |
| Normalize.RatingNeedsExactCode | streamlit_sonar_metrics.py:172-177 | "2.0" gives B, but "2", "6.0" and "" give "N/A" |
| Records.MetricsMapKeys | streamlit_sonar_metrics.py:161 | the metrics map has exactly the metric names of the entries as keys |
| Records.MetricsMapLastWins | streamlit_sonar_metrics.py:161 | for a metric named twice the last entry's value wins |
| Records.UiConvertsLikeExcel | streamlit_sonar_metrics.py:806-814 | the screen's row converts every metric exactly as the workbook row does, although each keeps its own type table |
| Records.HeaderLayout | streamlit_sonar_metrics.py:122-135 | the header is the two names, the comma-split keys, four rating headers and the date header; its length is the comma count plus 8 |
| Records.HeadersAt | streamlit_sonar_metrics.py:122-135 | position by position: names at 0 and 1, key j at 2 + j, rating t after the keys, the date last; length is the key count plus 7 |
| Records.DetailRowMatchesHeaders | streamlit_sonar_metrics.py:159-180 | a project row is as long as the header row; under a metric header it holds that metric converted, and under rating header t the letter of the raw grade code |
| Records.DetailRowAt | streamlit_sonar_metrics.py:159-180 | the project row cell by cell: name, key, metrics in key order, four ratings, the date as received |
| Records.MetricCellsAppend | streamlit_sonar_metrics.py:163-170 | one more metric key appends one converted cell |
| Records.MetricCellsSnoc | streamlit_sonar_metrics.py:163-170 | the cells of the first j + 1 keys are those of the first j followed by key j's |
| Records.BuildDetailRow | streamlit_sonar_metrics.py:159-180 | the loop builds the row of the project |
| Records.Put | streamlit_sonar_metrics.py:800-821 | `d[k] = v` keeps the key order when k is present and appends when it is new |
| Records.PutGet | streamlit_sonar_metrics.py:800-821 | after `d[k] = v`, k reads v and every other key reads as before |
| Records.GetAbsent | streamlit_sonar_metrics.py:916-1016 | a key the dictionary lacks reads as missing, so `get(key, 0)` gives 0 |
| Records.BuildUiRow | streamlit_sonar_metrics.py:800-821 | the loop builds the screen's row of the project |
| Records.PutMetricsAppends | streamlit_sonar_metrics.py:806-814 | distinct new metric keys are appended in order, each holding its converted value |
| Records.FixedNamesDistinct | streamlit_sonar_metrics.py:128-134 | the five trailing column names are distinct and neither is a project name or key |
| Records.ProgramKeysFresh | streamlit_sonar_metrics.py:755-762 | the eleven keys the program requests are pairwise distinct and none is a fixed column name, so the record lemmas apply to them |
| Records.ProgramKeysSplit | streamlit_sonar_metrics.py:755-762 | `metric_keys_str.split(',')` of the comma-joined key string gives back exactly the eleven keys, in order, and they are fresh |
| Records.UiFixedFresh | streamlit_sonar_metrics.py:816-821 | the rating and date entries are new keys of the screen's row |
| Records.UiFixedEntriesAt | streamlit_sonar_metrics.py:816-821 | the four rating letters and the date, defaulting to "N/A" |
| Records.UiRowShape | streamlit_sonar_metrics.py:800-821 | the screen's row is the fixed names, then the metrics, then the ratings and the date, none overwritten |
| Records.UiRowKeys | streamlit_sonar_metrics.py:800-821 | the screen's row has the header row's columns, in order |
| Records.UiRowAt | streamlit_sonar_metrics.py:800-821 | the screen's row entry by entry |
| Records.UiRowMatchesDetailRow | streamlit_sonar_metrics.py:800-821 | each entry of the screen's row is (header, cell of the workbook row) but the date, which defaults to "N/A" |
| Records.UiCellsMatch | streamlit_sonar_metrics.py:800-821 | the two rows have the same length and agree on every cell before the date |
| StableSort.InsertPermutes | streamlit_sonar_metrics.py:187 | an insertion adds exactly the inserted element |
| StableSort.InsertSorted | streamlit_sonar_metrics.py:187 | inserting into a sorted list keeps it sorted |
| StableSort.InsertWithKey | streamlit_sonar_metrics.py:187 | an inserted element goes after every element with an equal key |
| StableSort.SortByPermutesAndSorts | streamlit_sonar_metrics.py:187 | `sort` returns a permutation of its input, ordered by key |
| StableSort.SortByStable | streamlit_sonar_metrics.py:187 | `sort` is stable: elements with the same key keep their order |
| Workbook.MaxWidth | streamlit_sonar_metrics.py:213 | the widest row bounds every row and is attained |
| Workbook.Sheet.constructor | streamlit_sonar_metrics.py:399 | a new sheet is empty and carries its title |
| Workbook.Sheet.Append | streamlit_sonar_metrics.py:180 | one new unfilled row after the last; nothing else changes |
| Workbook.Sheet.DeleteRow | streamlit_sonar_metrics.py:189-191 | the row and its fill go, the rows below move up; an index outside the sheet changes nothing |
| Workbook.Sheet.FillRow | streamlit_sonar_metrics.py:310-311 | only that row becomes filled |
| Workbook.Sheet.SetWidth | streamlit_sonar_metrics.py:211 | only that column's width changes |
| Workbook.Sheet.AddRule | streamlit_sonar_metrics.py:293-296 | the range joins the rules; nothing else changes |
| Workbook.PopulateSheetWithData | streamlit_sonar_metrics.py:149-180 | appends one unfilled row per project in input order; earlier rows are unchanged |
| Workbook.PopulatedSheetShape | streamlit_sonar_metrics.py:149-180 | after the headers and the projects, the sheet is rectangular, as wide as the header, with `max_row - 1` equal to the number of projects |
| Workbook.PaddedDataRectangular | streamlit_sonar_metrics.py:186 | on a rectangular sheet the padded data are the data rows |
| Workbook.ClearDataRows | streamlit_sonar_metrics.py:189-191 | the descending delete loop leaves only the header row |
| Workbook.AppendRows | streamlit_sonar_metrics.py:193-194 | the rows are appended in order, unfilled |
| Workbook.SortAndClearSheet | streamlit_sonar_metrics.py:182-194 | the sheet ends as the header followed by the data rows stably sorted by lower-cased name; no data row is filled |
| Workbook.SortedRowsProperties | streamlit_sonar_metrics.py:186-194 | the header stays and the row count is kept. The data are a permutation of the old data, sorted by key and stable |
| Workbook.SortedRowsPermute | streamlit_sonar_metrics.py:186-194 | the header, the row count and the permutation |
| Workbook.SortedRowsShape | streamlit_sonar_metrics.py:186-194 | the header and the row count |
| Workbook.HighlightNaRowsExcel | streamlit_sonar_metrics.py:299-311 | a data row becomes filled iff every cell from the third to the second-to-last is "N/A"; the header and other rows keep their fill |
| Workbook.ExcelNaRowOfDetailRow | streamlit_sonar_metrics.py:306-309 | on a project row the check covers exactly the metric and rating cells |
| Workbook.ColumnTextWidthIsLongest | streamlit_sonar_metrics.py:202-209 | the column's text width is at least every cell's `len(str(value))`, and is 0 or attained |
| Workbook.ColumnWidthsAt | streamlit_sonar_metrics.py:201-211 | columns 1 to `max_column` get a width, each its longest text plus 2, and no other column does |
| Workbook.LongestInColumn | streamlit_sonar_metrics.py:202-209 | the running maximum ends at the column's text width |
| Workbook.ColumnWidthsStep | streamlit_sonar_metrics.py:210-211 | sizing column c after columns 1 to c − 1 gives the widths of columns 1 to c |
| Workbook.SizedColumns | streamlit_sonar_metrics.py:199 | `sheet.columns` yields no column exactly when the sheet has no rows, and `max_column` columns otherwise |
| Workbook.AutoAdjustColumnWidth | streamlit_sonar_metrics.py:197-211 | every column from 1 to `max_column` is sized to its longest text plus 2, and a sheet with no rows gets no width; rows, fills and rules are unchanged |
| Workbook.FirstMatch | streamlit_sonar_metrics.py:591-594 | the first position holding the name, or None when no cell holds it |
| Workbook.FindColumnIndex | streamlit_sonar_metrics.py:587-594 | the first 1-based header column equal to the name, or None exactly when none is |
| Tally.Band | streamlit_sonar_metrics.py:525-534 | the band index of a value is at most the number of bounds |
| Tally.BandIsInBand | streamlit_sonar_metrics.py:525-534 | over increasing bounds a value lies in its band |
| Tally.BandUnique | streamlit_sonar_metrics.py:525-534 | the bands partition the numbers |
| Tally.TallyEmpty | streamlit_sonar_metrics.py:521 | the starting dictionary holds every label at 0 |
| Tally.CountLabelSnoc | streamlit_sonar_metrics.py:522-536 | one more value adds one to its own label's count and nothing to the others |
| Tally.TallyStep | streamlit_sonar_metrics.py:522-536 | one more value bumps its label, if it has one, and nothing else |
| Tally.TallyBump | streamlit_sonar_metrics.py:517-585 | `counts[value] += 1` for the value's label |
| Tally.BucketInLabels | streamlit_sonar_metrics.py:517-585 | every label a counter produces is a key of its dictionary, and only the rating counter skips values |
| Tally.GateBuckets | streamlit_sonar_metrics.py:579-584 | only the strings "OK" and "ERROR" count as passed and failed; everything else counts as "N/A" |
| Tally.CoverageBoundsIncreasing | streamlit_sonar_metrics.py:557-567 | the coverage bounds are increasing |
| Tally.DuplicationBoundsIncreasing | streamlit_sonar_metrics.py:524-533 | the duplication bounds are increasing |
| Tally.CoverageBuckets | streamlit_sonar_metrics.py:550-570 | a number lands in exactly one of <10, [10,30), [30,50), [50,80), ≥80, anything else in "N/A" |
| Tally.DuplicationBuckets | streamlit_sonar_metrics.py:517-537 | a number lands in exactly one of <3, [3,5), [5,10), [10,20), ≥20, anything else in "N/A" |
| Tally.RatingBuckets | streamlit_sonar_metrics.py:539-548 | a value is counted under label l iff it is the string l; values outside A–E and "N/A" are skipped |
| Tally.LabelsDistinct | streamlit_sonar_metrics.py:521 | the labels of each counter are distinct |
| Tally.IndicatorsDistinct | streamlit_sonar_metrics.py:517-585 | a value is counted under at most one label |
| Tally.SumCountsCounted | streamlit_sonar_metrics.py:517-585 | the counts of distinct labels add up to the number of values counted under one of them |
| Tally.CountedInBound | streamlit_sonar_metrics.py:517-585 | at most every value is counted, and all are when each has a label |
| Tally.SumValuesTally | streamlit_sonar_metrics.py:517-585 | the dictionary's values add up like the counts |
| Tally.TallyTotal | streamlit_sonar_metrics.py:517-585 | the counts add up to at most the number of rows. They add up to exactly that for the gate, coverage and duplication, and for a rating column of letters |
| Tally.GateCountsSnoc | streamlit_sonar_metrics.py:579-584 | a new status adds one to passed, failed or not computed |
| Tally.GateExample | streamlit_sonar_metrics.py:572-585 | OK, OK, ERROR, an unknown status and an empty cell count as 2 passed, 1 failed, 2 not computed |
| Tally.CountLabelConcat | streamlit_sonar_metrics.py:517-585 | counting is additive over concatenation |
| Tally.CountLabelPermutation | streamlit_sonar_metrics.py:517-585 | reordering the values keeps every count |
| Tally.TallyMapPermutation | streamlit_sonar_metrics.py:517-585 | reordering the values keeps the dictionary |
| Counters.ColumnDataAt | streamlit_sonar_metrics.py:522-523 | the loop visits rows 2 to `max_row` of the column, in order |
| Counters.ColumnDataLength | streamlit_sonar_metrics.py:522 | the loop visits `max_row - 1` values |
| Counters.Increment | streamlit_sonar_metrics.py:517-585 | adding one under the value's label gives the tally of one more value |
| Counters.QualityGateStart | streamlit_sonar_metrics.py:576 | the starting dictionary is the tally of no values |
| Counters.BumpQualityGate | streamlit_sonar_metrics.py:578-584 | one loop pass gives the tally of one more value |
| Counters.CalculateQualityGateCounts | streamlit_sonar_metrics.py:572-585 | the counts are the tally of the column below the header |
| Counters.CoverageStart | streamlit_sonar_metrics.py:554 | the starting dictionary is the tally of no values |
| Counters.BumpCoverage | streamlit_sonar_metrics.py:556-569 | one loop pass gives the tally of one more value |
| Counters.CalculateCoverageCounts | streamlit_sonar_metrics.py:550-570 | the counts are the tally of the column below the header |
| Counters.DuplicationStart | streamlit_sonar_metrics.py:521 | the starting dictionary is the tally of no values |
| Counters.BumpDuplication | streamlit_sonar_metrics.py:523-536 | one loop pass gives the tally of one more value |
| Counters.CalculateDuplicationCounts | streamlit_sonar_metrics.py:517-537 | the counts are the tally of the column below the header |
| Counters.RatingStart | streamlit_sonar_metrics.py:543 | the starting dictionary is the tally of no values |
| Counters.BumpRating | streamlit_sonar_metrics.py:545-547 | one loop pass gives the tally of one more value |
| Counters.CalculateRatingCounts | streamlit_sonar_metrics.py:539-548 | the counts are the tally of the column below the header |
| Summary.Displays | streamlit_sonar_metrics.py:407-508 | each block shows one name per label |
| Summary.CalculateCounts | streamlit_sonar_metrics.py:324-390 | each block counts its column with the counter of its kind |
| Summary.AddSectionData | streamlit_sonar_metrics.py:324-390 | one block adds its entries when its column exists and nothing otherwise |
| Summary.GenerateSummaryData | streamlit_sonar_metrics.py:314-392 | the dictionary holds every assignment, in order |
| Summary.TitlesDiffer | streamlit_sonar_metrics.py:326-390 | two block titles differ at a known position |
| Summary.KeyStartsWithTitle | streamlit_sonar_metrics.py:326-390 | each key starts with its block's title |
| Summary.SectionKeysDiffer | streamlit_sonar_metrics.py:326-390 | keys of different blocks differ |
| Summary.FixedKeysDiffer | streamlit_sonar_metrics.py:319-390 | no block key is "Application Name" or "Total Repos" |
| Summary.SameSectionKeysDiffer | streamlit_sonar_metrics.py:326-390 | the keys of one block differ |
| Summary.SectionEntriesAt | streamlit_sonar_metrics.py:324-390 | a block gives no entries without its column, else one per label in order, holding its count |
| Summary.SectionEntriesKeys | streamlit_sonar_metrics.py:324-390 | the entries of a block carry that block's keys |
| Summary.SectionsKeysInjective | streamlit_sonar_metrics.py:326-390 | every key names exactly one (block, bucket) |
| Summary.EntriesKeysFromSections | streamlit_sonar_metrics.py:324-390 | every key in the entries is a bucket key |
| Summary.SectionKeysDistinct | streamlit_sonar_metrics.py:324-390 | the keys of one block's entries are distinct |
| Summary.EntriesKeysDistinct | streamlit_sonar_metrics.py:324-390 | the keys of all the blocks' entries are distinct |
| Summary.SectionGet | streamlit_sonar_metrics.py:324-390 | a bucket key reads its count in its own block's entries and is missing in the others |
| Summary.SectionParts | streamlit_sonar_metrics.py:324-390 | the entries of each block in turn |
| Summary.EntriesJoined | streamlit_sonar_metrics.py:324-390 | the blocks' entries are their parts joined |
| Summary.EntriesGet | streamlit_sonar_metrics.py:324-390 | after the first n blocks, a bucket key reads its count if its block is among them, and is missing otherwise |
| Summary.SummaryKeysDistinct | streamlit_sonar_metrics.py:314-392 | no assignment overwrites an earlier one |
| Summary.SummaryLookups | streamlit_sonar_metrics.py:314-392 | "Application Name" is the organisation and "Total Repos" is `max_row - 1`. Each bucket key reads its count when its column exists and is missing otherwise |
| Summary.SummaryKeys | streamlit_sonar_metrics.py:314-392 | every key is one of the two fixed keys or a bucket key |
| Summary.SectionCountsTotal | streamlit_sonar_metrics.py:324-390 | a block's counts add up to at most `max_row - 1`. They add up to exactly that for a found gate, coverage or duplication column |
| Summary.RatingColumnFound | streamlit_sonar_metrics.py:341-343 | under `create_headers`, rating header t is found at column keys + 3 + t unless a metric key repeats it |
| Summary.RatingSection | streamlit_sonar_metrics.py:341-378 | blocks 2 to 5 count the four rating columns in header order |
| Summary.LetterColumnTotal | streamlit_sonar_metrics.py:539-548 | a rating column of letters and "N/A" is counted in full |
| Summary.RatingSectionTotal | streamlit_sonar_metrics.py:341-378 | under `create_headers`, a rating column of letters is found and counted in full |
| Summary.FilledRatingCells | streamlit_sonar_metrics.py:172-177 | every populated row holds a letter or "N/A" in each rating column |
| Summary.FilledRatingTotal | streamlit_sonar_metrics.py:539-548 | on a populated sheet each rating block's counts add up to the number of projects |
| SummarySheet.NamesRowsSpelledOut | streamlit_sonar_metrics.py:408-497 | the four names rows as written: status names, coverage ranges with A5 left empty, letters, duplication ranges |
| SummarySheet.SectionRowCells | streamlit_sonar_metrics.py:413-418 | a block's row is its title, then its counters when its column exists |
| SummarySheet.WriteSectionRow | streamlit_sonar_metrics.py:447-489 | appends one block's row; nothing else changes |
| SummarySheet.WriteQualityGateBlock | streamlit_sonar_metrics.py:408-419 | rows 3 and 4: status names, then the gate counts |
| SummarySheet.WriteCoverageBlock | streamlit_sonar_metrics.py:420-436 | rows 5 and 6: coverage ranges, then the coverage counts |
| SummarySheet.WriteRatingBlock | streamlit_sonar_metrics.py:439-489 | rows 7 to 11: letters, then the four rating rows |
| SummarySheet.WriteDuplicationBlock | streamlit_sonar_metrics.py:491-508 | rows 12 and 13: duplication ranges, then the duplication counts |
| SummarySheet.SummaryGridBlocks | streamlit_sonar_metrics.py:401-508 | the grid is the heading followed by the four blocks |
| SummarySheet.WriteSummaryGrid | streamlit_sonar_metrics.py:401-508 | the writes leave exactly the 13-row grid |
| SummarySheet.ApplyConditionalFormattingSummary | streamlit_sonar_metrics.py:280-296 | adds the ranges C4, B6:E6, C8:F11, C13:F13 and changes nothing else |
| SummarySheet.AddSummarySheetToWorkbook | streamlit_sonar_metrics.py:395-512 | a new "Summary" sheet holding the grid and the four ranges, with every column sized to its text |
| SummarySheet.GridRowsOfSections | streamlit_sonar_metrics.py:401-508 | block k sits in grid row 4, 6, 8–11 or 13, under its names row |
| SummarySheet.SectionRowAt | streamlit_sonar_metrics.py:413-418 | column A holds the title and column i + 2 the counter of bucket i, empty without the column |
| SummarySheet.GridHeadingMatchesSummaryData | streamlit_sonar_metrics.py:401-405 | B1 and B2 hold the dictionary's "Application Name" and "Total Repos" |
| SummarySheet.GridMatchesSummaryData | streamlit_sonar_metrics.py:401-508 | every names cell, title cell and count cell of the grid agrees with the dictionary |
| SummarySheet.ProblemColumns | streamlit_sonar_metrics.py:293-296 | names the columns of each block's problem buckets |
| SummarySheet.RulesCoverProblemCells | streamlit_sonar_metrics.py:293-296 | a cell lies in a highlight range iff it holds the counter of a problem bucket |
| SummarySheet.ScreenNames | streamlit_sonar_metrics.py:916-1016 | the screen names one row per bucket |
| SummarySheet.ScreenCountColumn | streamlit_sonar_metrics.py:916-1016 | one (name, `summary_data.get(key, 0)`) pair per bucket |
| SummarySheet.ProblemCellOfSection | streamlit_sonar_metrics.py:293-296 | bucket i of block k sits in a problem cell iff it is a problem bucket |
| SummarySheet.ScreenNamesMarkAlike | streamlit_sonar_metrics.py:917 | spelling the last gate status "Not Computed" changes no marking |
| SummarySheet.ScreenAndWorkbookMarkAlike | streamlit_sonar_metrics.py:679-715 | the screen marks a count iff its grid cell lies in a highlight range and is positive |
| Styles.ApplyQualityGateStyles | streamlit_sonar_metrics.py:679-684 | one style per count, marked iff "Failed" and positive. It fails (TypeError) iff a "Failed" count is not a number |
| Styles.ApplyCoverageStyles | streamlit_sonar_metrics.py:687-694 | one style per count, marked iff the range is neither "> 80%" nor N/A and the count is a positive number |
| Styles.ApplyDuplicationStyles | streamlit_sonar_metrics.py:697-705 | one style per count, marked iff the range is neither "< 3%" nor N/A and the count is a positive number |
| Styles.ApplyRatingsStyles | streamlit_sonar_metrics.py:708-715 | one style per count, marked iff the rating is B–E and the count is a positive number |
| Styles.CoverageProblemBuckets | streamlit_sonar_metrics.py:937-946 | in screen order the first four coverage ranges are the marked ones |
| Styles.DuplicationProblemBuckets | streamlit_sonar_metrics.py:960-969 | in screen order the four ranges after "< 3%" and before N/A are the marked ones |
| Styles.Present | streamlit_sonar_metrics.py:662 | keeps exactly the checked columns the row has |
| Styles.CheckNaValues | streamlit_sonar_metrics.py:666-672 | the flag stays set iff no checked value is missing or a string other than N/A |
| Styles.HighlightNaRowsDataFrame | streamlit_sonar_metrics.py:649-676 | every cell of the row is highlighted iff a checked column exists and none clears the flag |
| Styles.NumbersKeepFlag | streamlit_sonar_metrics.py:667-672 | numbers do not clear the flag, so a row whose checked values are all numbers is highlighted |
| Report.ColumnValuesPermutation | streamlit_sonar_metrics.py:186-194 | permuting rows permutes every column |
| Report.FindColumnIndexOfHeader | streamlit_sonar_metrics.py:587-594 | `find_column_index` reads only the header row |
| Report.PaddedColumnData | streamlit_sonar_metrics.py:186 | padding keeps the column the counters read |
| Report.PermutedColumnData | streamlit_sonar_metrics.py:186-194 | a sheet whose data rows permute the padded data has the same column values, as a multiset |
| Report.SortedColumnData | streamlit_sonar_metrics.py:186-194 | sorting permutes every column below the header |
| Report.SortedSectionCounts | streamlit_sonar_metrics.py:625 | every block's counts on the sorted sheet equal the unsorted ones |
| Report.SortedMaxRow | streamlit_sonar_metrics.py:625 | sorting keeps `max_row` |
| Report.SortedEntries | streamlit_sonar_metrics.py:625 | sorting keeps the entries of the first n blocks |
| Report.SortedSummaryEntries | streamlit_sonar_metrics.py:625 | the summary dictionary of the sorted sheet is that of the unsorted one |
| Report.SortedSummaryGrid | streamlit_sonar_metrics.py:625 | so is the summary grid |
| Report.FormatSheet | streamlit_sonar_metrics.py:223-230 | of the four formatting steps only the column sizing changes modelled state; a sheet with no rows keeps its widths |
| Report.NewPopulatedSheet | streamlit_sonar_metrics.py:615-622 | a new sheet holding the header row and one unfilled row per project |
| Report.BuildMetricsSheet | streamlit_sonar_metrics.py:615-634 | the final metrics sheet holds the sorted rows. A data row is filled iff its metric cells are all "N/A", and the columns are sized to their text |
| Report.SortAndFormat | streamlit_sonar_metrics.py:625-634 | sort, format, N/A fill and the second sizing leave the sorted rows, the fills and the widths |
| Report.GenerateExcelFile | streamlit_sonar_metrics.py:611-637 | the saved workbook: the final metrics sheet and the summary grid of its rows, with all four ranges |
| Report.ScreenSummaryData | streamlit_sonar_metrics.py:888-902 | the screen's dictionary is the summary of the unsorted scratch sheet |
| Report.ScreenMatchesWorkbook | streamlit_sonar_metrics.py:888-1022 | the screen's dictionary equals the summary dictionary of the sorted metrics sheet; every grid count cell shows the screen's count; the screen marks a count iff its grid cell is ruled and positive |

## Left out

- HTTP: `make_request`, `fetch_projects`, `fetch_project_metrics`, `fetch_last_analysis_date` and `process_project` are network I/O. Their results are given as the input list of project records.
- Concurrency: the thread pool, its completion order, its per-future error reports and the progress bar are left out. The collected list of records is the input, as one list shared by the sheet and the screen.
- The Streamlit page, widgets, session state and markdown are left out because they are UI.
- Screen display of the metrics table is left out because it is UI: the `f"{x:.1f}"` formatting, the column reordering that fills absent columns with "N/A", and the sort by stripped, lower-cased name.
- openpyxl styling is left out because it is foreign-library state: borders, the table object, frozen panes, header alignment, grid lines, fonts and fills.
- Only which rows are filled and which ranges carry the "greater than 0" rule are modelled.
- The column-A width that `apply_summary_formatting` sets is not modelled. The `auto_adjust_column_width` call that follows overwrites it.
- `workbook.save` into an in-memory buffer and its error path are left out because they are serialisation I/O.
- Float numerics are parameters: `float()` parsing, `round(x, 1)` and the float `str`. NaN and infinities are not modelled; with them `int(float("inf"))` would raise an `OverflowError` that the conversion does not catch.
- `pd.isna` is not modelled separately from `None`. Cell values here are strings, integers, reals and `None`, and the NaN it would also catch is not modelled.
- Text.Upper, Text.Lower: case mapping covers ASCII letters only. Python also maps other letters, which can affect a non-ASCII project name in the sort key or in the N/A test.
- SummarySheet.WriteSummaryGrid: the cell-by-cell writes are modelled as appending each resulting row. The grid has the same cells; cell A5 is never written and reads empty.
- The global `ORG_NAME` is a parameter.
- A project name is a string in the model. `project.get("name")` can also be `None`, which gives the sort key "none" and an empty name cell; the model cannot express that case.
- A measure without a `"value"` key is not modelled. The source raises `KeyError` on it when it builds the metrics map (streamlit_sonar_metrics.py:161 and :804). `Measure.value` being `None` stands for a JSON null, not for a missing key.
- A project key is a string in the model. `project.get("key")` can also be `None` (streamlit_sonar_metrics.py:160 and :600), and the model cannot express that case.
- Records.ProgramKeysSplit: the key string is stated as the join of the eleven keys with commas rather than as the source's concatenated string literal.
- Text.IntToDecimal, Text.NatToDecimal: their contracts state only that the decimal text is not empty. Its exact digits matter only through the column widths, which are stated in terms of the same function.
