/**
 * The two places the pieces are put together: `generate_excel_file`, which
 * builds the "Sonar Metrics" sheet and the "Summary" sheet of the workbook,
 * and the screen's aggregated summary, which is computed from a scratch sheet
 * that is populated but never sorted. The lemmas at the end show that the
 * sort does not change any count, so the screen and the workbook agree.
 */
module Report {
  import opened Wrappers
  import opened Text
  import opened Cells
  import opened Records
  import opened Multisets
  import opened Tally
  import opened Workbook
  import opened Counters
  import opened Summary
  import opened SummarySheet

  // ----- the order of the data rows does not change the summary -----

  lemma ColumnValuesConcat(a: seq<seq<Cell>>, b: seq<seq<Cell>>, c: nat)
    ensures ColumnValues(a + b, c) == ColumnValues(a, c) + ColumnValues(b, c)
  {
    assert forall i :: 0 <= i < |a + b| ==> (a + b)[i] == if i < |a| then a[i] else b[i - |a|];
  }

  /** Permuting the rows permutes the values of every column. */
  lemma {:induction false} ColumnValuesPermutation(a: seq<seq<Cell>>, b: seq<seq<Cell>>, c: nat)
    requires multiset(a) == multiset(b)
    ensures multiset(ColumnValues(a, c)) == multiset(ColumnValues(b, c))
    decreases |a|
  {
    if a == [] {
      assert |b| == |multiset(b)| == 0;
    } else {
      var front := a[..|a| - 1];
      var j := RemoveLast(a, b);
      var x := b[j];
      var rest := b[..j] + b[j + 1..];
      ColumnValuesPermutation(front, rest, c);
      ColumnValuesConcat(front, [x], c);
      ColumnValuesConcat(b[..j] + [x], b[j + 1..], c);
      ColumnValuesConcat(b[..j], [x], c);
      ColumnValuesConcat(b[..j], b[j + 1..], c);
    }
  }

  /** `find_column_index` reads only the header row. */
  lemma FindColumnIndexOfHeader(a: seq<seq<Cell>>, b: seq<seq<Cell>>, name: string)
    requires HeaderOf(a) == HeaderOf(b)
    ensures FindColumnIndex(a, name) == FindColumnIndex(b, name)
  {
  }

  /** Padding a row changes none of its cells. */
  lemma PaddedColumnData(rows: seq<seq<Cell>>, col: nat)
    requires col >= 1
    ensures ColumnData(rows, col) == ColumnValues(PaddedData(rows), col - 1)
  {
  }

  /** Permuting the padded data rows of a sheet permutes the values of every column below its header. */
  lemma PermutedColumnData(s: seq<seq<Cell>>, rows: seq<seq<Cell>>, col: nat)
    requires s != [] && col >= 1 && multiset(s[1..]) == multiset(PaddedData(rows))
    ensures multiset(ColumnData(s, col)) == multiset(ColumnData(rows, col))
  {
    calc {
      multiset(ColumnData(s, col));
      { assert DataRows(s) == s[1..]; }
      multiset(ColumnValues(s[1..], col - 1));
      { ColumnValuesPermutation(s[1..], PaddedData(rows), col - 1); }
      multiset(ColumnValues(PaddedData(rows), col - 1));
      { PaddedColumnData(rows, col); }
      multiset(ColumnData(rows, col));
    }
  }

  /** Sorting permutes the values of every column below the header. */
  lemma SortedColumnData(rows: seq<seq<Cell>>, floatRepr: real -> string, col: nat)
    requires rows != [] && col >= 1
    ensures multiset(ColumnData(SortedRows(rows, floatRepr), col)) == multiset(ColumnData(rows, col))
  {
    SortedRowsPermute(rows, floatRepr);
    PermutedColumnData(SortedRows(rows, floatRepr), rows, col);
  }

  /** Every counter of the sheet `sort_and_clear_sheet` leaves behind equals the one before the sort. */
  lemma SortedSectionCounts(rows: seq<seq<Cell>>, floatRepr: real -> string, s: Section)
    ensures SectionCounts(SortedRows(rows, floatRepr), s) == SectionCounts(rows, s)
  {
    if rows != [] {
      SortedRowsPermute(rows, floatRepr);
      FindColumnIndexOfHeader(SortedRows(rows, floatRepr), rows, s.header);
      match FindColumnIndex(rows, s.header)
      case None =>
      case Some(col) =>
        SortedColumnData(rows, floatRepr, col);
        TallyMapPermutation(s.dim, ColumnData(SortedRows(rows, floatRepr), col), ColumnData(rows, col));
    }
  }

  lemma SortedMaxRow(rows: seq<seq<Cell>>, floatRepr: real -> string)
    ensures MaxRowOf(SortedRows(rows, floatRepr)) == MaxRowOf(rows)
  {
    if rows != [] {
      SortedRowsPermute(rows, floatRepr);
    }
  }

  lemma {:induction false} SortedEntries(rows: seq<seq<Cell>>, floatRepr: real -> string, n: nat)
    requires n <= |Sections|
    ensures EntriesOf(SortedRows(rows, floatRepr), Sections, n) == EntriesOf(rows, Sections, n)
  {
    if n > 0 {
      SortedEntries(rows, floatRepr, n - 1);
      SortedSectionCounts(rows, floatRepr, Sections[n - 1]);
    }
  }

  /** The summary dictionary of the sorted sheet is the summary dictionary of the unsorted one. */
  lemma SortedSummaryEntries(rows: seq<seq<Cell>>, orgName: string, floatRepr: real -> string)
    ensures SummaryEntries(SortedRows(rows, floatRepr), orgName) == SummaryEntries(rows, orgName)
  {
    SortedMaxRow(rows, floatRepr);
    SortedEntries(rows, floatRepr, |Sections|);
  }

  /** ... and so is the summary grid. */
  lemma SortedSummaryGrid(rows: seq<seq<Cell>>, orgName: string, floatRepr: real -> string)
    ensures SummaryGrid(SortedRows(rows, floatRepr), orgName) == SummaryGrid(rows, orgName)
  {
    SortedMaxRow(rows, floatRepr);
    forall k | 0 <= k < |Sections|
      ensures SectionRow(SortedRows(rows, floatRepr), Sections[k]) == SectionRow(rows, Sections[k])
    {
      SortedSectionCounts(rows, floatRepr, Sections[k]);
    }
  }

  // ----- generate_excel_file -----

  /** `format_sheet`: of the table, the frozen pane, the column sizing and the header alignment, only the sizing changes modelled state. */
  method FormatSheet(sheet: Sheet, floatRepr: real -> string)
    modifies sheet
    ensures sheet.widths == old(sheet.widths) + ColumnWidths(sheet.rows, SizedColumns(sheet.rows), floatRepr)
    ensures sheet.rows == old(sheet.rows) && sheet.filled == old(sheet.filled)
    ensures sheet.title == old(sheet.title) && sheet.rules == old(sheet.rules)
  {
    AutoAdjustColumnWidth(sheet, floatRepr);
  }

  /** The rows of the "Sonar Metrics" sheet: the populated sheet, sorted. */
  function MetricsRows(projects: seq<Project>, metricKeys: string,
                       parse: string -> Option<real>, round: (real, int) -> real,
                       floatRepr: real -> string): seq<seq<Cell>> {
    SortedRows(FilledRows(projects, Split(metricKeys, ','), parse, round), floatRepr)
  }

  lemma MergeTwice(w: map<nat, nat>)
    ensures map[] + w + w == w
  {
  }

  /** A new sheet with the `create_headers` row appended and then populated: the first steps of both callers. */
  method NewPopulatedSheet(title: string, projects: seq<Project>, metricKeys: string,
                           parse: string -> Option<real>, round: (real, int) -> real)
    returns (sheet: Sheet)
    ensures fresh(sheet) && sheet.Valid() && sheet.title == title
    ensures sheet.rows == FilledRows(projects, Split(metricKeys, ','), parse, round)
    ensures sheet.filled == seq(|projects| + 1, _ => false)
    ensures sheet.widths == map[] && sheet.rules == []
  {
    sheet := new Sheet(title);
    sheet.Append(HeaderCells(CreateHeaders(metricKeys)));
    PopulateSheetWithData(sheet, projects, metricKeys, parse, round);
    assert [false] + seq(|projects|, _ => false) == seq(|projects| + 1, _ => false);
  }

  /**
   * The "Sonar Metrics" sheet as `generate_excel_file` leaves it: the sorted
   * rows, a data row filled iff its metric cells are all "N/A", and the
   * columns sized to their content.
   */
  method BuildMetricsSheet(projects: seq<Project>, metricKeys: string,
                           parse: string -> Option<real>, round: (real, int) -> real,
                           floatRepr: real -> string)
    returns (metrics: Sheet)
    ensures fresh(metrics) && metrics.Valid() && metrics.title == "Sonar Metrics"
    ensures metrics.rows == MetricsRows(projects, metricKeys, parse, round, floatRepr)
    ensures |metrics.filled| == |projects| + 1
    ensures forall i :: 0 <= i < |metrics.filled| ==>
              metrics.filled[i] == (i >= 1 && ExcelNaRow(metrics.rows[i], MaxColumnOf(metrics.rows)))
    ensures metrics.widths == ColumnWidths(metrics.rows, MaxColumnOf(metrics.rows), floatRepr)
    ensures metrics.rules == []
  {
    metrics := NewPopulatedSheet("Sonar Metrics", projects, metricKeys, parse, round);
    SortAndFormat(metrics, floatRepr);
  }

  /**
   * The steps of `generate_excel_file` after populating: sort, format, flag
   * the all-"N/A" rows and size the columns once more.
   */
  method SortAndFormat(metrics: Sheet, floatRepr: real -> string)
    requires metrics.Valid() && metrics.rows != []
    requires forall i :: 0 <= i < |metrics.filled| ==> !metrics.filled[i]
    requires metrics.widths == map[]
    modifies metrics
    ensures metrics.Valid()
    ensures metrics.rows == SortedRows(old(metrics.rows), floatRepr)
    ensures |metrics.filled| == |old(metrics.rows)|
    ensures forall i :: 0 <= i < |metrics.filled| ==>
              metrics.filled[i] == (i >= 1 && ExcelNaRow(metrics.rows[i], MaxColumnOf(metrics.rows)))
    ensures metrics.widths == ColumnWidths(metrics.rows, MaxColumnOf(metrics.rows), floatRepr)
    ensures metrics.title == old(metrics.title) && metrics.rules == old(metrics.rules)
  {
    ghost var populated := metrics.rows;
    ghost var filled0 := metrics.filled;
    SortAndClearSheet(metrics, floatRepr);
    SortedRowsShape(populated, floatRepr);
    assert !metrics.filled[0] by {
      assert !filled0[0];
    }
    assert SizedColumns(metrics.rows) == MaxColumnOf(metrics.rows);
    ghost var w := ColumnWidths(metrics.rows, MaxColumnOf(metrics.rows), floatRepr);
    FormatSheet(metrics, floatRepr);
    HighlightNaRowsExcel(metrics);
    AutoAdjustColumnWidth(metrics, floatRepr);
    MergeTwice(w);
  }

  /** The two sheets of the workbook `generate_excel_file` saves: the metrics sheet and the grid of counts of its rows. */
  method GenerateExcelFile(projects: seq<Project>, metricKeys: string, orgName: string,
                           parse: string -> Option<real>, round: (real, int) -> real,
                           floatRepr: real -> string)
    returns (metrics: Sheet, summary: Sheet)
    ensures fresh(metrics) && fresh(summary) && metrics != summary
    ensures metrics.Valid() && summary.Valid()
    ensures metrics.title == "Sonar Metrics" && summary.title == "Summary"
    ensures metrics.rows == MetricsRows(projects, metricKeys, parse, round, floatRepr)
    ensures |metrics.filled| == |projects| + 1
    ensures forall i :: 0 <= i < |metrics.filled| ==>
              metrics.filled[i] == (i >= 1 && ExcelNaRow(metrics.rows[i], MaxColumnOf(metrics.rows)))
    ensures metrics.widths == ColumnWidths(metrics.rows, MaxColumnOf(metrics.rows), floatRepr)
    ensures metrics.rules == []
    ensures summary.rows == SummaryGrid(metrics.rows, orgName)
    ensures summary.rules == SummaryRules
    ensures summary.widths == ColumnWidths(summary.rows, MaxColumnOf(summary.rows), floatRepr)
  {
    metrics := BuildMetricsSheet(projects, metricKeys, parse, round, floatRepr);
    summary := AddSummarySheetToWorkbook(metrics, orgName, floatRepr);
  }

  // ----- the screen's aggregated summary -----

  /** The scratch sheet "Temp Sonar Metrics": headers and one row per project, not sorted. */
  method ScreenSummaryData(projects: seq<Project>, metricKeys: string, orgName: string,
                           parse: string -> Option<real>, round: (real, int) -> real)
    returns (d: Dict)
    ensures d == SummaryEntries(FilledRows(projects, Split(metricKeys, ','), parse, round), orgName)
  {
    var temp := NewPopulatedSheet("Temp Sonar Metrics", projects, metricKeys, parse, round);
    d := GenerateSummaryData(temp, orgName);
  }

  /**
   * The screen summary and the workbook's Summary sheet show the same data:
   * the dictionary the screen reads is the one of the sorted metrics sheet,
   * every count cell of the grid holds the screen's count, and a count is
   * highlighted on screen iff its grid cell lies in a rule range and is positive.
   */
  lemma ScreenMatchesWorkbook(projects: seq<Project>, metricKeys: string, orgName: string,
                              parse: string -> Option<real>, round: (real, int) -> real,
                              floatRepr: real -> string, k: nat, i: nat)
    requires k < |Sections| && i < |Displays(Sections[k].dim)|
    ensures SummaryEntries(FilledRows(projects, Split(metricKeys, ','), parse, round), orgName)
            == SummaryEntries(MetricsRows(projects, metricKeys, parse, round, floatRepr), orgName)
    ensures Get(SummaryEntries(FilledRows(projects, Split(metricKeys, ','), parse, round), orgName),
                KeyOf(Sections[k], i)).GetOr(Blank)
            == ValueAt(SummaryGrid(MetricsRows(projects, metricKeys, parse, round, floatRepr), orgName),
                       SectionGridRows[k], i + 2)
    ensures (ProblemBucket(Sections[k].dim,
                           ScreenCountColumn(SummaryEntries(FilledRows(projects, Split(metricKeys, ','), parse, round), orgName), k)[i].0) &&
             IsPositive(ScreenCountColumn(SummaryEntries(FilledRows(projects, Split(metricKeys, ','), parse, round), orgName), k)[i].1))
        <==> (InSomeRange(SummaryRules, SectionGridRows[k], i + 2) &&
              IsPositive(ValueAt(SummaryGrid(MetricsRows(projects, metricKeys, parse, round, floatRepr), orgName),
                                 SectionGridRows[k], i + 2)))
  {
    var rows := FilledRows(projects, Split(metricKeys, ','), parse, round);
    SortedSummaryEntries(rows, orgName, floatRepr);
    SortedSummaryGrid(rows, orgName, floatRepr);
    GridMatchesSummaryData(rows, orgName, k, i);
    ScreenAndWorkbookMarkAlike(rows, orgName, k, i);
  }
}
