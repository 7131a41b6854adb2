/**
 * `add_summary_sheet_to_workbook`: the same counters as the summary dictionary,
 * laid out as a 13-row grid under bucket-name rows, with the four
 * "greater than 0" highlight ranges of `apply_conditional_formatting_summary`.
 */
module SummarySheet {
  import opened Wrappers
  import opened Cells
  import opened Records
  import opened Tally
  import opened Workbook
  import opened Styles
  import opened Summary

  /** The row of bucket names above a block: a first cell, then the names in columns B onward. */
  function NamesRow(first: Cell, dim: Dimension): seq<Cell> {
    [first] + HeaderCells(Displays(dim))
  }

  /** A section's row: its title, then its counters when its column exists. */
  function SectionRow(rows: seq<seq<Cell>>, s: Section): seq<Cell> {
    match SectionCounts(rows, s)
    case None => [Str(s.title)]
    case Some(m) => [Str(s.title)] + CountCells(s.dim, m)
  }

  /**
   * The grid the summary sheet ends with. Cell A5 is the one cell of a names row
   * the source never writes, so it stays empty where A3, A7 and A12 hold "".
   */
  function SummaryGrid(rows: seq<seq<Cell>>, orgName: string): seq<seq<Cell>> {
    [[Str("Application Name:"), Str(orgName)],
     [Str("Total Repos:"), IntV(MaxRowOf(rows) - 1)],
     NamesRow(Str(""), QualityGate),
     SectionRow(rows, Sections[0]),
     NamesRow(Blank, Coverage),
     SectionRow(rows, Sections[1]),
     NamesRow(Str(""), Rating),
     SectionRow(rows, Sections[2]),
     SectionRow(rows, Sections[3]),
     SectionRow(rows, Sections[4]),
     SectionRow(rows, Sections[5]),
     NamesRow(Str(""), Duplication),
     SectionRow(rows, Sections[6])]
  }

  /** The 1-based grid row of each section, and of the names row above it. */
  const SectionGridRows: seq<nat> := [4, 6, 8, 9, 10, 11, 13]
  const NamesGridRows: seq<nat> := [3, 5, 7, 7, 7, 7, 12]

  /** C4, B6:E6, C8:F11, C13:F13. */
  const SummaryRules: seq<CellRange> :=
    [CellRange(4, 3, 4, 3), CellRange(6, 2, 6, 5), CellRange(8, 3, 11, 6), CellRange(13, 3, 13, 6)]

  /** The names rows as the source spells them out. */
  lemma NamesRowsSpelledOut()
    ensures NamesRow(Str(""), QualityGate) == [Str(""), Str("Passed"), Str("Failed"), Str("Not computed")]
    ensures NamesRow(Blank, Coverage)
         == [Blank, Str("< 10%"), Str("10% - 30%"), Str("30% - 50%"), Str("50% - 80%"), Str("> 80%"), Str("N/A")]
    ensures NamesRow(Str(""), Rating) == [Str(""), Str("A"), Str("B"), Str("C"), Str("D"), Str("E"), Str("N/A")]
    ensures NamesRow(Str(""), Duplication)
         == [Str(""), Str("< 3%"), Str("3% - 5%"), Str("5% - 10%"), Str("10% - 20%"), Str("> 20%"), Str("N/A")]
  {
  }

  /** One `if ..._col_index is not None:` block of the summary sheet: the title, then the counters. */
  method SectionRowCells(sheet: Sheet, s: Section) returns (row: seq<Cell>)
    ensures row == SectionRow(sheet.rows, s)
  {
    row := [Str(s.title)];
    var col := FindColumnIndex(sheet.rows, s.header);
    if col.Some? {
      var counts := CalculateCounts(sheet, s.dim, col.value);
      row := row + CountCells(s.dim, counts);
    }
  }

  method ApplyConditionalFormattingSummary(sheet: Sheet)
    modifies sheet
    ensures sheet.rules == old(sheet.rules) + SummaryRules
    ensures sheet.rows == old(sheet.rows) && sheet.filled == old(sheet.filled)
    ensures sheet.title == old(sheet.title) && sheet.widths == old(sheet.widths)
  {
    sheet.AddRule(CellRange(4, 3, 4, 3));
    sheet.AddRule(CellRange(6, 2, 6, 5));
    sheet.AddRule(CellRange(8, 3, 11, 6));
    sheet.AddRule(CellRange(13, 3, 13, 6));
  }

  /** Appends one section's row: its title, then its counters when its column exists. */
  method WriteSectionRow(summary: Sheet, metricsSheet: Sheet, s: Section)
    requires summary.Valid() && summary != metricsSheet
    modifies summary
    ensures summary.Valid()
    ensures summary.rows == old(summary.rows) + [SectionRow(metricsSheet.rows, s)]
    ensures summary.title == old(summary.title) && summary.widths == old(summary.widths) && summary.rules == old(summary.rules)
  {
    var row := SectionRowCells(metricsSheet, s);
    summary.Append(row);
  }

  /** Rows 3 and 4: the quality gate names, then its counters. */
  method WriteQualityGateBlock(summary: Sheet, metricsSheet: Sheet)
    requires summary.Valid() && summary != metricsSheet
    modifies summary
    ensures summary.Valid()
    ensures summary.rows == old(summary.rows) + [NamesRow(Str(""), QualityGate), SectionRow(metricsSheet.rows, Sections[0])]
    ensures summary.title == old(summary.title) && summary.widths == old(summary.widths) && summary.rules == old(summary.rules)
  {
    NamesRowsSpelledOut();
    summary.Append([Str(""), Str("Passed"), Str("Failed"), Str("Not computed")]);
    WriteSectionRow(summary, metricsSheet, Sections[0]);
  }

  /** Rows 5 and 6: the coverage ranges, then their counters. */
  method WriteCoverageBlock(summary: Sheet, metricsSheet: Sheet)
    requires summary.Valid() && summary != metricsSheet
    modifies summary
    ensures summary.Valid()
    ensures summary.rows == old(summary.rows) + [NamesRow(Blank, Coverage), SectionRow(metricsSheet.rows, Sections[1])]
    ensures summary.title == old(summary.title) && summary.widths == old(summary.widths) && summary.rules == old(summary.rules)
  {
    NamesRowsSpelledOut();
    summary.Append([Blank, Str("< 10%"), Str("10% - 30%"), Str("30% - 50%"), Str("50% - 80%"), Str("> 80%"), Str("N/A")]);
    WriteSectionRow(summary, metricsSheet, Sections[1]);
  }

  /** Rows 7 to 11: the rating letters, then the four rating rows. */
  method WriteRatingBlock(summary: Sheet, metricsSheet: Sheet)
    requires summary.Valid() && summary != metricsSheet
    modifies summary
    ensures summary.Valid()
    ensures summary.rows == old(summary.rows) + [NamesRow(Str(""), Rating),
              SectionRow(metricsSheet.rows, Sections[2]), SectionRow(metricsSheet.rows, Sections[3]),
              SectionRow(metricsSheet.rows, Sections[4]), SectionRow(metricsSheet.rows, Sections[5])]
    ensures summary.title == old(summary.title) && summary.widths == old(summary.widths) && summary.rules == old(summary.rules)
  {
    NamesRowsSpelledOut();
    summary.Append([Str(""), Str("A"), Str("B"), Str("C"), Str("D"), Str("E"), Str("N/A")]);
    WriteSectionRow(summary, metricsSheet, Sections[2]);
    WriteSectionRow(summary, metricsSheet, Sections[3]);
    WriteSectionRow(summary, metricsSheet, Sections[4]);
    WriteSectionRow(summary, metricsSheet, Sections[5]);
  }

  /** Rows 12 and 13: the duplication ranges, then their counters. */
  method WriteDuplicationBlock(summary: Sheet, metricsSheet: Sheet)
    requires summary.Valid() && summary != metricsSheet
    modifies summary
    ensures summary.Valid()
    ensures summary.rows == old(summary.rows) + [NamesRow(Str(""), Duplication), SectionRow(metricsSheet.rows, Sections[6])]
    ensures summary.title == old(summary.title) && summary.widths == old(summary.widths) && summary.rules == old(summary.rules)
  {
    NamesRowsSpelledOut();
    summary.Append([Str(""), Str("< 3%"), Str("3% - 5%"), Str("5% - 10%"), Str("10% - 20%"), Str("> 20%"), Str("N/A")]);
    WriteSectionRow(summary, metricsSheet, Sections[6]);
  }

  /** The grid as the blocks the sheet is written in. */
  lemma SummaryGridBlocks(rows: seq<seq<Cell>>, orgName: string)
    ensures SummaryGrid(rows, orgName)
         == [[Str("Application Name:"), Str(orgName)], [Str("Total Repos:"), IntV(MaxRowOf(rows) - 1)]]
          + [NamesRow(Str(""), QualityGate), SectionRow(rows, Sections[0])]
          + [NamesRow(Blank, Coverage), SectionRow(rows, Sections[1])]
          + [NamesRow(Str(""), Rating), SectionRow(rows, Sections[2]), SectionRow(rows, Sections[3]),
             SectionRow(rows, Sections[4]), SectionRow(rows, Sections[5])]
          + [NamesRow(Str(""), Duplication), SectionRow(rows, Sections[6])]
  {
  }

  /** The cell writes of `add_summary_sheet_to_workbook`, block by block, into the new empty sheet. */
  method WriteSummaryGrid(summary: Sheet, metricsSheet: Sheet, orgName: string)
    requires summary.Valid() && summary.rows == [] && summary != metricsSheet
    modifies summary
    ensures summary.Valid()
    ensures summary.rows == SummaryGrid(metricsSheet.rows, orgName)
    ensures summary.title == old(summary.title) && summary.widths == old(summary.widths) && summary.rules == old(summary.rules)
  {
    ghost var rows := metricsSheet.rows;
    summary.Append([Str("Application Name:"), Str(orgName)]);
    var totalRepos := metricsSheet.MaxRow() - 1;
    summary.Append([Str("Total Repos:"), IntV(totalRepos)]);
    ghost var heading := [[Str("Application Name:"), Str(orgName)], [Str("Total Repos:"), IntV(MaxRowOf(rows) - 1)]];
    assert summary.rows == heading;
    WriteQualityGateBlock(summary, metricsSheet);
    WriteCoverageBlock(summary, metricsSheet);
    WriteRatingBlock(summary, metricsSheet);
    WriteDuplicationBlock(summary, metricsSheet);
    SummaryGridBlocks(rows, orgName);
  }

  /** The summary sheet: the grid, the four highlight ranges, and every column sized to its text. */
  method AddSummarySheetToWorkbook(metricsSheet: Sheet, orgName: string, floatRepr: real -> string)
    returns (summary: Sheet)
    ensures fresh(summary) && summary.Valid()
    ensures summary.title == "Summary"
    ensures summary.rows == SummaryGrid(metricsSheet.rows, orgName)
    ensures summary.rules == SummaryRules
    ensures summary.widths == ColumnWidths(summary.rows, MaxColumnOf(summary.rows), floatRepr)
  {
    summary := new Sheet("Summary");
    WriteSummaryGrid(summary, metricsSheet, orgName);
    ApplyConditionalFormattingSummary(summary);
    AutoAdjustColumnWidth(summary, floatRepr);
  }

  // ----- the grid shows the dictionary, and the ranges sit on the problem buckets -----

  /** Row `SectionGridRows[k]` holds section `k`, under the names row `NamesGridRows[k]`. */
  lemma GridRowsOfSections(rows: seq<seq<Cell>>, orgName: string, k: nat)
    requires k < |Sections|
    ensures |SummaryGrid(rows, orgName)| == 13
    ensures 1 <= NamesGridRows[k] < SectionGridRows[k] <= 13
    ensures SummaryGrid(rows, orgName)[SectionGridRows[k] - 1] == SectionRow(rows, Sections[k])
    ensures SummaryGrid(rows, orgName)[NamesGridRows[k] - 1] == NamesRow(if k == 1 then Blank else Str(""), Sections[k].dim)
  {
    var grid := SummaryGrid(rows, orgName);
    if k == 0 {
      assert grid[3] == SectionRow(rows, Sections[0]);
    } else if k == 1 {
      assert grid[5] == SectionRow(rows, Sections[1]);
    } else if k == 2 {
      assert grid[7] == SectionRow(rows, Sections[2]);
    } else if k == 3 {
      assert grid[8] == SectionRow(rows, Sections[3]);
    } else if k == 4 {
      assert grid[9] == SectionRow(rows, Sections[4]);
    } else if k == 5 {
      assert grid[10] == SectionRow(rows, Sections[5]);
    } else {
      assert grid[12] == SectionRow(rows, Sections[6]);
    }
  }

  /** Column `i + 2` of a section's row holds bucket `i`'s counter, or nothing when the column is missing. */
  lemma SectionRowAt(rows: seq<seq<Cell>>, s: Section, i: nat)
    requires i < |Displays(s.dim)|
    ensures CellAt(SectionRow(rows, s), 0) == Str(s.title)
    ensures CellAt(SectionRow(rows, s), i + 1) == SectionValue(rows, s, i).GetOr(Blank)
  {
  }

  /** The sheet and the dictionary agree on the heading: B1 holds the organisation and B2 `total_repos`. */
  lemma GridHeadingMatchesSummaryData(rows: seq<seq<Cell>>, orgName: string)
    ensures Get(SummaryEntries(rows, orgName), "Application Name") == Some(ValueAt(SummaryGrid(rows, orgName), 1, 2))
    ensures Get(SummaryEntries(rows, orgName), "Total Repos") == Some(ValueAt(SummaryGrid(rows, orgName), 2, 2))
  {
    SummaryLookups(rows, orgName);
  }

  /**
   * ... and on every block: under the name of each bucket sits the value the
   * dictionary holds for that bucket's key, a blank where it holds none.
   */
  lemma GridMatchesSummaryData(rows: seq<seq<Cell>>, orgName: string, k: nat, i: nat)
    requires k < |Sections| && i < |Displays(Sections[k].dim)|
    ensures ValueAt(SummaryGrid(rows, orgName), NamesGridRows[k], i + 2) == Str(Displays(Sections[k].dim)[i])
    ensures ValueAt(SummaryGrid(rows, orgName), SectionGridRows[k], 1) == Str(Sections[k].title)
    ensures ValueAt(SummaryGrid(rows, orgName), SectionGridRows[k], i + 2)
         == Get(SummaryEntries(rows, orgName), KeyOf(Sections[k], i)).GetOr(Blank)
  {
    GridRowsOfSections(rows, orgName, k);
    SectionRowAt(rows, Sections[k], i);
    SummaryLookups(rows, orgName);
  }

  /** Whether bucket `name` of a block is one the screen marks when its count is positive. */
  predicate ProblemBucket(dim: Dimension, name: string) {
    match dim
    case QualityGate => GateProblem(name)
    case Coverage => CoverageProblem(name)
    case Duplication => DuplicationProblem(name)
    case Rating => RatingProblem(name)
  }

  /** Cell (r, c), 1-based, is where the grid shows the counter of a problem bucket. */
  predicate ProblemCell(r: nat, c: nat) {
    exists k :: 0 <= k < |Sections| && SectionGridRows[k] == r &&
      2 <= c <= |Displays(Sections[k].dim)| + 1 && ProblemBucket(Sections[k].dim, Displays(Sections[k].dim)[c - 2])
  }

  /** Cell (r, c) lies in one of the ranges. */
  predicate InSomeRange(ranges: seq<CellRange>, r: nat, c: nat) {
    exists j :: 0 <= j < |ranges| && ranges[j].Contains(r, c)
  }

  /** The problem buckets of each section, as the columns their counters sit in. */
  lemma ProblemColumns(k: nat, c: nat)
    requires k < |Sections|
    ensures (2 <= c <= |Displays(Sections[k].dim)| + 1 && ProblemBucket(Sections[k].dim, Displays(Sections[k].dim)[c - 2]))
        <==> (if k == 1 then 2 <= c <= 5 else if k == 0 then c == 3 else 3 <= c <= 6)
  {
    CoverageProblemBuckets();
    DuplicationProblemBuckets();
  }

  /** The four highlight ranges cover exactly the cells holding the counters of problem buckets. */
  lemma RulesCoverProblemCells(r: nat, c: nat)
    ensures InSomeRange(SummaryRules, r, c) <==> ProblemCell(r, c)
  {
    var k := if r == 4 then 0 else if r == 6 then 1 else if 8 <= r <= 11 then r - 6 else 6;
    if r in SectionGridRows {
      assert SectionGridRows[k] == r;
      assert forall k' :: 0 <= k' < |Sections| && SectionGridRows[k'] == r ==> k' == k;
      ProblemColumns(k, c);
      var j := if r == 4 then 0 else if r == 6 then 1 else if r == 13 then 3 else 2;
      assert InSomeRange(SummaryRules, r, c) <==> SummaryRules[j].Contains(r, c);
    } else {
      assert forall k' :: 0 <= k' < |Sections| ==> SectionGridRows[k'] != r;
      assert forall j :: 0 <= j < |SummaryRules| ==> !SummaryRules[j].Contains(r, c);
    }
  }

  /** The row names of the screen's count tables: the gate spells its last status "Not Computed". */
  function ScreenNames(dim: Dimension): (r: seq<string>)
    ensures |r| == |Displays(dim)|
  {
    if dim == QualityGate then ["Passed", "Failed", "Not Computed"] else Displays(dim)
  }

  /** The count column the screen builds for section `k`: `summary_data.get(key, 0)` per bucket. */
  function ScreenCountColumn(d: Dict, k: nat): (col: CountColumn)
    requires k < |Sections|
    ensures |col| == |Displays(Sections[k].dim)|
  {
    var names := ScreenNames(Sections[k].dim);
    seq(|names|, i requires 0 <= i < |names| => (names[i], Get(d, KeyOf(Sections[k], i)).GetOr(IntV(0))))
  }

  /** The cell of bucket `i` of section `k` is a problem cell exactly when the bucket is a problem bucket. */
  lemma ProblemCellOfSection(k: nat, i: nat)
    requires k < |Sections| && i < |Displays(Sections[k].dim)|
    ensures ProblemCell(SectionGridRows[k], i + 2) <==> ProblemBucket(Sections[k].dim, Displays(Sections[k].dim)[i])
  {
    assert forall k' :: 0 <= k' < |Sections| && SectionGridRows[k'] == SectionGridRows[k] ==> k' == k;
  }

  /** The screen's spelling of the gate's last status changes no marking. */
  lemma ScreenNamesMarkAlike(dim: Dimension, i: nat)
    requires i < |Displays(dim)|
    ensures ProblemBucket(dim, ScreenNames(dim)[i]) <==> ProblemBucket(dim, Displays(dim)[i])
  {
  }

  /**
   * The screen and the workbook mark the same counters: the screen's style
   * function marks bucket `i` of section `k` exactly when the workbook cell
   * holding that counter lies in a highlight range and holds a positive number.
   */
  lemma ScreenAndWorkbookMarkAlike(rows: seq<seq<Cell>>, orgName: string, k: nat, i: nat)
    requires k < |Sections| && i < |Displays(Sections[k].dim)|
    ensures (ProblemBucket(Sections[k].dim, ScreenCountColumn(SummaryEntries(rows, orgName), k)[i].0) &&
             IsPositive(ScreenCountColumn(SummaryEntries(rows, orgName), k)[i].1))
        <==> (InSomeRange(SummaryRules, SectionGridRows[k], i + 2) &&
              IsPositive(ValueAt(SummaryGrid(rows, orgName), SectionGridRows[k], i + 2)))
  {
    var dim := Sections[k].dim;
    var entry := ScreenCountColumn(SummaryEntries(rows, orgName), k)[i];
    var found := Get(SummaryEntries(rows, orgName), KeyOf(Sections[k], i));
    assert entry == (ScreenNames(dim)[i], found.GetOr(IntV(0)));
    GridMatchesSummaryData(rows, orgName, k, i);
    assert IsPositive(found.GetOr(IntV(0))) <==> IsPositive(found.GetOr(Blank));
    RulesCoverProblemCells(SectionGridRows[k], i + 2);
    ProblemCellOfSection(k, i);
    ScreenNamesMarkAlike(dim, i);
  }
}
