/**
 * The openpyxl worksheet the report writes into, reduced to what the report
 * code reads back: the cell values row by row, which rows carry the
 * "all N/A" fill, the column widths and the conditional-format ranges.
 * The report's sheet-level operations take a sheet and update it in place.
 */
module Workbook {
  import opened Wrappers
  import opened Text
  import opened Cells
  import opened Records
  import opened StableSort
  import opened Tally

  /** A rectangular block of cells, 1-based and inclusive on both ends, such as "C8:F11". */
  datatype CellRange = CellRange(firstRow: nat, firstCol: nat, lastRow: nat, lastCol: nat) {
    predicate Contains(r: nat, c: nat) {
      firstRow <= r <= lastRow && firstCol <= c <= lastCol
    }
  }

  /** `sheet.max_row`: the last used row, and 1 on an empty sheet. */
  function MaxRowOf(rows: seq<seq<Cell>>): nat {
    if |rows| == 0 then 1 else |rows|
  }

  /** The length of the longest row. */
  function MaxWidth(rows: seq<seq<Cell>>): (w: nat)
    ensures forall i :: 0 <= i < |rows| ==> |rows[i]| <= w
    ensures w == 0 || exists i :: 0 <= i < |rows| && |rows[i]| == w
    decreases |rows|
  {
    if rows == [] then 0
    else
      var w := MaxWidth(rows[..|rows| - 1]);
      assert forall i :: 0 <= i < |rows| - 1 ==> rows[..|rows| - 1][i] == rows[i];
      if |rows[|rows| - 1]| > w then |rows[|rows| - 1]| else w
  }

  /** `sheet.max_column`: the last used column, and 1 on an empty sheet. */
  function MaxColumnOf(rows: seq<seq<Cell>>): nat {
    if MaxWidth(rows) == 0 then 1 else MaxWidth(rows)
  }

  /** The rows `iter_rows(min_row=2, max_row=sheet.max_row)` visits: all but the header. */
  function DataRows(rows: seq<seq<Cell>>): seq<seq<Cell>> {
    if |rows| <= 1 then [] else rows[1..]
  }

  /** Column `c` (0-based) of each row. */
  function ColumnValues(rows: seq<seq<Cell>>, c: nat): (vals: seq<Cell>)
    ensures |vals| == |rows| && forall i :: 0 <= i < |rows| ==> vals[i] == CellAt(rows[i], c)
  {
    seq(|rows|, i requires 0 <= i < |rows| => CellAt(rows[i], c))
  }

  /** `sheet.cell(row=r, column=c).value`, 1-based: empty outside the written rows. */
  function ValueAt(rows: seq<seq<Cell>>, r: nat, c: nat): Cell {
    if 1 <= r <= |rows| && 1 <= c then CellAt(rows[r - 1], c - 1) else Blank
  }

  /** The header row, or no cells on an empty sheet. */
  function HeaderOf(rows: seq<seq<Cell>>): seq<Cell> {
    if rows == [] then [] else rows[0]
  }

  /** Header strings as the cells `sheet.append(headers)` writes. */
  function HeaderCells(h: seq<string>): (r: seq<Cell>)
    ensures |r| == |h| && forall i :: 0 <= i < |h| ==> r[i] == Str(h[i])
  {
    seq(|h|, i requires 0 <= i < |h| => Str(h[i]))
  }

  class Sheet {
    var title: string
    var rows: seq<seq<Cell>>
    /** `filled[i]`: row i + 1 carries the light-red "all N/A" fill. */
    var filled: seq<bool>
    /** Column widths by 1-based column number. */
    var widths: map<nat, nat>
    /** Ranges carrying the "greater than 0" conditional-format rule. */
    var rules: seq<CellRange>

    ghost predicate Valid()
      reads this
    {
      |filled| == |rows|
    }

    /** `workbook.create_sheet(title=...)`: an empty sheet. */
    constructor (title: string)
      ensures Valid()
      ensures this.title == title && rows == [] && filled == [] && widths == map[] && rules == []
    {
      this.title := title;
      rows := [];
      filled := [];
      widths := map[];
      rules := [];
    }

    function MaxRow(): nat
      reads this
    {
      MaxRowOf(rows)
    }

    function MaxColumn(): nat
      reads this
    {
      MaxColumnOf(rows)
    }

    /** `sheet.append(row)`: a new unfilled row after the last one. */
    method Append(row: seq<Cell>)
      requires Valid()
      modifies this
      ensures Valid()
      ensures rows == old(rows) + [row] && filled == old(filled) + [false]
      ensures title == old(title) && widths == old(widths) && rules == old(rules)
    {
      rows := rows + [row];
      filled := filled + [false];
    }

    /** `sheet.delete_rows(idx)`: row `idx` (1-based) goes, with its fill, and the rows below move up. */
    method DeleteRow(idx: nat)
      requires Valid()
      modifies this
      ensures Valid()
      ensures 1 <= idx <= |old(rows)| ==>
                rows == old(rows[..idx - 1] + rows[idx..]) && filled == old(filled[..idx - 1] + filled[idx..])
      ensures !(1 <= idx <= |old(rows)|) ==> rows == old(rows) && filled == old(filled)
      ensures title == old(title) && widths == old(widths) && rules == old(rules)
    {
      if 1 <= idx <= |rows| {
        rows := rows[..idx - 1] + rows[idx..];
        filled := filled[..idx - 1] + filled[idx..];
      }
    }

    /** Gives every cell of row `r` (1-based) the fill. */
    method FillRow(r: nat)
      requires Valid() && 1 <= r <= |rows|
      modifies this
      ensures Valid()
      ensures filled == old(filled)[r - 1 := true]
      ensures rows == old(rows) && title == old(title) && widths == old(widths) && rules == old(rules)
    {
      filled := filled[r - 1 := true];
    }

    /** `sheet.column_dimensions[letter].width = width`. */
    method SetWidth(c: nat, width: nat)
      modifies this
      ensures widths == old(widths)[c := width]
      ensures rows == old(rows) && filled == old(filled) && title == old(title) && rules == old(rules)
    {
      widths := widths[c := width];
    }

    /** `sheet.conditional_formatting.add(range, rule)`. */
    method AddRule(range: CellRange)
      modifies this
      ensures rules == old(rules) + [range]
      ensures rows == old(rows) && filled == old(filled) && title == old(title) && widths == old(widths)
    {
      rules := rules + [range];
    }
  }

  // ----- populate_sheet_with_data -----

  /** The rows `populate_sheet_with_data` appends: one per project, in input order. */
  function DetailRows(projects: seq<Project>, keys: seq<string>,
                      parse: string -> Option<real>, round: (real, int) -> real): (rs: seq<seq<Cell>>)
    ensures |rs| == |projects|
    ensures forall i :: 0 <= i < |projects| ==> rs[i] == DetailRow(projects[i], keys, parse, round)
  {
    seq(|projects|, i requires 0 <= i < |projects| => DetailRow(projects[i], keys, parse, round))
  }

  method PopulateSheetWithData(sheet: Sheet, projects: seq<Project>, metricKeys: string,
                               parse: string -> Option<real>, round: (real, int) -> real)
    requires sheet.Valid()
    modifies sheet
    ensures sheet.Valid()
    ensures sheet.rows == old(sheet.rows) + DetailRows(projects, Split(metricKeys, ','), parse, round)
    ensures sheet.filled == old(sheet.filled) + seq(|projects|, _ => false)
    ensures sheet.title == old(sheet.title) && sheet.widths == old(sheet.widths) && sheet.rules == old(sheet.rules)
  {
    var keys := Split(metricKeys, ',');
    ghost var rows0 := sheet.rows;
    var i := 0;
    while i < |projects|
      invariant 0 <= i <= |projects|
      invariant sheet.Valid()
      invariant |sheet.rows| == |rows0| + i
      invariant sheet.rows[..|rows0|] == rows0
      invariant sheet.filled == old(sheet.filled) + seq(i, _ => false)
      invariant forall j :: 0 <= j < i ==> sheet.rows[|rows0| + j] == DetailRow(projects[j], keys, parse, round)
      invariant sheet.title == old(sheet.title) && sheet.widths == old(sheet.widths) && sheet.rules == old(sheet.rules)
    {
      var row := BuildDetailRow(projects[i], keys, parse, round);
      ghost var before := sheet.rows;
      sheet.Append(row);
      assert sheet.rows[..|before|] == before;
      assert seq(i, _ => false) + [false] == seq(i + 1, _ => false);
      i := i + 1;
    }
    assert sheet.rows == rows0 + DetailRows(projects, keys, parse, round);
  }

  /**
   * A sheet made of the header row and the populated rows is rectangular:
   * every project row is as long as the header, and the header row is first.
   */
  lemma PopulatedSheetShape(projects: seq<Project>, metricKeys: string,
                            parse: string -> Option<real>, round: (real, int) -> real)
    ensures var h := CreateHeaders(metricKeys);
            var rows := [HeaderCells(h)] + DetailRows(projects, Split(metricKeys, ','), parse, round);
            && |rows| == |projects| + 1
            && MaxRowOf(rows) - 1 == |projects|
            && MaxColumnOf(rows) == |h|
            && forall i :: 0 <= i < |rows| ==> |rows[i]| == |h|
  {
    var h := CreateHeaders(metricKeys);
    var keys := Split(metricKeys, ',');
    var rows := [HeaderCells(h)] + DetailRows(projects, keys, parse, round);
    forall i | 0 <= i < |rows| ensures |rows[i]| == |h| {
      if i > 0 {
        assert rows[i] == DetailRow(projects[i - 1], keys, parse, round);
        DetailRowMatchesHeaders(projects[i - 1], metricKeys, parse, round);
      }
    }
    assert |rows[0]| == |h|;
    assert |h| >= 7;
  }

  // ----- sort_and_clear_sheet -----

  /** The data rows as `iter_rows(values_only=True)` yields them: padded to `max_column`. */
  function PaddedData(rows: seq<seq<Cell>>): (d: seq<seq<Cell>>)
    ensures |d| == |DataRows(rows)|
    ensures forall i :: 0 <= i < |d| ==> d[i] == Pad(DataRows(rows)[i], MaxColumnOf(rows))
  {
    var data := DataRows(rows);
    seq(|data|, i requires 0 <= i < |data| => Pad(data[i], MaxColumnOf(rows)))
  }

  /** `str(row[0]).lower()`. */
  function RowKey(floatRepr: real -> string): seq<Cell> -> string {
    row => Lower(PyStr(CellAt(row, 0), floatRepr))
  }

  /** The sheet after `sort_and_clear_sheet`: the header, then the data rows sorted by `RowKey`. */
  function SortedRows(rows: seq<seq<Cell>>, floatRepr: real -> string): seq<seq<Cell>> {
    if rows == [] then [] else [rows[0]] + SortBy(PaddedData(rows), RowKey(floatRepr))
  }

  /** The descending `delete_rows` loop of `sort_and_clear_sheet`: only the header row is left. */
  method ClearDataRows(sheet: Sheet)
    requires sheet.Valid()
    modifies sheet
    ensures sheet.Valid()
    ensures var keep := if |old(sheet.rows)| == 0 then 0 else 1;
            sheet.rows == old(sheet.rows)[..keep] && sheet.filled == old(sheet.filled)[..keep]
    ensures sheet.title == old(sheet.title) && sheet.widths == old(sheet.widths) && sheet.rules == old(sheet.rules)
  {
    ghost var rows0 := sheet.rows;
    ghost var filled0 := sheet.filled;
    var r := sheet.MaxRow();
    while r > 1
      invariant 1 <= r <= MaxRowOf(rows0)
      invariant sheet.Valid()
      invariant |rows0| >= 1 ==> sheet.rows == rows0[..r] && sheet.filled == filled0[..r]
      invariant |rows0| == 0 ==> sheet.rows == rows0 && sheet.filled == filled0
      invariant sheet.title == old(sheet.title) && sheet.widths == old(sheet.widths) && sheet.rules == old(sheet.rules)
      decreases r
    {
      ghost var before := sheet.rows;
      ghost var fbefore := sheet.filled;
      sheet.DeleteRow(r);
      assert before[..r - 1] + before[r..] == rows0[..r - 1];
      assert fbefore[..r - 1] + fbefore[r..] == filled0[..r - 1];
      r := r - 1;
    }
  }

  /** `for row in data: sheet.append(list(row))`. */
  method AppendRows(sheet: Sheet, data: seq<seq<Cell>>)
    requires sheet.Valid()
    modifies sheet
    ensures sheet.Valid()
    ensures sheet.rows == old(sheet.rows) + data
    ensures sheet.filled == old(sheet.filled) + seq(|data|, _ => false)
    ensures sheet.title == old(sheet.title) && sheet.widths == old(sheet.widths) && sheet.rules == old(sheet.rules)
  {
    var i := 0;
    while i < |data|
      invariant 0 <= i <= |data|
      invariant sheet.Valid()
      invariant sheet.rows == old(sheet.rows) + data[..i]
      invariant sheet.filled == old(sheet.filled) + seq(i, _ => false)
      invariant sheet.title == old(sheet.title) && sheet.widths == old(sheet.widths) && sheet.rules == old(sheet.rules)
    {
      sheet.Append(data[i]);
      assert data[..i + 1] == data[..i] + [data[i]];
      assert seq(i + 1, _ => false) == seq(i, _ => false) + [false];
      i := i + 1;
    }
    assert data[..i] == data;
  }

  method SortAndClearSheet(sheet: Sheet, floatRepr: real -> string)
    requires sheet.Valid()
    modifies sheet
    ensures sheet.Valid()
    ensures sheet.rows == SortedRows(old(sheet.rows), floatRepr)
    ensures old(sheet.rows) != [] ==> sheet.filled[0] == old(sheet.filled)[0]
    ensures forall i :: 1 <= i < |sheet.filled| ==> !sheet.filled[i]
    ensures sheet.title == old(sheet.title) && sheet.widths == old(sheet.widths) && sheet.rules == old(sheet.rules)
  {
    ghost var rows0 := sheet.rows;
    var data := PaddedData(sheet.rows);
    data := SortBy(data, RowKey(floatRepr));
    ClearDataRows(sheet);
    AppendRows(sheet, data);
    if rows0 == [] {
      assert data == [];
    } else {
      assert rows0[..1] == [rows0[0]];
    }
  }

  /**
   * Sorting keeps the header in place and the number of rows, the data rows
   * are a permutation of the padded old data rows, ordered by lower-cased
   * name, and rows with the same key keep their relative order.
   */
  lemma SortedRowsProperties(rows: seq<seq<Cell>>, floatRepr: real -> string)
    requires rows != []
    ensures var s := SortedRows(rows, floatRepr);
            var key := RowKey(floatRepr);
            && |s| == |rows| && s[0] == rows[0]
            && multiset(s[1..]) == multiset(PaddedData(rows))
            && SortedBy(s[1..], key)
            && forall k :: WithKey(s[1..], key, k) == WithKey(PaddedData(rows), key, k)
  {
    var key := RowKey(floatRepr);
    SortByPermutesAndSorts(PaddedData(rows), key);
    var s := SortedRows(rows, floatRepr);
    assert s[1..] == SortBy(PaddedData(rows), key);
    forall k ensures WithKey(s[1..], key, k) == WithKey(PaddedData(rows), key, k) {
      SortByStable(PaddedData(rows), key, k);
    }
  }

  /** The part of `SortedRowsProperties` the summary needs: the header, the row count and the permutation. */
  lemma SortedRowsPermute(rows: seq<seq<Cell>>, floatRepr: real -> string)
    requires rows != []
    ensures |SortedRows(rows, floatRepr)| == |rows| && SortedRows(rows, floatRepr)[0] == rows[0]
    ensures multiset(SortedRows(rows, floatRepr)[1..]) == multiset(PaddedData(rows))
  {
    SortByPermutesAndSorts(PaddedData(rows), RowKey(floatRepr));
    assert SortedRows(rows, floatRepr)[1..] == SortBy(PaddedData(rows), RowKey(floatRepr));
  }

  /** Sorting keeps the header in place and the number of rows. */
  lemma SortedRowsShape(rows: seq<seq<Cell>>, floatRepr: real -> string)
    requires rows != []
    ensures |SortedRows(rows, floatRepr)| == |rows| && SortedRows(rows, floatRepr)[0] == rows[0]
  {
    SortedRowsPermute(rows, floatRepr);
  }

  /** On a rectangular sheet padding changes nothing, so the sorted rows are a permutation of the old ones. */
  lemma PaddedDataRectangular(rows: seq<seq<Cell>>)
    requires forall i :: 0 <= i < |rows| ==> |rows[i]| == MaxColumnOf(rows)
    ensures PaddedData(rows) == DataRows(rows)
  {
  }

  // ----- highlight_na_rows_excel -----

  /** Cells 3 through second-to-last (of a row read `width` cells wide) all equal "N/A". */
  predicate ExcelNaRow(row: seq<Cell>, width: nat) {
    forall c :: 2 <= c < width - 1 ==> CellAt(row, c) == Str(NA)
  }

  method HighlightNaRowsExcel(sheet: Sheet)
    requires sheet.Valid()
    modifies sheet
    ensures sheet.Valid()
    ensures sheet.rows == old(sheet.rows)
    ensures forall i :: 0 <= i < |sheet.filled| ==>
              sheet.filled[i] == (old(sheet.filled)[i] || (i >= 1 && ExcelNaRow(sheet.rows[i], MaxColumnOf(sheet.rows))))
    ensures sheet.title == old(sheet.title) && sheet.widths == old(sheet.widths) && sheet.rules == old(sheet.rules)
  {
    var width := sheet.MaxColumn();
    var r := 2;
    while r <= sheet.MaxRow()
      invariant 2 <= r <= sheet.MaxRow() + 1
      invariant sheet.Valid()
      invariant sheet.rows == old(sheet.rows)
      invariant forall i :: 0 <= i < |sheet.filled| ==>
                  sheet.filled[i] == (old(sheet.filled)[i] || (1 <= i < r - 1 && ExcelNaRow(sheet.rows[i], width)))
      invariant sheet.title == old(sheet.title) && sheet.widths == old(sheet.widths) && sheet.rules == old(sheet.rules)
    {
      if ExcelNaRow(sheet.rows[r - 1], width) {
        sheet.FillRow(r);
      }
      r := r + 1;
    }
  }

  /** A row of the populated sheet is flagged iff all its metric and rating cells are "N/A". */
  lemma ExcelNaRowOfDetailRow(p: Project, metricKeys: string,
                              parse: string -> Option<real>, round: (real, int) -> real)
    ensures var h := CreateHeaders(metricKeys);
            var row := DetailRow(p, Split(metricKeys, ','), parse, round);
            ExcelNaRow(row, |h|) <==> forall c :: 2 <= c < |h| - 1 ==> row[c] == Str(NA)
  {
    DetailRowMatchesHeaders(p, metricKeys, parse, round);
    var row := DetailRow(p, Split(metricKeys, ','), parse, round);
    assert forall c: nat :: c < |row| ==> CellAt(row, c) == row[c];
  }

  // ----- auto_adjust_column_width -----

  /** The longest `len(str(value))` over the non-empty cells of column `c` (0-based). */
  function ColumnTextWidth(rows: seq<seq<Cell>>, c: nat, floatRepr: real -> string): nat
    decreases |rows|
  {
    if rows == [] then 0
    else
      var w := ColumnTextWidth(rows[..|rows| - 1], c, floatRepr);
      var t := TextLength(CellAt(rows[|rows| - 1], c), floatRepr);
      if t > w then t else w
  }

  /** The column's text width bounds every cell's text, and is 0 or the length of one of them. */
  lemma {:induction false} ColumnTextWidthIsLongest(rows: seq<seq<Cell>>, c: nat, floatRepr: real -> string)
    ensures forall i :: 0 <= i < |rows| ==> TextLength(CellAt(rows[i], c), floatRepr) <= ColumnTextWidth(rows, c, floatRepr)
    ensures ColumnTextWidth(rows, c, floatRepr) == 0 ||
            exists i :: 0 <= i < |rows| && TextLength(CellAt(rows[i], c), floatRepr) == ColumnTextWidth(rows, c, floatRepr)
    decreases |rows|
  {
    if rows != [] {
      var init := rows[..|rows| - 1];
      ColumnTextWidthIsLongest(init, c, floatRepr);
      assert forall i :: 0 <= i < |init| ==> init[i] == rows[i];
      var w := ColumnTextWidth(init, c, floatRepr);
      var t := TextLength(CellAt(rows[|rows| - 1], c), floatRepr);
      if t <= w && w != 0 {
        var i :| 0 <= i < |init| && TextLength(CellAt(init[i], c), floatRepr) == w;
        assert TextLength(CellAt(rows[i], c), floatRepr) == ColumnTextWidth(rows, c, floatRepr);
      }
    }
  }

  /** The width `auto_adjust_column_width` gives column `c` (1-based): the longest text plus 2. */
  function ColumnWidth(rows: seq<seq<Cell>>, c: nat, floatRepr: real -> string): nat
    requires c >= 1
  {
    ColumnTextWidth(rows, c - 1, floatRepr) + 2
  }

  /** The widths of columns 1 to `n`. */
  function ColumnWidths(rows: seq<seq<Cell>>, n: nat, floatRepr: real -> string): map<nat, nat>
    decreases n
  {
    if n == 0 then map[] else ColumnWidths(rows, n - 1, floatRepr)[n := ColumnWidth(rows, n, floatRepr)]
  }

  /** Columns 1 to `n` get a width, each its own, and no other column does. */
  lemma {:induction false} ColumnWidthsAt(rows: seq<seq<Cell>>, n: nat, floatRepr: real -> string)
    ensures forall c: nat :: c in ColumnWidths(rows, n, floatRepr) <==> 1 <= c <= n
    ensures forall c: nat :: 1 <= c <= n ==> ColumnWidths(rows, n, floatRepr)[c] == ColumnWidth(rows, c, floatRepr)
    decreases n
  {
    if n > 0 {
      ColumnWidthsAt(rows, n - 1, floatRepr);
    }
  }

  /** The running maximum of `auto_adjust_column_width` over the cells of column `c` (1-based). */
  method LongestInColumn(rows: seq<seq<Cell>>, c: nat, floatRepr: real -> string) returns (maxLength: nat)
    requires c >= 1
    ensures maxLength == ColumnTextWidth(rows, c - 1, floatRepr)
  {
    maxLength := 0;
    var r := 0;
    while r < |rows|
      invariant 0 <= r <= |rows|
      invariant maxLength == ColumnTextWidth(rows[..r], c - 1, floatRepr)
    {
      var cell := CellAt(rows[r], c - 1);
      if cell != Blank {
        var len := |PyStr(cell, floatRepr)|;
        maxLength := if len > maxLength then len else maxLength;
      }
      assert rows[..r + 1][..r] == rows[..r];
      r := r + 1;
    }
    assert rows[..r] == rows;
  }

  lemma MergeUpdate(a: map<nat, nat>, b: map<nat, nat>, k: nat, v: nat)
    ensures (a + b)[k := v] == a + b[k := v]
  {
  }

  /** Setting column `c` after columns 1 to `c - 1` gives the widths of columns 1 to `c`. */
  lemma ColumnWidthsStep(before: map<nat, nat>, rows: seq<seq<Cell>>, c: nat, floatRepr: real -> string, width: nat)
    requires c >= 1 && width == ColumnWidth(rows, c, floatRepr)
    ensures (before + ColumnWidths(rows, c - 1, floatRepr))[c := width] == before + ColumnWidths(rows, c, floatRepr)
  {
    var earlier := ColumnWidths(rows, c - 1, floatRepr);
    assert ColumnWidths(rows, c, floatRepr) == earlier[c := width];
    MergeUpdate(before, earlier, c, width);
  }

  /** The number of columns `sheet.columns` yields: none on a sheet never written to, otherwise `max_column`. */
  function SizedColumns(rows: seq<seq<Cell>>): (n: nat)
    ensures rows == [] <==> n == 0
    ensures rows != [] ==> n == MaxColumnOf(rows)
  {
    if rows == [] then 0 else MaxColumnOf(rows)
  }

  method AutoAdjustColumnWidth(sheet: Sheet, floatRepr: real -> string)
    modifies sheet
    ensures sheet.widths == old(sheet.widths) + ColumnWidths(sheet.rows, SizedColumns(sheet.rows), floatRepr)
    ensures sheet.rows == old(sheet.rows) && sheet.filled == old(sheet.filled)
    ensures sheet.title == old(sheet.title) && sheet.rules == old(sheet.rules)
  {
    var rows := sheet.rows;
    ghost var before := sheet.widths;
    var width := if |rows| == 0 then 0 else sheet.MaxColumn();
    var c := 1;
    while c <= width
      invariant 1 <= c <= width + 1
      invariant sheet.rows == rows && sheet.filled == old(sheet.filled)
      invariant sheet.title == old(sheet.title) && sheet.rules == old(sheet.rules)
      invariant sheet.widths == before + ColumnWidths(rows, c - 1, floatRepr)
    {
      var maxLength := LongestInColumn(rows, c, floatRepr);
      sheet.SetWidth(c, maxLength + 2);
      ColumnWidthsStep(before, rows, c, floatRepr, maxLength + 2);
      assert sheet.widths == before + ColumnWidths(rows, c, floatRepr);
      c := c + 1;
    }
  }

  // ----- find_column_index -----

  /** The first 0-based position of a cell equal to the string `name`. */
  function FirstMatch(cells: seq<Cell>, name: string): (r: Option<nat>)
    ensures r.Some? ==> r.value < |cells| && cells[r.value] == Str(name)
                        && forall j :: 0 <= j < r.value ==> cells[j] != Str(name)
    ensures r.None? ==> forall j :: 0 <= j < |cells| ==> cells[j] != Str(name)
    decreases |cells|
  {
    if cells == [] then None
    else if cells[0] == Str(name) then Some(0)
    else match FirstMatch(cells[1..], name)
      case Some(i) => Some(i + 1)
      case None => None
  }

  /** `find_column_index(sheet, name)`: the first 1-based column of row 1 holding `name`, over `max_column` columns. */
  function FindColumnIndex(rows: seq<seq<Cell>>, name: string): (r: Option<nat>)
    ensures r.Some? ==> 1 <= r.value <= |HeaderOf(rows)|
                        && HeaderOf(rows)[r.value - 1] == Str(name)
                        && forall j :: 0 <= j < r.value - 1 ==> HeaderOf(rows)[j] != Str(name)
    ensures r.None? <==> forall j :: 0 <= j < |HeaderOf(rows)| ==> HeaderOf(rows)[j] != Str(name)
  {
    var header := HeaderOf(rows);
    var padded := Pad(header, MaxColumnOf(rows));
    assert forall j :: 0 <= j < |padded| ==> padded[j] == CellAt(header, j);
    match FirstMatch(padded, name)
    case Some(i) =>
      assert i < |header|;
      assert forall j :: 0 <= j < i ==> header[j] == padded[j];
      Some(i + 1)
    case None =>
      assert forall j :: 0 <= j < |header| ==> header[j] == padded[j];
      None
  }
}
