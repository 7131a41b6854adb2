/**
 * The four `calculate_*_counts` functions: each walks one column of the data
 * rows (row 2 to `max_row`) and bumps a counter dictionary, and each is proved
 * to end with the counter dictionary `Tally.TallyMap` describes.
 */
module Counters {
  import opened Wrappers
  import opened Cells
  import opened Tally
  import opened Workbook

  /** The values `iter_rows(min_row=2, max_row=sheet.max_row, min_col=col, max_col=col)` yields. */
  function ColumnData(rows: seq<seq<Cell>>, col: nat): seq<Cell>
    requires col >= 1
  {
    ColumnValues(DataRows(rows), col - 1)
  }

  /** Row `r` (1-based, from 2 to `max_row`) of the column is element `r - 2` of the column data. */
  lemma ColumnDataAt(rows: seq<seq<Cell>>, col: nat, r: nat)
    requires col >= 1 && 2 <= r <= MaxRowOf(rows)
    ensures |ColumnData(rows, col)| == MaxRowOf(rows) - 1
    ensures ColumnData(rows, col)[r - 2] == CellAt(rows[r - 1], col - 1)
  {
  }

  lemma ColumnDataLength(rows: seq<seq<Cell>>, col: nat)
    requires col >= 1
    ensures |ColumnData(rows, col)| == MaxRowOf(rows) - 1
  {
  }

  /** `counts[label] += 1` for the label the value is counted under. */
  method Increment(dim: Dimension, counts: map<string, nat>, ghost vals: seq<Cell>, value: Cell, l: string)
    returns (next: map<string, nat>)
    requires counts == TallyMap(dim, vals)
    requires BucketOf(dim, value) == Some(l) && l in Labels(dim)
    ensures next == TallyMap(dim, vals + [value])
  {
    TallyBump(dim, counts, vals, value, l);
    next := counts[l := counts[l] + 1];
  }

  /** One pass of the loop body of the quality gate counter: the value's label goes up by one. */
  method BumpQualityGate(counts: map<string, nat>, ghost vals: seq<Cell>, value: Cell) returns (next: map<string, nat>)
    requires counts == TallyMap(QualityGate, vals)
    ensures next == TallyMap(QualityGate, vals + [value])
  {
    if value == Str("OK") {
      next := Increment(QualityGate, counts, vals, value, "OK");
    } else if value == Str("ERROR") {
      next := Increment(QualityGate, counts, vals, value, "ERROR");
    } else {
      next := Increment(QualityGate, counts, vals, value, NA);
    }
  }

  /** The dictionary the counter starts from is the tally of no values. */
  lemma QualityGateStart()
    ensures TallyMap(QualityGate, []) == map["OK" := 0, "ERROR" := 0, NA := 0]
  {
    TallyEmpty(QualityGate);
  }

  method CalculateQualityGateCounts(sheet: Sheet, col: nat) returns (counts: map<string, nat>)
    requires col >= 1
    ensures counts == TallyMap(QualityGate, ColumnData(sheet.rows, col))
  {
    counts := map["OK" := 0, "ERROR" := 0, NA := 0];
    ghost var vals := ColumnData(sheet.rows, col);
    ColumnDataLength(sheet.rows, col);
    QualityGateStart();
    assert vals[..0] == [];
    var r := 2;
    while r <= sheet.MaxRow()
      invariant 2 <= r <= sheet.MaxRow() + 1
      invariant counts == TallyMap(QualityGate, vals[..r - 2])
    {
      var value := CellAt(sheet.rows[r - 1], col - 1);
      ColumnDataAt(sheet.rows, col, r);
      counts := BumpQualityGate(counts, vals[..r - 2], value);
      assert vals[..r - 1] == vals[..r - 2] + [value];
      r := r + 1;
    }
    assert vals[..r - 2] == vals;
  }

  /** One pass of the loop body of the coverage counter: the value's label goes up by one. */
  method BumpCoverage(counts: map<string, nat>, ghost vals: seq<Cell>, value: Cell) returns (next: map<string, nat>)
    requires counts == TallyMap(Coverage, vals)
    ensures next == TallyMap(Coverage, vals + [value])
  {
    CoverageBuckets(value);
    if IsNumber(value) {
      var x := NumberOf(value);
      if x < 10.0 {
        next := Increment(Coverage, counts, vals, value, "< 10%");
      } else if 10.0 <= x < 30.0 {
        next := Increment(Coverage, counts, vals, value, "10% - 30%");
      } else if 30.0 <= x < 50.0 {
        next := Increment(Coverage, counts, vals, value, "30% - 50%");
      } else if 50.0 <= x < 80.0 {
        next := Increment(Coverage, counts, vals, value, "50% - 80%");
      } else if x >= 80.0 {
        next := Increment(Coverage, counts, vals, value, "> 80%");
      } else {
        // every number lies in one of the five ranges
        assert false;
      }
    } else {
      next := Increment(Coverage, counts, vals, value, NA);
    }
  }

  /** The dictionary the counter starts from is the tally of no values. */
  lemma CoverageStart()
    ensures TallyMap(Coverage, []) == map["< 10%" := 0, "10% - 30%" := 0, "30% - 50%" := 0, "50% - 80%" := 0, "> 80%" := 0, NA := 0]
  {
    TallyEmpty(Coverage);
  }

  method CalculateCoverageCounts(sheet: Sheet, col: nat) returns (counts: map<string, nat>)
    requires col >= 1
    ensures counts == TallyMap(Coverage, ColumnData(sheet.rows, col))
  {
    counts := map["< 10%" := 0, "10% - 30%" := 0, "30% - 50%" := 0, "50% - 80%" := 0, "> 80%" := 0, NA := 0];
    ghost var vals := ColumnData(sheet.rows, col);
    ColumnDataLength(sheet.rows, col);
    CoverageStart();
    assert vals[..0] == [];
    var r := 2;
    while r <= sheet.MaxRow()
      invariant 2 <= r <= sheet.MaxRow() + 1
      invariant counts == TallyMap(Coverage, vals[..r - 2])
    {
      var value := CellAt(sheet.rows[r - 1], col - 1);
      ColumnDataAt(sheet.rows, col, r);
      counts := BumpCoverage(counts, vals[..r - 2], value);
      assert vals[..r - 1] == vals[..r - 2] + [value];
      r := r + 1;
    }
    assert vals[..r - 2] == vals;
  }

  /** One pass of the loop body of the duplication counter: the value's label goes up by one. */
  method BumpDuplication(counts: map<string, nat>, ghost vals: seq<Cell>, value: Cell) returns (next: map<string, nat>)
    requires counts == TallyMap(Duplication, vals)
    ensures next == TallyMap(Duplication, vals + [value])
  {
    DuplicationBuckets(value);
    if IsNumber(value) {
      var x := NumberOf(value);
      if x < 3.0 {
        next := Increment(Duplication, counts, vals, value, "< 3%");
      } else if 3.0 <= x < 5.0 {
        next := Increment(Duplication, counts, vals, value, "3% - 5%");
      } else if 5.0 <= x < 10.0 {
        next := Increment(Duplication, counts, vals, value, "5% - 10%");
      } else if 10.0 <= x < 20.0 {
        next := Increment(Duplication, counts, vals, value, "10% - 20%");
      } else if x >= 20.0 {
        next := Increment(Duplication, counts, vals, value, "> 20%");
      } else {
        // every number lies in one of the five ranges
        assert false;
      }
    } else {
      next := Increment(Duplication, counts, vals, value, NA);
    }
  }

  /** The dictionary the counter starts from is the tally of no values. */
  lemma DuplicationStart()
    ensures TallyMap(Duplication, []) == map["< 3%" := 0, "3% - 5%" := 0, "5% - 10%" := 0, "10% - 20%" := 0, "> 20%" := 0, NA := 0]
  {
    TallyEmpty(Duplication);
  }

  method CalculateDuplicationCounts(sheet: Sheet, col: nat) returns (counts: map<string, nat>)
    requires col >= 1
    ensures counts == TallyMap(Duplication, ColumnData(sheet.rows, col))
  {
    counts := map["< 3%" := 0, "3% - 5%" := 0, "5% - 10%" := 0, "10% - 20%" := 0, "> 20%" := 0, NA := 0];
    ghost var vals := ColumnData(sheet.rows, col);
    ColumnDataLength(sheet.rows, col);
    DuplicationStart();
    assert vals[..0] == [];
    var r := 2;
    while r <= sheet.MaxRow()
      invariant 2 <= r <= sheet.MaxRow() + 1
      invariant counts == TallyMap(Duplication, vals[..r - 2])
    {
      var value := CellAt(sheet.rows[r - 1], col - 1);
      ColumnDataAt(sheet.rows, col, r);
      counts := BumpDuplication(counts, vals[..r - 2], value);
      assert vals[..r - 1] == vals[..r - 2] + [value];
      r := r + 1;
    }
    assert vals[..r - 2] == vals;
  }

  /** One pass of the loop body of the rating counter: the value's label goes up by one. */
  method BumpRating(counts: map<string, nat>, ghost vals: seq<Cell>, value: Cell) returns (next: map<string, nat>)
    requires counts == TallyMap(Rating, vals)
    ensures next == TallyMap(Rating, vals + [value])
  {
    next := counts;
    TallyStep(Rating, vals, value);
    if value.Str? && value.s in next {
      next := next[value.s := next[value.s] + 1];
    }
  }

  /** The dictionary the counter starts from is the tally of no values. */
  lemma RatingStart()
    ensures TallyMap(Rating, []) == map["A" := 0, "B" := 0, "C" := 0, "D" := 0, "E" := 0, NA := 0]
  {
    TallyEmpty(Rating);
  }

  method CalculateRatingCounts(sheet: Sheet, col: nat) returns (counts: map<string, nat>)
    requires col >= 1
    ensures counts == TallyMap(Rating, ColumnData(sheet.rows, col))
  {
    counts := map["A" := 0, "B" := 0, "C" := 0, "D" := 0, "E" := 0, NA := 0];
    ghost var vals := ColumnData(sheet.rows, col);
    ColumnDataLength(sheet.rows, col);
    RatingStart();
    assert vals[..0] == [];
    var r := 2;
    while r <= sheet.MaxRow()
      invariant 2 <= r <= sheet.MaxRow() + 1
      invariant counts == TallyMap(Rating, vals[..r - 2])
    {
      var value := CellAt(sheet.rows[r - 1], col - 1);
      ColumnDataAt(sheet.rows, col, r);
      counts := BumpRating(counts, vals[..r - 2], value);
      assert vals[..r - 1] == vals[..r - 2] + [value];
      r := r + 1;
    }
    assert vals[..r - 2] == vals;
  }
}
