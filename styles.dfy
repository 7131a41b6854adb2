/**
 * The screen's highlighting rules. The four `apply_*_styles` functions look at
 * one column of counts, indexed by bucket, and mark the problem buckets
 * that hold a positive count. `highlight_na_rows_dataframe` marks a whole
 * project row when every metric it checks is "N/A".
 */
module Styles {
  import opened Wrappers
  import opened Text
  import opened Cells
  import opened Normalize
  import opened Records

  /** The style of a count that needs attention. */
  const DataNeedAttention: string := "background-color: #FF0000; color: white; font-weight: bold;"

  /** The style of a row whose metrics are all unavailable. */
  const HighlightNaRows: string := "background-color: #FFC7CE;"

  /** A count column: one (bucket, count) pair per bucket, in display order. */
  type CountColumn = seq<(string, Cell)>

  /** The problem buckets of each distribution. */
  predicate GateProblem(bucket: string) {
    bucket == "Failed"
  }

  predicate CoverageProblem(bucket: string) {
    bucket != "> 80%" && Upper(bucket) != NA
  }

  predicate DuplicationProblem(bucket: string) {
    bucket != "< 3%" && Upper(bucket) != NA
  }

  predicate RatingProblem(bucket: string) {
    bucket in ["B", "C", "D", "E"]
  }

  /** What `count > 0` does when the bucket is "Failed": numbers compare, anything else raises TypeError. */
  method ApplyQualityGateStyles(colData: CountColumn) returns (styles: Option<seq<string>>)
    ensures styles.None? <==> exists i :: 0 <= i < |colData| && GateProblem(colData[i].0) && !IsNumber(colData[i].1)
    ensures styles.Some? ==> |styles.value| == |colData|
    ensures styles.Some? ==> forall i :: 0 <= i < |colData| ==>
              styles.value[i] == if GateProblem(colData[i].0) && IsPositive(colData[i].1) then DataNeedAttention else ""
  {
    var marks := new string[|colData|](_ => "");
    var i := 0;
    while i < |colData|
      invariant 0 <= i <= |colData|
      invariant forall j :: 0 <= j < i ==> !(GateProblem(colData[j].0) && !IsNumber(colData[j].1))
      invariant forall j :: 0 <= j < i ==>
                  marks[j] == if GateProblem(colData[j].0) && IsPositive(colData[j].1) then DataNeedAttention else ""
      invariant forall j :: i <= j < |colData| ==> marks[j] == ""
    {
      var (bucket, count) := colData[i];
      if bucket == "Failed" {
        if !IsNumber(count) {
          return None;
        }
        if NumberOf(count) > 0.0 {
          marks[i] := DataNeedAttention;
        }
      }
      i := i + 1;
    }
    styles := Some(marks[..]);
  }

  method ApplyCoverageStyles(colData: CountColumn) returns (styles: seq<string>)
    ensures |styles| == |colData|
    ensures forall i :: 0 <= i < |colData| ==>
              styles[i] == if CoverageProblem(colData[i].0) && IsPositive(colData[i].1) then DataNeedAttention else ""
  {
    var marks := new string[|colData|](_ => "");
    var i := 0;
    while i < |colData|
      invariant 0 <= i <= |colData|
      invariant forall j :: 0 <= j < i ==>
                  marks[j] == if CoverageProblem(colData[j].0) && IsPositive(colData[j].1) then DataNeedAttention else ""
      invariant forall j :: i <= j < |colData| ==> marks[j] == ""
    {
      var (currentRange, count) := colData[i];
      if currentRange != "> 80%" && Upper(currentRange) != NA && IsNumber(count) && NumberOf(count) > 0.0 {
        marks[i] := DataNeedAttention;
      }
      i := i + 1;
    }
    styles := marks[..];
  }

  method ApplyDuplicationStyles(colData: CountColumn) returns (styles: seq<string>)
    ensures |styles| == |colData|
    ensures forall i :: 0 <= i < |colData| ==>
              styles[i] == if DuplicationProblem(colData[i].0) && IsPositive(colData[i].1) then DataNeedAttention else ""
  {
    var marks := new string[|colData|](_ => "");
    var i := 0;
    while i < |colData|
      invariant 0 <= i <= |colData|
      invariant forall j :: 0 <= j < i ==>
                  marks[j] == if DuplicationProblem(colData[j].0) && IsPositive(colData[j].1) then DataNeedAttention else ""
      invariant forall j :: i <= j < |colData| ==> marks[j] == ""
    {
      var (currentRange, count) := colData[i];
      if currentRange != "< 3%" && Upper(currentRange) != NA && IsNumber(count) && NumberOf(count) > 0.0 {
        marks[i] := DataNeedAttention;
      }
      i := i + 1;
    }
    styles := marks[..];
  }

  method ApplyRatingsStyles(colData: CountColumn) returns (styles: seq<string>)
    ensures |styles| == |colData|
    ensures forall i :: 0 <= i < |colData| ==>
              styles[i] == if RatingProblem(colData[i].0) && IsPositive(colData[i].1) then DataNeedAttention else ""
  {
    var marks := new string[|colData|](_ => "");
    var i := 0;
    while i < |colData|
      invariant 0 <= i <= |colData|
      invariant forall j :: 0 <= j < i ==>
                  marks[j] == if RatingProblem(colData[j].0) && IsPositive(colData[j].1) then DataNeedAttention else ""
      invariant forall j :: i <= j < |colData| ==> marks[j] == ""
    {
      var (currentRating, count) := colData[i];
      if currentRating in ["B", "C", "D", "E"] && IsNumber(count) && NumberOf(count) > 0.0 {
        marks[i] := DataNeedAttention;
      }
      i := i + 1;
    }
    styles := marks[..];
  }

  /** In the screen's bucket order, the marked buckets are the first four coverage ranges. */
  lemma CoverageProblemBuckets()
    ensures forall i :: 0 <= i < 6 ==>
              (CoverageProblem(["< 10%", "10% - 30%", "30% - 50%", "50% - 80%", "> 80%", NA][i]) <==> i < 4)
  {
    assert Upper(NA) == NA;
  }

  /** ... and the last four duplication ranges but "N/A". */
  lemma DuplicationProblemBuckets()
    ensures forall i :: 0 <= i < 6 ==>
              (DuplicationProblem(["< 3%", "3% - 5%", "5% - 10%", "10% - 20%", "> 20%", NA][i]) <==> 1 <= i < 5)
  {
    assert Upper(NA) == NA;
  }

  /** The metric columns the row check looks at, in order. */
  const ColsToCheck: seq<string> :=
    ["alert_status", "ncloc", "bugs", "reliability_rating",
     "vulnerabilities", "security_rating", "security_review_rating",
     "code_smells", "sqale_rating", "duplicated_lines_density", "coverage",
     "Reliability Rating (A-E)", "Security Rating (A-E)",
     "Maintainability Rating (A-E)", "Security Hotspot Rating (A-E)"]

  /** The elements of `cols` that are among `keys`, in order. */
  function Present(cols: seq<string>, keys: seq<string>): (r: seq<string>)
    ensures forall c :: c in r <==> c in cols && c in keys
    decreases |cols|
  {
    if cols == [] then []
    else (if cols[0] in keys then [cols[0]] else []) + Present(cols[1..], keys)
  }

  /** `existing_cols_to_check`. */
  function ExistingCols(row: Dict): seq<string> {
    Present(ColsToCheck, KeysOf(row))
  }

  /** `row[col]`. */
  function ValueOf(row: Dict, col: string): Cell {
    Get(row, col).GetOr(Blank)
  }

  /** A value that clears the flag: missing, or a string that does not read as "N/A". */
  predicate ClearsFlag(v: Cell) {
    v.Blank? || (v.Str? && !IsNA(v.s))
  }

  /** The row is highlighted: it has a checked column, and none of them clears the flag. */
  predicate UiNaRow(row: Dict) {
    var cols := ExistingCols(row);
    cols != [] && forall j :: 0 <= j < |cols| ==> !ClearsFlag(ValueOf(row, cols[j]))
  }

  /** The loop of `highlight_na_rows_dataframe`: stops at the first value of `cols` that clears the flag. */
  method CheckNaValues(row: Dict, cols: seq<string>) returns (isNaRow: bool)
    ensures isNaRow <==> forall j :: 0 <= j < |cols| ==> !ClearsFlag(ValueOf(row, cols[j]))
  {
    isNaRow := true;
    var i := 0;
    while i < |cols|
      invariant 0 <= i <= |cols|
      invariant isNaRow
      invariant forall j :: 0 <= j < i ==> !ClearsFlag(ValueOf(row, cols[j]))
    {
      var val := ValueOf(row, cols[i]);
      if val.Blank? || (val.Str? && !IsNA(val.s)) {
        isNaRow := false;
        break;
      }
      i := i + 1;
    }
  }

  method HighlightNaRowsDataFrame(row: Dict) returns (styles: seq<string>)
    ensures |styles| == |row|
    ensures forall i :: 0 <= i < |row| ==> styles[i] == if UiNaRow(row) then HighlightNaRows else ""
  {
    var existing := ExistingCols(row);
    if existing == [] {
      return seq(|row|, _ => "");
    }
    var isNaRow := CheckNaValues(row, existing);
    if isNaRow {
      styles := seq(|row|, _ => HighlightNaRows);
    } else {
      styles := seq(|row|, _ => "");
    }
  }

  /** A number never clears the flag: a row whose checked values are all numbers is highlighted. */
  lemma NumbersKeepFlag(row: Dict)
    requires ExistingCols(row) != []
    requires forall j :: 0 <= j < |ExistingCols(row)| ==> IsNumber(ValueOf(row, ExistingCols(row)[j]))
    ensures UiNaRow(row)
  {
  }
}
