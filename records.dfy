/**
 * The per-project rows: the header row of the detail sheet
 * (`create_headers`), the workbook row of one project (the body of the loop
 * in `populate_sheet_with_data`) and the dictionary the UI builds for the
 * same project.
 */
module Records {
  import opened Wrappers
  import opened Text
  import opened Cells
  import opened Normalize

  /** One `{"metric": ..., "value": ...}` entry returned by the metrics service; a null value is None. */
  datatype Measure = Measure(metric: string, value: Option<string>)

  /** A project record as `process_project` returns it. */
  datatype Project = Project(name: string, key: string, metrics: seq<Measure>, lastAnalysisDate: Option<string>)

  type MetricsMap = map<string, Option<string>>

  /** `{metric["metric"]: metric["value"] for metric in metrics}`: later entries overwrite earlier ones. */
  function MetricsMapOf(ms: seq<Measure>): MetricsMap
    decreases |ms|
  {
    if ms == [] then map[] else MetricsMapOf(ms[..|ms| - 1])[ms[|ms| - 1].metric := ms[|ms| - 1].value]
  }

  /** `metrics_map.get(key)`: None both for an absent metric and for a null value. */
  function Lookup(m: MetricsMap, key: string): Option<string> {
    if key in m then m[key] else None
  }

  /** The map holds exactly the metric names of the entries. */
  lemma {:induction false} MetricsMapKeys(ms: seq<Measure>)
    ensures MetricsMapOf(ms).Keys == set i | 0 <= i < |ms| :: ms[i].metric
    decreases |ms|
  {
    if ms != [] {
      var init := ms[..|ms| - 1];
      MetricsMapKeys(init);
      var all := set i | 0 <= i < |ms| :: ms[i].metric;
      var before := set i | 0 <= i < |init| :: init[i].metric;
      forall x | x in all ensures x in before + {ms[|ms| - 1].metric} {
        var i :| 0 <= i < |ms| && ms[i].metric == x;
        if i < |init| { assert init[i] == ms[i]; }
      }
      forall x | x in before ensures x in all {
        var i :| 0 <= i < |init| && init[i].metric == x;
        assert ms[i] == init[i];
      }
      assert all == before + {ms[|ms| - 1].metric};
    }
  }

  /** For a metric named more than once, the value of its last entry wins. */
  lemma {:induction false} MetricsMapLastWins(ms: seq<Measure>, i: nat)
    requires i < |ms|
    requires forall j :: i < j < |ms| ==> ms[j].metric != ms[i].metric
    ensures Lookup(MetricsMapOf(ms), ms[i].metric) == ms[i].value
    decreases |ms|
  {
    if i < |ms| - 1 {
      var init := ms[..|ms| - 1];
      assert init[i] == ms[i];
      MetricsMapLastWins(init, i);
    }
  }

  const ExcelIntMetrics: seq<string> :=
    ["ncloc", "bugs", "reliability_rating", "vulnerabilities",
     "security_rating", "security_review_rating", "code_smells", "sqale_rating"]

  const ExcelFloatMetrics: seq<string> := ["duplicated_lines_density", "coverage"]

  /** `value if value is not None else "N/A"`: a metric that is not converted (no N/A folding either). */
  function RawCell(value: Option<string>): Cell {
    if value.Some? then Str(value.value) else Str(NA)
  }

  /** The cell that `populate_sheet_with_data` writes for metric `key` with raw value `value`. */
  function ExcelMetricCell(value: Option<string>, key: string,
                           parse: string -> Option<real>, round: (real, int) -> real): Cell {
    if key in ExcelIntMetrics then ConvertToNumericOrNA(value, AsInt, parse, round)
    else if key in ExcelFloatMetrics then ConvertToNumericOrNA(value, AsFloat(Some(1)), parse, round)
    else RawCell(value)
  }

  datatype NumericType = IntType | FloatType

  /** `ui_numeric_metrics`. */
  const UiNumericMetrics: map<string, NumericType> :=
    map["ncloc" := IntType, "bugs" := IntType, "reliability_rating" := IntType,
        "vulnerabilities" := IntType, "security_rating" := IntType,
        "security_review_rating" := IntType, "code_smells" := IntType,
        "sqale_rating" := IntType, "duplicated_lines_density" := FloatType,
        "coverage" := FloatType]

  /** The value the UI row builder stores for metric `key` with raw value `value`. */
  function UiMetricCell(value: Option<string>, key: string,
                        parse: string -> Option<real>, round: (real, int) -> real): Cell {
    var target := if key in UiNumericMetrics then Some(UiNumericMetrics[key]) else None;
    if target == Some(FloatType) then ConvertToNumericOrNA(value, AsFloat(Some(1)), parse, round)
    else if target == Some(IntType) then ConvertToNumericOrNA(value, AsInt, parse, round)
    else RawCell(value)
  }

  /** The workbook and the UI convert every metric the same way, although each keeps its own table of metric types. */
  lemma UiConvertsLikeExcel(value: Option<string>, key: string,
                            parse: string -> Option<real>, round: (real, int) -> real)
    ensures UiMetricCell(value, key, parse, round) == ExcelMetricCell(value, key, parse, round)
  {
    assert key in UiNumericMetrics && UiNumericMetrics[key] == IntType <==> key in ExcelIntMetrics;
    assert key in UiNumericMetrics && UiNumericMetrics[key] == FloatType <==> key in ExcelFloatMetrics;
  }

  const RatingHeaders: seq<string> :=
    ["Reliability Rating (A-E)", "Security Rating (A-E)",
     "Maintainability Rating (A-E)", "Security Hotspot Rating (A-E)"]

  /** The raw metrics the four rating columns are translated from, in column order. */
  const RatingMetrics: seq<string> :=
    ["reliability_rating", "security_rating", "sqale_rating", "security_review_rating"]

  const DateHeader: string := "last_analysis_date"

  /** The header row for an already split list of metric keys. */
  function Headers(keys: seq<string>): seq<string> {
    ["Project Name", "Project Key"] + keys + RatingHeaders + [DateHeader]
  }

  /** `create_headers(metric_keys)`. */
  function CreateHeaders(metricKeys: string): seq<string> {
    Headers(Split(metricKeys, ','))
  }

  /**
   * The header row has one column per comma-separated key, plus seven fixed
   * ones, and its metric columns joined with commas give the key string back.
   */
  lemma HeaderLayout(metricKeys: string)
    ensures |CreateHeaders(metricKeys)| == Occurrences(metricKeys, ',') + 8
    ensures var h := CreateHeaders(metricKeys);
            h[..2] == ["Project Name", "Project Key"] &&
            Join(h[2..|h| - 5], ',') == metricKeys &&
            h[|h| - 5..] == RatingHeaders + [DateHeader]
  {
    SplitJoin(metricKeys, ',');
    var h := CreateHeaders(metricKeys);
    assert h[2..|h| - 5] == Split(metricKeys, ',');
  }

  function RatingCells(m: MetricsMap): seq<Cell> {
    seq(4, t requires 0 <= t < 4 => Str(RatingLetter(Lookup(m, RatingMetrics[t]))))
  }

  /** The workbook stores the date as it came, None included. */
  function ExcelDateCell(date: Option<string>): Cell {
    if date.Some? then Str(date.value) else Blank
  }

  /** The UI defaults a missing date to "N/A". */
  function UiDateCell(date: Option<string>): Cell {
    if date.Some? then Str(date.value) else Str(NA)
  }

  function MetricCells(m: MetricsMap, keys: seq<string>,
                       parse: string -> Option<real>, round: (real, int) -> real): seq<Cell> {
    seq(|keys|, j requires 0 <= j < |keys| => ExcelMetricCell(Lookup(m, keys[j]), keys[j], parse, round))
  }

  /** The row `populate_sheet_with_data` appends for one project. */
  function DetailRow(p: Project, keys: seq<string>,
                     parse: string -> Option<real>, round: (real, int) -> real): seq<Cell> {
    var m := MetricsMapOf(p.metrics);
    [Str(p.name), Str(p.key)] + MetricCells(m, keys, parse, round) + RatingCells(m) + [ExcelDateCell(p.lastAnalysisDate)]
  }

  /**
   * A project's row lines up with the header row: same length, and each
   * column holds the value its header names: the converted metric of that name,
   * the letter translated from the raw rating code, the date.
   */
  lemma DetailRowMatchesHeaders(p: Project, metricKeys: string,
                                parse: string -> Option<real>, round: (real, int) -> real)
    ensures var h := CreateHeaders(metricKeys);
            var row := DetailRow(p, Split(metricKeys, ','), parse, round);
            var m := MetricsMapOf(p.metrics);
            && |row| == |h|
            && row[0] == Str(p.name) && row[1] == Str(p.key)
            && (forall c :: 2 <= c < |h| - 5 ==> row[c] == ExcelMetricCell(Lookup(m, h[c]), h[c], parse, round))
            && (forall t :: 0 <= t < 4 ==>
                  row[|h| - 5 + t] == Str(RatingLetter(Lookup(m, RatingMetrics[t]))) &&
                  h[|h| - 5 + t] == RatingHeaders[t])
            && row[|h| - 1] == ExcelDateCell(p.lastAnalysisDate)
  {
    var keys := Split(metricKeys, ',');
    var h := Headers(keys);
    var row := DetailRow(p, keys, parse, round);
    var m := MetricsMapOf(p.metrics);
    var n := |keys|;
    DetailRowAt(p, keys, parse, round);
    HeadersAt(keys);
    assert |row| == n + 7 && |h| == n + 7;
    forall c | 2 <= c < |h| - 5
      ensures row[c] == ExcelMetricCell(Lookup(m, h[c]), h[c], parse, round)
    {
      var j := c - 2;
      assert h[2 + j] == keys[j];
      assert row[2 + j] == ExcelMetricCell(Lookup(m, keys[j]), keys[j], parse, round);
    }
    forall t | 0 <= t < 4
      ensures row[|h| - 5 + t] == Str(RatingLetter(Lookup(m, RatingMetrics[t])))
      ensures h[|h| - 5 + t] == RatingHeaders[t]
    {
      assert |h| - 5 + t == 2 + n + t;
      assert row[2 + n + t] == RatingCells(m)[t];
      assert h[2 + n + t] == RatingHeaders[t];
    }
  }

  /** Where each part of the header row sits. */
  lemma HeadersAt(keys: seq<string>)
    ensures var h := Headers(keys);
            && |h| == |keys| + 7
            && h[0] == "Project Name" && h[1] == "Project Key"
            && (forall j :: 0 <= j < |keys| ==> h[2 + j] == keys[j])
            && (forall t :: 0 <= t < 4 ==> h[2 + |keys| + t] == RatingHeaders[t])
            && h[|keys| + 6] == DateHeader
  {
  }

  lemma MetricCellsSnoc(m: MetricsMap, keys: seq<string>, j: nat,
                        parse: string -> Option<real>, round: (real, int) -> real)
    requires j < |keys|
    ensures MetricCells(m, keys[..j + 1], parse, round)
         == MetricCells(m, keys[..j], parse, round) + [ExcelMetricCell(Lookup(m, keys[j]), keys[j], parse, round)]
  {
    assert keys[..j + 1] == keys[..j] + [keys[j]];
    MetricCellsAppend(m, keys[..j], keys[j], parse, round);
  }

  /** The cells of one more key are the cells before it and then its own. */
  lemma MetricCellsAppend(m: MetricsMap, keys: seq<string>, key: string,
                          parse: string -> Option<real>, round: (real, int) -> real)
    ensures MetricCells(m, keys + [key], parse, round)
         == MetricCells(m, keys, parse, round) + [ExcelMetricCell(Lookup(m, key), key, parse, round)]
  {
    var a := MetricCells(m, keys + [key], parse, round);
    var b := MetricCells(m, keys, parse, round) + [ExcelMetricCell(Lookup(m, key), key, parse, round)];
    forall i | 0 <= i < |a| ensures a[i] == b[i] {
      assert (keys + [key])[i] == if i < |keys| then keys[i] else key;
    }
  }

  /** Builds the row of one project cell by cell, as the loop over the metric keys does. */
  method BuildDetailRow(p: Project, keys: seq<string>,
                        parse: string -> Option<real>, round: (real, int) -> real)
    returns (row: seq<Cell>)
    ensures row == DetailRow(p, keys, parse, round)
  {
    var m := MetricsMapOf(p.metrics);
    row := [Str(p.name), Str(p.key)];
    var j := 0;
    while j < |keys|
      invariant 0 <= j <= |keys|
      invariant row == [Str(p.name), Str(p.key)] + MetricCells(m, keys[..j], parse, round)
    {
      var value := Lookup(m, keys[j]);
      var cell: Cell;
      if keys[j] in ExcelIntMetrics {
        cell := ConvertToNumericOrNA(value, AsInt, parse, round);
      } else if keys[j] in ExcelFloatMetrics {
        cell := ConvertToNumericOrNA(value, AsFloat(Some(1)), parse, round);
      } else {
        cell := if value.Some? then Str(value.value) else Str(NA);
      }
      assert cell == ExcelMetricCell(value, keys[j], parse, round);
      MetricCellsSnoc(m, keys, j, parse, round);
      row := row + [cell];
      j := j + 1;
    }
    assert keys[..j] == keys;
    var ratings := [Str(RatingLetter(Lookup(m, "reliability_rating"))),
                    Str(RatingLetter(Lookup(m, "security_rating"))),
                    Str(RatingLetter(Lookup(m, "sqale_rating"))),
                    Str(RatingLetter(Lookup(m, "security_review_rating")))];
    assert ratings == RatingCells(m);
    row := row + ratings;
    row := row + [if p.lastAnalysisDate.Some? then Str(p.lastAnalysisDate.value) else Blank];
  }

  /** A Python dict as its ordered list of entries. */
  type Dict = seq<(string, Cell)>

  function Get(d: Dict, k: string): Option<Cell> {
    if d == [] then None else if d[0].0 == k then Some(d[0].1) else Get(d[1..], k)
  }

  function KeysOf(d: Dict): seq<string> {
    seq(|d|, i requires 0 <= i < |d| => d[i].0)
  }

  /** `d[k] = v`: a new key goes to the end, an existing key keeps its place and takes the new value. */
  function Put(d: Dict, k: string, v: Cell): (r: Dict)
    ensures k in KeysOf(d) ==> KeysOf(r) == KeysOf(d)
    ensures k !in KeysOf(d) ==> r == d + [(k, v)]
  {
    if d == [] then [(k, v)]
    else if d[0].0 == k then
      assert KeysOf(d)[0] == k;
      var r := [(k, v)] + d[1..];
      assert KeysOf(r) == KeysOf(d);
      r
    else
      assert KeysOf(d) == [d[0].0] + KeysOf(d[1..]);
      var r := [d[0]] + Put(d[1..], k, v);
      assert KeysOf(r) == [d[0].0] + KeysOf(Put(d[1..], k, v));
      r
  }

  /** After `d[k] = v`, `d.get(k)` is `v` and every other key reads as before. */
  lemma {:induction false} PutGet(d: Dict, k: string, v: Cell, k': string)
    ensures Get(Put(d, k, v), k) == Some(v)
    ensures k' != k ==> Get(Put(d, k, v), k') == Get(d, k')
    decreases |d|
  {
    if d != [] && d[0].0 != k {
      PutGet(d[1..], k, v, k');
    }
  }

  /** A key the dictionary does not hold reads as missing. */
  lemma {:induction false} GetAbsent(d: Dict, k: string)
    requires k !in KeysOf(d)
    ensures Get(d, k) == None
    decreases |d|
  {
    if d != [] {
      assert KeysOf(d)[0] == d[0].0;
      assert forall i :: 0 <= i < |d| - 1 ==> KeysOf(d[1..])[i] == KeysOf(d)[i + 1];
      GetAbsent(d[1..], k);
    }
  }

  /** A key the dictionary holds reads as present. */
  lemma {:induction false} GetPresent(d: Dict, k: string)
    requires k in KeysOf(d)
    ensures Get(d, k).Some?
    decreases |d|
  {
    if d[0].0 != k {
      assert KeysOf(d) == [d[0].0] + KeysOf(d[1..]);
      GetPresent(d[1..], k);
    }
  }

  /** Reading a joined dictionary: the first part answers for its own keys, the second for the rest. */
  lemma {:induction false} GetConcat(a: Dict, b: Dict, k: string)
    ensures Get(a + b, k) == if k in KeysOf(a) then Get(a, k) else Get(b, k)
    decreases |a|
  {
    if a == [] {
      assert a + b == b;
    } else {
      assert (a + b)[0] == a[0] && (a + b)[1..] == a[1..] + b;
      assert KeysOf(a) == [a[0].0] + KeysOf(a[1..]);
      GetConcat(a[1..], b, k);
    }
  }

  /** The same, read through lookups only: the first part answers whenever it has an answer. */
  lemma GetJoined(a: Dict, b: Dict, k: string)
    ensures Get(a + b, k) == if Get(a, k).Some? then Get(a, k) else Get(b, k)
  {
    GetConcat(a, b, k);
    if k in KeysOf(a) {
      GetPresent(a, k);
    } else {
      GetAbsent(a, k);
    }
  }

  /** The dictionaries `parts[..n]`, one after the other. */
  function Joined(parts: seq<Dict>, n: nat): Dict
    requires n <= |parts|
  {
    if n == 0 then [] else Joined(parts, n - 1) + parts[n - 1]
  }

  /** A key that no part but `parts[m]` answers is read from `parts[m]`, or is missing when that part is not joined. */
  lemma {:induction false} JoinedGet(parts: seq<Dict>, n: nat, m: nat, k: string)
    requires n <= |parts| && m < |parts|
    requires forall q :: 0 <= q < |parts| && q != m ==> Get(parts[q], k) == None
    ensures Get(Joined(parts, n), k) == if m < n then Get(parts[m], k) else None
    decreases n
  {
    if n > 0 {
      JoinedGet(parts, n - 1, m, k);
      GetJoined(Joined(parts, n - 1), parts[n - 1], k);
    }
  }

  /** No key occurs twice in the entry list. */
  predicate DistinctKeys(d: Dict) {
    forall i, j :: 0 <= i < j < |d| ==> d[i].0 != d[j].0
  }

  /** No key of `a` is a key of `b`. */
  predicate KeysApart(a: Dict, b: Dict) {
    forall i, j :: 0 <= i < |a| && 0 <= j < |b| ==> a[i].0 != b[j].0
  }

  /** Two entry lists with distinct keys and no key in common concatenate to one with distinct keys. */
  lemma ConcatDistinctKeys(a: Dict, b: Dict)
    requires DistinctKeys(a) && DistinctKeys(b) && KeysApart(a, b)
    ensures DistinctKeys(a + b)
  {
    var e := a + b;
    forall i, j | 0 <= i < j < |e| ensures e[i].0 != e[j].0 {
      if j < |a| {
        assert e[i] == a[i] && e[j] == a[j];
      } else if i < |a| {
        assert e[i] == a[i] && e[j] == b[j - |a|];
      } else {
        assert e[i] == b[i - |a|] && e[j] == b[j - |a|];
      }
    }
  }
  /** Every entry of `Joined(parts, n)` is an entry of one of the first `n` parts. */
  lemma {:induction false} JoinedSource(parts: seq<Dict>, n: nat, p: nat) returns (q: nat, x: nat)
    requires n <= |parts| && p < |Joined(parts, n)|
    ensures q < n && x < |parts[q]| && Joined(parts, n)[p] == parts[q][x]
    decreases n
  {
    var a := Joined(parts, n - 1);
    var b := parts[n - 1];
    var e: Dict := a + b;
    if p < |a| {
      q, x := JoinedSource(parts, n - 1, p);
      assert e[p] == a[p];
    } else {
      q, x := n - 1, p - |a|;
      assert e[p] == b[p - |a|];
    }
  }

  /** Every key of `Joined(parts, n)` belongs to one of the first `n` parts. */
  lemma {:induction false} JoinedOwners(parts: seq<Dict>, n: nat, owner: string -> nat)
    requires n <= |parts|
    requires forall q, x :: 0 <= q < |parts| && 0 <= x < |parts[q]| ==> owner(parts[q][x].0) == q
    ensures forall p :: 0 <= p < |Joined(parts, n)| ==> owner(Joined(parts, n)[p].0) < n
    decreases n
  {
    if n > 0 {
      JoinedOwners(parts, n - 1, owner);
      var a := Joined(parts, n - 1);
      var b := parts[n - 1];
      var e: Dict := a + b;
      forall p | 0 <= p < |e| ensures owner(e[p].0) < n {
        if p < |a| {
          assert e[p] == a[p];
        } else {
          assert e[p] == b[p - |a|];
        }
      }
    }
  }

  /** Parts with distinct keys, each key owned by its part, join into a dictionary with distinct keys. */
  lemma {:induction false} JoinedDistinct(parts: seq<Dict>, n: nat, owner: string -> nat)
    requires n <= |parts|
    requires forall q :: 0 <= q < |parts| ==> DistinctKeys(parts[q])
    requires forall q, x :: 0 <= q < |parts| && 0 <= x < |parts[q]| ==> owner(parts[q][x].0) == q
    ensures DistinctKeys(Joined(parts, n))
    decreases n
  {
    if n > 0 {
      var a := Joined(parts, n - 1);
      var b := parts[n - 1];
      JoinedDistinct(parts, n - 1, owner);
      JoinedOwners(parts, n - 1, owner);
      assert KeysApart(a, b) by {
        forall x, y | 0 <= x < |a| && 0 <= y < |b| ensures a[x].0 != b[y].0 {
          assert owner(a[x].0) < n - 1;
          assert owner(b[y].0) == n - 1;
        }
      }
      ConcatDistinctKeys(a, b);
    }
  }


  /** In a dictionary whose keys are distinct, each entry is what its key reads. */
  lemma {:induction false} GetDistinct(d: Dict, p: nat)
    requires p < |d|
    requires DistinctKeys(d)
    ensures Get(d, d[p].0) == Some(d[p].1)
    decreases p
  {
    if p > 0 {
      var t := d[1..];
      assert t[p - 1] == d[p];
      assert DistinctKeys(t) by {
        forall i, j | 0 <= i < j < |t| ensures t[i].0 != t[j].0 {
          assert t[i] == d[i + 1] && t[j] == d[j + 1];
        }
      }
      GetDistinct(t, p - 1);
      assert d[0].0 != d[p].0;
    }
  }

  /** The loop over the metric keys of the UI row builder. */
  function PutMetrics(d: Dict, m: MetricsMap, keys: seq<string>,
                      parse: string -> Option<real>, round: (real, int) -> real): Dict
    decreases |keys|
  {
    if keys == [] then d
    else
      var k := keys[|keys| - 1];
      Put(PutMetrics(d, m, keys[..|keys| - 1], parse, round), k, UiMetricCell(Lookup(m, k), k, parse, round))
  }

  /** `d[k] = v` for each pair in turn. */
  function PutAll(d: Dict, entries: Dict): Dict
    decreases |entries|
  {
    if entries == [] then d else PutAll(Put(d, entries[0].0, entries[0].1), entries[1..])
  }

  /** The four rating columns and the date column of the UI dictionary, in assignment order. */
  function UiFixedEntries(m: MetricsMap, date: Option<string>): Dict {
    var v := RatingCells(m);
    [(RatingHeaders[0], v[0]), (RatingHeaders[1], v[1]), (RatingHeaders[2], v[2]),
     (RatingHeaders[3], v[3]), (DateHeader, UiDateCell(date))]
  }

  /** The UI dictionary of one project (the `ui_row` the fetch loop builds). */
  function UiRow(p: Project, keys: seq<string>,
                 parse: string -> Option<real>, round: (real, int) -> real): Dict {
    var m := MetricsMapOf(p.metrics);
    var d := PutMetrics([("Project Name", Str(p.name)), ("Project Key", Str(p.key))], m, keys, parse, round);
    PutAll(d, UiFixedEntries(m, p.lastAnalysisDate))
  }

  /** Builds the UI dictionary entry by entry. */
  method BuildUiRow(p: Project, keys: seq<string>,
                    parse: string -> Option<real>, round: (real, int) -> real)
    returns (d: Dict)
    ensures d == UiRow(p, keys, parse, round)
  {
    var m := MetricsMapOf(p.metrics);
    d := [("Project Name", Str(p.name)), ("Project Key", Str(p.key))];
    ghost var d0 := d;
    var j := 0;
    while j < |keys|
      invariant 0 <= j <= |keys|
      invariant d == PutMetrics(d0, m, keys[..j], parse, round)
    {
      var value := Lookup(m, keys[j]);
      var target := if keys[j] in UiNumericMetrics then Some(UiNumericMetrics[keys[j]]) else None;
      if target == Some(FloatType) {
        d := Put(d, keys[j], ConvertToNumericOrNA(value, AsFloat(Some(1)), parse, round));
      } else if target == Some(IntType) {
        d := Put(d, keys[j], ConvertToNumericOrNA(value, AsInt, parse, round));
      } else {
        d := Put(d, keys[j], if value.Some? then Str(value.value) else Str(NA));
      }
      assert keys[..j + 1][..j] == keys[..j];
      j := j + 1;
    }
    assert keys[..j] == keys;
    ghost var e := UiFixedEntries(m, p.lastAnalysisDate);
    ghost var goal := PutAll(d, e);
    d := Put(d, "Reliability Rating (A-E)", Str(RatingLetter(Lookup(m, "reliability_rating"))));
    assert goal == PutAll(d, e[1..]);
    d := Put(d, "Security Rating (A-E)", Str(RatingLetter(Lookup(m, "security_rating"))));
    assert goal == PutAll(d, e[2..]);
    d := Put(d, "Maintainability Rating (A-E)", Str(RatingLetter(Lookup(m, "sqale_rating"))));
    assert goal == PutAll(d, e[3..]);
    d := Put(d, "Security Hotspot Rating (A-E)", Str(RatingLetter(Lookup(m, "security_review_rating"))));
    assert goal == PutAll(d, e[4..]);
    d := Put(d, "last_analysis_date", if p.lastAnalysisDate.Some? then Str(p.lastAnalysisDate.value) else Str(NA));
    assert goal == PutAll(d, e[5..]);
  }

  /** Metric keys that are pairwise distinct and distinct from the seven fixed column names. */
  predicate FreshKeys(keys: seq<string>) {
    && (forall i, j :: 0 <= i < j < |keys| ==> keys[i] != keys[j])
    && (forall i :: 0 <= i < |keys| ==> keys[i] !in ["Project Name", "Project Key", DateHeader] + RatingHeaders)
  }

  /** The eleven metric keys the program requests, in the order of its comma-separated key string. */
  const ProgramMetricKeyList: seq<string> :=
    ["alert_status", "ncloc", "bugs", "reliability_rating", "vulnerabilities", "security_rating",
     "security_review_rating", "code_smells", "sqale_rating", "duplicated_lines_density", "coverage"]

  /** The eleven keys are pairwise distinct. */
  lemma ProgramKeysDistinct()
    ensures forall i, j :: 0 <= i < j < |ProgramMetricKeyList| ==> ProgramMetricKeyList[i] != ProgramMetricKeyList[j]
  {
  }

  /** No key is one of the seven fixed column names. */
  lemma ProgramKeysNotFixed()
    ensures forall i :: 0 <= i < |ProgramMetricKeyList| ==>
              ProgramMetricKeyList[i] !in ["Project Name", "Project Key", DateHeader] + RatingHeaders
  {
    var fixed := ["Project Name", "Project Key", DateHeader] + RatingHeaders;
    assert fixed == ["Project Name", "Project Key", "last_analysis_date",
                     "Reliability Rating (A-E)", "Security Rating (A-E)",
                     "Maintainability Rating (A-E)", "Security Hotspot Rating (A-E)"];
  }

  /** The keys the program requests are fresh, so the record-building lemmas above apply to them. */
  lemma ProgramKeysFresh()
    ensures FreshKeys(ProgramMetricKeyList)
  {
    ProgramKeysDistinct();
    ProgramKeysNotFixed();
  }

  /** The comma-separated key string the program hands to populate and to the screen. */
  const ProgramMetricKeys: string := Join(ProgramMetricKeyList, ',')

  /** Splitting the key string at commas gives back the eleven keys, in order. */
  lemma ProgramKeysSplit()
    ensures Split(ProgramMetricKeys, ',') == ProgramMetricKeyList
    ensures FreshKeys(Split(ProgramMetricKeys, ','))
  {
    forall i | 0 <= i < |ProgramMetricKeyList| ensures ',' !in ProgramMetricKeyList[i] {
    }
    JoinSplit(ProgramMetricKeyList, ',');
    ProgramKeysFresh();
  }

  lemma KeysOfAppend(d: Dict, k: string, v: Cell)
    ensures KeysOf(d + [(k, v)]) == KeysOf(d) + [k]
  {
  }

  /** Distinct keys that are new to the dictionary are appended in order. */
  lemma {:induction false} PutMetricsAppends(d: Dict, m: MetricsMap, keys: seq<string>,
                                             parse: string -> Option<real>, round: (real, int) -> real)
    requires forall i, j :: 0 <= i < j < |keys| ==> keys[i] != keys[j]
    requires forall i :: 0 <= i < |keys| ==> keys[i] !in KeysOf(d)
    ensures var r := PutMetrics(d, m, keys, parse, round);
            && |r| == |d| + |keys|
            && r[..|d|] == d
            && KeysOf(r) == KeysOf(d) + keys
            && forall j :: 0 <= j < |keys| ==> r[|d| + j] == (keys[j], UiMetricCell(Lookup(m, keys[j]), keys[j], parse, round))
    decreases |keys|
  {
    if keys != [] {
      var init := keys[..|keys| - 1];
      var k := keys[|keys| - 1];
      PutMetricsAppends(d, m, init, parse, round);
      var prev := PutMetrics(d, m, init, parse, round);
      assert k !in KeysOf(prev) by {
        forall i | 0 <= i < |init| ensures init[i] != k { assert init[i] == keys[i]; }
        assert k !in KeysOf(d);
      }
      var v := UiMetricCell(Lookup(m, k), k, parse, round);
      assert PutMetrics(d, m, keys, parse, round) == prev + [(k, v)];
      KeysOfAppend(prev, k, v);
      assert init + [k] == keys;
    }
  }

  /** A key absent from a dictionary is appended by `Put`, and the key list grows by it. */
  lemma PutFresh(d: Dict, k: string, v: Cell)
    requires k !in KeysOf(d)
    ensures Put(d, k, v) == d + [(k, v)] && KeysOf(Put(d, k, v)) == KeysOf(d) + [k]
  {
    KeysOfAppend(d, k, v);
  }

  lemma KeysOfConcat(a: Dict, b: Dict)
    ensures KeysOf(a + b) == KeysOf(a) + KeysOf(b)
  {
  }

  /** Keys that are distinct and new to the dictionary are appended in order by `PutAll`. */
  lemma {:induction false} PutAllFresh(d: Dict, entries: Dict)
    requires DistinctKeys(entries)
    requires forall i :: 0 <= i < |entries| ==> entries[i].0 !in KeysOf(d)
    ensures PutAll(d, entries) == d + entries
    decreases |entries|
  {
    if entries != [] {
      var e := entries[0];
      PutFresh(d, e.0, e.1);
      var d' := d + [e];
      var rest := entries[1..];
      forall i | 0 <= i < |rest| ensures rest[i].0 !in KeysOf(d') {
        assert rest[i] == entries[i + 1];
      }
      PutAllFresh(d', rest);
      assert entries == [e] + rest;
    }
  }

  /** The seven fixed column names are pairwise distinct. */
  lemma FixedNamesDistinct()
    ensures forall i, j :: 0 <= i < j < 5 ==> (RatingHeaders + [DateHeader])[i] != (RatingHeaders + [DateHeader])[j]
    ensures forall i :: 0 <= i < 5 ==> (RatingHeaders + [DateHeader])[i] !in ["Project Name", "Project Key"]
  {
  }

  /** The UI dictionary is the metric part followed by the four ratings and the date, each appended once. */
  lemma UiRowShape(p: Project, keys: seq<string>,
                   parse: string -> Option<real>, round: (real, int) -> real)
    requires FreshKeys(keys)
    ensures var m := MetricsMapOf(p.metrics);
            var d := PutMetrics([("Project Name", Str(p.name)), ("Project Key", Str(p.key))], m, keys, parse, round);
            && KeysOf(d) == ["Project Name", "Project Key"] + keys
            && UiRow(p, keys, parse, round) == d + UiFixedEntries(m, p.lastAnalysisDate)
  {
    var m := MetricsMapOf(p.metrics);
    var d0: Dict := [("Project Name", Str(p.name)), ("Project Key", Str(p.key))];
    assert KeysOf(d0) == ["Project Name", "Project Key"];
    PutMetricsAppends(d0, m, keys, parse, round);
    var d := PutMetrics(d0, m, keys, parse, round);
    UiFixedFresh(m, p.lastAnalysisDate, keys, KeysOf(d));
    PutAllFresh(d, UiFixedEntries(m, p.lastAnalysisDate));
  }

  /** The five fixed columns have distinct names, none of them a project name, a project key or a metric key. */
  lemma UiFixedFresh(m: MetricsMap, date: Option<string>, keys: seq<string>, present: seq<string>)
    requires FreshKeys(keys) && present == ["Project Name", "Project Key"] + keys
    ensures DistinctKeys(UiFixedEntries(m, date))
    ensures forall i :: 0 <= i < |UiFixedEntries(m, date)| ==> UiFixedEntries(m, date)[i].0 !in present
  {
    var e := UiFixedEntries(m, date);
    var names := RatingHeaders + [DateHeader];
    UiFixedEntriesAt(m, date);
    FixedNamesDistinct();
    forall i, j | 0 <= i < j < |e| ensures e[i].0 != e[j].0 {
      assert e[i].0 == KeysOf(e)[i] && e[j].0 == KeysOf(e)[j];
    }
    forall i | 0 <= i < |e| ensures e[i].0 !in present {
      assert e[i].0 == KeysOf(e)[i];
      assert names[i] !in keys;
    }
  }

  /** The workbook row, column by column. */
  lemma DetailRowAt(p: Project, keys: seq<string>,
                    parse: string -> Option<real>, round: (real, int) -> real)
    ensures var row := DetailRow(p, keys, parse, round);
            var m := MetricsMapOf(p.metrics);
            && |row| == |keys| + 7
            && row[0] == Str(p.name) && row[1] == Str(p.key)
            && (forall j :: 0 <= j < |keys| ==> row[2 + j] == ExcelMetricCell(Lookup(m, keys[j]), keys[j], parse, round))
            && (forall t :: 0 <= t < 4 ==> row[2 + |keys| + t] == RatingCells(m)[t])
            && row[|keys| + 6] == ExcelDateCell(p.lastAnalysisDate)
  {
  }

  lemma UiFixedEntriesAt(m: MetricsMap, date: Option<string>)
    ensures var e := UiFixedEntries(m, date);
            && |e| == 5
            && KeysOf(e) == RatingHeaders + [DateHeader]
            && (forall t :: 0 <= t < 4 ==> e[t].1 == RatingCells(m)[t])
            && e[4].1 == UiDateCell(date)
  {
  }

  /**
   * With distinct metric keys that do not clash with the fixed columns, the UI
   * dictionary has the workbook's columns in the workbook's order and the
   * workbook's values, except that a missing date becomes "N/A".
   */
  lemma UiRowMatchesDetailRow(p: Project, keys: seq<string>,
                              parse: string -> Option<real>, round: (real, int) -> real)
    requires FreshKeys(keys)
    ensures var ui := UiRow(p, keys, parse, round);
            var row := DetailRow(p, keys, parse, round);
            && |ui| == |row| == |Headers(keys)|
            && KeysOf(ui) == Headers(keys)
            && (forall i :: 0 <= i < |row| - 1 ==> ui[i].1 == row[i])
            && ui[|ui| - 1].1 == UiDateCell(p.lastAnalysisDate)
  {
    UiRowKeys(p, keys, parse, round);
    UiRowAt(p, keys, parse, round);
    DetailRowAt(p, keys, parse, round);
    UiCellsMatch(p, keys, parse, round);
  }

  /** The screen's row holds the columns of the header row, in that order. */
  lemma UiRowKeys(p: Project, keys: seq<string>,
                  parse: string -> Option<real>, round: (real, int) -> real)
    requires FreshKeys(keys)
    ensures KeysOf(UiRow(p, keys, parse, round)) == Headers(keys)
  {
    var m := MetricsMapOf(p.metrics);
    var d := PutMetrics([("Project Name", Str(p.name)), ("Project Key", Str(p.key))], m, keys, parse, round);
    var tail := UiFixedEntries(m, p.lastAnalysisDate);
    UiRowShape(p, keys, parse, round);
    UiFixedEntriesAt(m, p.lastAnalysisDate);
    KeysOfConcat(d, tail);
  }

  /** All cells but the date agree between the screen's row and the sheet's row. */
  lemma UiCellsMatch(p: Project, keys: seq<string>,
                     parse: string -> Option<real>, round: (real, int) -> real)
    requires FreshKeys(keys)
    ensures |UiRow(p, keys, parse, round)| == |DetailRow(p, keys, parse, round)| == |keys| + 7
    ensures forall i :: 0 <= i < |keys| + 6 ==> UiRow(p, keys, parse, round)[i].1 == DetailRow(p, keys, parse, round)[i]
  {
    var m := MetricsMapOf(p.metrics);
    UiRowAt(p, keys, parse, round);
    DetailRowAt(p, keys, parse, round);
    var ui := UiRow(p, keys, parse, round);
    var row := DetailRow(p, keys, parse, round);
    forall i | 0 <= i < |keys| + 6 ensures ui[i].1 == row[i] {
      if i < 2 {
      } else if i < |keys| + 2 {
        var j := i - 2;
        assert ui[2 + j].1 == UiMetricCell(Lookup(m, keys[j]), keys[j], parse, round);
        assert row[2 + j] == ExcelMetricCell(Lookup(m, keys[j]), keys[j], parse, round);
        UiConvertsLikeExcel(Lookup(m, keys[j]), keys[j], parse, round);
      } else {
        var t := i - |keys| - 2;
        assert ui[2 + |keys| + t].1 == RatingCells(m)[t] == row[2 + |keys| + t];
      }
    }
  }

  /** The cells of the screen's row, position by position. */
  lemma UiRowAt(p: Project, keys: seq<string>,
                parse: string -> Option<real>, round: (real, int) -> real)
    requires FreshKeys(keys)
    ensures var ui := UiRow(p, keys, parse, round);
            var m := MetricsMapOf(p.metrics);
            && |ui| == |keys| + 7
            && ui[0].1 == Str(p.name) && ui[1].1 == Str(p.key)
            && (forall j :: 0 <= j < |keys| ==> ui[2 + j].1 == UiMetricCell(Lookup(m, keys[j]), keys[j], parse, round))
            && (forall t :: 0 <= t < 4 ==> ui[2 + |keys| + t].1 == RatingCells(m)[t])
            && ui[|keys| + 6].1 == UiDateCell(p.lastAnalysisDate)
  {
    var m := MetricsMapOf(p.metrics);
    var d0: Dict := [("Project Name", Str(p.name)), ("Project Key", Str(p.key))];
    UiRowShape(p, keys, parse, round);
    PutMetricsAppends(d0, m, keys, parse, round);
    UiFixedEntriesAt(m, p.lastAnalysisDate);
    var d := PutMetrics(d0, m, keys, parse, round);
    var tail := UiFixedEntries(m, p.lastAnalysisDate);
    var ui := UiRow(p, keys, parse, round);
    assert ui == d + tail;
    assert ui[0] == d[0] == d0[0] && ui[1] == d[1] == d0[1];
    forall j | 0 <= j < |keys| ensures ui[2 + j].1 == UiMetricCell(Lookup(m, keys[j]), keys[j], parse, round) {
      assert ui[2 + j] == d[|d0| + j];
    }
    forall t | 0 <= t < 5 ensures ui[2 + |keys| + t] == tail[t] {
    }
  }

}
