/**
 * The summary: `generate_summary_data` gathers the counters into a dictionary
 * keyed "<section> - <bucket>", and `add_summary_sheet_to_workbook` lays the
 * same counters out as a fixed 13-row grid with four highlight ranges.
 */
module Summary {
  import opened Wrappers
  import opened Cells
  import opened Normalize
  import opened Records
  import opened Tally
  import opened Workbook
  import opened Counters
  import opened Styles

  /** One block of the summary: its title, the header of the column it counts, and how it buckets. */
  datatype Section = Section(title: string, header: string, dim: Dimension)

  /** The seven blocks, in the order both the dictionary and the grid list them. */
  const Sections: seq<Section> := [
    Section("Quality Gate", "alert_status", QualityGate),
    Section("Test Coverage", "coverage", Coverage),
    Section("Reliability Rating (Bugs)", RatingHeaders[0], Rating),
    Section("Security Rating (Vulnerabilities)", RatingHeaders[1], Rating),
    Section("Maintainability Rating (Code Smells)", RatingHeaders[2], Rating),
    Section("Security Hotspot Rating", RatingHeaders[3], Rating),
    Section("Code Duplication", "duplicated_lines_density", Duplication)
  ]

  const GateDisplays: seq<string> := ["Passed", "Failed", "Not computed"]

  /** The names the buckets are shown under: the gate renames OK, ERROR, N/A; the others show their labels. */
  function Displays(dim: Dimension): (r: seq<string>)
    ensures |r| == |Labels(dim)|
  {
    if dim == QualityGate then GateDisplays else Labels(dim)
  }

  /** The dictionary key of bucket `i` of a section. */
  function KeyOf(s: Section, i: nat): string
    requires i < |Displays(s.dim)|
  {
    s.title + " - " + Displays(s.dim)[i]
  }

  /** The counters of a section in bucket order, as the cells the summary stores. */
  function CountCells(dim: Dimension, counts: map<string, nat>): (r: seq<Cell>)
    requires forall l :: l in Labels(dim) ==> l in counts
    ensures |r| == |Labels(dim)|
    ensures forall i :: 0 <= i < |r| ==> r[i] == IntV(counts[Labels(dim)[i]])
  {
    seq(|Labels(dim)|, i requires 0 <= i < |Labels(dim)| => IntV(counts[Labels(dim)[i]]))
  }

  /** The counter dictionary of a section, or None when its column is missing. */
  function SectionCounts(rows: seq<seq<Cell>>, s: Section): Option<map<string, nat>> {
    match FindColumnIndex(rows, s.header)
    case None => None
    case Some(c) => Some(TallyMap(s.dim, ColumnData(rows, c)))
  }

  /** The dictionary entries of one section, in assignment order. */
  function SectionEntries(rows: seq<seq<Cell>>, s: Section): Dict {
    match SectionCounts(rows, s)
    case None => []
    case Some(m) =>
      var cells := CountCells(s.dim, m);
      seq(|cells|, i requires 0 <= i < |cells| => (KeyOf(s, i), cells[i]))
  }

  /** The entries of the first `n` sections of `secs`, one section after the other. */
  function EntriesOf(rows: seq<seq<Cell>>, secs: seq<Section>, n: nat): Dict
    requires n <= |secs|
  {
    if n == 0 then [] else EntriesOf(rows, secs, n - 1) + SectionEntries(rows, secs[n - 1])
  }

  function FixedEntries(rows: seq<seq<Cell>>, orgName: string): Dict {
    [("Application Name", Str(orgName)), ("Total Repos", IntV(MaxRowOf(rows) - 1))]
  }

  /** Every assignment `generate_summary_data` makes, in order. */
  function SummaryEntries(rows: seq<seq<Cell>>, orgName: string): Dict {
    FixedEntries(rows, orgName) + EntriesOf(rows, Sections, |Sections|)
  }

  lemma {:induction false} PutAllConcat(d: Dict, a: Dict, b: Dict)
    ensures PutAll(d, a + b) == PutAll(PutAll(d, a), b)
    decreases |a|
  {
    if a != [] {
      assert (a + b)[0] == a[0] && (a + b)[1..] == a[1..] + b;
      PutAllConcat(Put(d, a[0].0, a[0].1), a[1..], b);
    } else {
      assert a + b == b;
    }
  }

  /** One counted section: the counters of its column, by the counter of its kind. */
  method CalculateCounts(sheet: Sheet, dim: Dimension, col: nat) returns (counts: map<string, nat>)
    requires col >= 1
    ensures counts == TallyMap(dim, ColumnData(sheet.rows, col))
  {
    match dim
    case QualityGate => counts := CalculateQualityGateCounts(sheet, col);
    case Coverage => counts := CalculateCoverageCounts(sheet, col);
    case Duplication => counts := CalculateDuplicationCounts(sheet, col);
    case Rating => counts := CalculateRatingCounts(sheet, col);
  }

  /** One `if ..._col_index is not None:` block of `generate_summary_data`. */
  method AddSectionData(d: Dict, sheet: Sheet, s: Section) returns (r: Dict)
    ensures r == PutAll(d, SectionEntries(sheet.rows, s))
  {
    var col := FindColumnIndex(sheet.rows, s.header);
    if col.Some? {
      var counts := CalculateCounts(sheet, s.dim, col.value);
      var cells := CountCells(s.dim, counts);
      r := PutAll(d, seq(|cells|, i requires 0 <= i < |cells| => (KeyOf(s, i), cells[i])));
    } else {
      r := d;
    }
  }

  /** The summary dictionary holds the summary entries in assignment order, none overwritten. */
  method GenerateSummaryData(sheet: Sheet, orgName: string) returns (d: Dict)
    ensures d == SummaryEntries(sheet.rows, orgName)
  {
    ghost var rows := sheet.rows;
    d := [];
    d := Put(d, "Application Name", Str(orgName));
    var totalRepos := sheet.MaxRow() - 1;
    d := Put(d, "Total Repos", IntV(totalRepos));
    ghost var d0 := d;
    PutAllFresh([], FixedEntries(rows, orgName));
    assert d0 == PutAll([], FixedEntries(rows, orgName));
    assert d == PutAll(d0, EntriesOf(rows, Sections, 0));
    PutAllConcat(d0, EntriesOf(rows, Sections, 0), SectionEntries(rows, Sections[0]));
    d := AddSectionData(d, sheet, Sections[0]);
    assert d == PutAll(d0, EntriesOf(rows, Sections, 1));
    PutAllConcat(d0, EntriesOf(rows, Sections, 1), SectionEntries(rows, Sections[1]));
    d := AddSectionData(d, sheet, Sections[1]);
    assert d == PutAll(d0, EntriesOf(rows, Sections, 2));
    PutAllConcat(d0, EntriesOf(rows, Sections, 2), SectionEntries(rows, Sections[2]));
    d := AddSectionData(d, sheet, Sections[2]);
    assert d == PutAll(d0, EntriesOf(rows, Sections, 3));
    PutAllConcat(d0, EntriesOf(rows, Sections, 3), SectionEntries(rows, Sections[3]));
    d := AddSectionData(d, sheet, Sections[3]);
    assert d == PutAll(d0, EntriesOf(rows, Sections, 4));
    PutAllConcat(d0, EntriesOf(rows, Sections, 4), SectionEntries(rows, Sections[4]));
    d := AddSectionData(d, sheet, Sections[4]);
    assert d == PutAll(d0, EntriesOf(rows, Sections, 5));
    PutAllConcat(d0, EntriesOf(rows, Sections, 5), SectionEntries(rows, Sections[5]));
    d := AddSectionData(d, sheet, Sections[5]);
    assert d == PutAll(d0, EntriesOf(rows, Sections, 6));
    PutAllConcat(d0, EntriesOf(rows, Sections, 6), SectionEntries(rows, Sections[6]));
    d := AddSectionData(d, sheet, Sections[6]);
    assert d == PutAll(d0, EntriesOf(rows, Sections, 7));
    PutAllConcat([], FixedEntries(rows, orgName), EntriesOf(rows, Sections, |Sections|));
    SummaryKeysDistinct(rows, orgName);
    PutAllFresh([], SummaryEntries(rows, orgName));
  }

  // ----- the dictionary keys are all different -----

  /** Two keys differ when they differ at a position both of them have. */
  lemma DifferAt(a: string, b: string, p: nat)
    requires p < |a| && p < |b| && a[p] != b[p]
    ensures a != b
  {
  }

  /** Two section titles differ at the first letter, or, for the two "Security" sections, at the tenth. */
  lemma TitlesDiffer(j: nat, k: nat)
    requires j < |Sections| && k < |Sections| && j != k
    ensures var p := if {j, k} == {3, 5} then 9 else 0;
            p < |Sections[j].title| && p < |Sections[k].title| && Sections[j].title[p] != Sections[k].title[p]
  {
  }

  /** A key starts with its section title. */
  lemma KeyStartsWithTitle(s: Section, i: nat, p: nat)
    requires i < |Displays(s.dim)| && p < |s.title|
    ensures KeyOf(s, i)[p] == s.title[p]
  {
  }

  /** Keys of two different sections differ. */
  lemma SectionKeysDiffer(j: nat, i: nat, k: nat, i2: nat)
    requires j < |Sections| && k < |Sections| && j != k
    requires i < |Displays(Sections[j].dim)| && i2 < |Displays(Sections[k].dim)|
    ensures KeyOf(Sections[j], i) != KeyOf(Sections[k], i2)
  {
    TitlesDiffer(j, k);
    var p := if {j, k} == {3, 5} then 9 else 0;
    KeyStartsWithTitle(Sections[j], i, p);
    KeyStartsWithTitle(Sections[k], i2, p);
  }

  /** The two fixed keys are not section keys. */
  lemma FixedKeysDiffer(k: nat, i: nat)
    requires k < |Sections| && i < |Displays(Sections[k].dim)|
    ensures KeyOf(Sections[k], i) != "Application Name"
    ensures KeyOf(Sections[k], i) != "Total Repos"
  {
    DifferAt(KeyOf(Sections[k], i), "Application Name", 0);
    DifferAt(KeyOf(Sections[k], i), "Total Repos", if k == 1 then 1 else 0);
  }

  /** Within a section the keys differ because the bucket names do. */
  lemma SameSectionKeysDiffer(s: Section, i: nat, i2: nat)
    requires i < |Displays(s.dim)| && i2 < |Displays(s.dim)| && i != i2
    ensures KeyOf(s, i) != KeyOf(s, i2)
  {
    LabelsDistinct(s.dim);
    var n := |s.title + " - "|;
    assert KeyOf(s, i)[n..] == Displays(s.dim)[i];
    assert KeyOf(s, i2)[n..] == Displays(s.dim)[i2];
  }

  /** A section's entries: none when its column is missing, else one per bucket, in bucket order. */
  lemma SectionEntriesAt(rows: seq<seq<Cell>>, s: Section)
    ensures var b := SectionEntries(rows, s);
            && (SectionCounts(rows, s).None? ==> b == [])
            && (SectionCounts(rows, s).Some? ==>
                  |b| == |Labels(s.dim)| &&
                  forall i :: 0 <= i < |b| ==> b[i] == (KeyOf(s, i), IntV(SectionCounts(rows, s).value[Labels(s.dim)[i]])))
  {
  }

  /** The keys of one section's entries are that section's keys, bucket by bucket. */
  lemma SectionEntriesKeys(rows: seq<seq<Cell>>, s: Section)
    ensures var b := SectionEntries(rows, s);
            |b| <= |Displays(s.dim)| && forall q :: 0 <= q < |b| ==> b[q].0 == KeyOf(s, q)
  {
  }

  /** A (section, bucket) pair whose key is `key`, when there is one. */
  ghost function KeyOwner(secs: seq<Section>, key: string): (nat, nat) {
    if exists j, i :: 0 <= j < |secs| && 0 <= i < |Displays(secs[j].dim)| && KeyOf(secs[j], i) == key then
      var j, i :| 0 <= j < |secs| && 0 <= i < |Displays(secs[j].dim)| && KeyOf(secs[j], i) == key; (j, i)
    else (0, 0)
  }

  /** No two buckets of a run of sections share a key: every key names its own bucket. */
  ghost predicate KeysInjective(secs: seq<Section>) {
    forall j, i :: 0 <= j < |secs| && 0 <= i < |Displays(secs[j].dim)| ==> KeyOwner(secs, KeyOf(secs[j], i)) == (j, i)
  }

  lemma SectionsKeysInjective()
    ensures KeysInjective(Sections)
  {
    forall j, i | 0 <= j < |Sections| && 0 <= i < |Displays(Sections[j].dim)|
      ensures KeyOwner(Sections, KeyOf(Sections[j], i)) == (j, i)
    {
      var (k, i2) := KeyOwner(Sections, KeyOf(Sections[j], i));
      assert 0 <= k < |Sections| && 0 <= i2 < |Displays(Sections[k].dim)| && KeyOf(Sections[k], i2) == KeyOf(Sections[j], i);
      if j != k {
        SectionKeysDiffer(j, i, k, i2);
      } else if i != i2 {
        SameSectionKeysDiffer(Sections[j], i, i2);
      }
    }
  }

  /** Every key in the entries of the first `n` sections is the key of one of their buckets. */
  lemma EntriesKeysFromSections(rows: seq<seq<Cell>>, secs: seq<Section>, n: nat, p: nat) returns (j: nat, i: nat)
    requires n <= |secs| && p < |EntriesOf(rows, secs, n)|
    ensures j < n && i < |Displays(secs[j].dim)| && EntriesOf(rows, secs, n)[p].0 == KeyOf(secs[j], i)
  {
    EntriesJoined(rows, secs, n);
    j, i := JoinedSource(SectionParts(rows, secs), n, p);
    SectionEntriesKeys(rows, secs[j]);
  }


  /** The keys of one section's entries are distinct. */
  lemma SectionKeysDistinct(rows: seq<seq<Cell>>, secs: seq<Section>, n: nat)
    requires n < |secs| && KeysInjective(secs)
    ensures DistinctKeys(SectionEntries(rows, secs[n]))
  {
    SectionEntriesKeys(rows, secs[n]);
  }

  /** The entries of a run of sections with injective keys have distinct keys. */
  lemma EntriesKeysDistinct(rows: seq<seq<Cell>>, secs: seq<Section>, n: nat)
    requires n <= |secs| && KeysInjective(secs)
    ensures DistinctKeys(EntriesOf(rows, secs, n))
  {
    var parts := SectionParts(rows, secs);
    var owner := key => KeyOwner(secs, key).0;
    forall q | 0 <= q < |parts| ensures DistinctKeys(parts[q]) {
      SectionKeysDistinct(rows, secs, q);
    }
    forall q, x | 0 <= q < |parts| && 0 <= x < |parts[q]| ensures owner(parts[q][x].0) == q {
      SectionEntriesKeys(rows, secs[q]);
    }
    JoinedDistinct(parts, n, owner);
    EntriesJoined(rows, secs, n);
  }

  /** The value a section stores under bucket `i`: its counter, or nothing when its column is missing. */
  function SectionValue(rows: seq<seq<Cell>>, s: Section, i: nat): Option<Cell>
    requires i < |Displays(s.dim)|
  {
    match SectionCounts(rows, s)
    case None => None
    case Some(m) => Some(IntV(m[Labels(s.dim)[i]]))
  }

  /** Looking up a bucket key in one section's entries finds the counter exactly when it is that section's key. */
  lemma SectionGet(rows: seq<seq<Cell>>, secs: seq<Section>, k: nat, j: nat, i: nat)
    requires KeysInjective(secs) && k < |secs| && j < |secs| && i < |Displays(secs[j].dim)|
    ensures Get(SectionEntries(rows, secs[k]), KeyOf(secs[j], i)) == if j == k then SectionValue(rows, secs[j], i) else None
  {
    var b := SectionEntries(rows, secs[k]);
    var key := KeyOf(secs[j], i);
    SectionEntriesAt(rows, secs[k]);
    if j == k {
      if SectionCounts(rows, secs[k]).Some? {
        assert b[i].0 == key;
        GetDistinct(b, i);
      }
    } else {
      forall q | 0 <= q < |b| ensures b[q].0 != key {
        assert b[q].0 == KeyOf(secs[k], q);
      }
      GetAbsent(b, key);
    }
  }

  /** The entries of each section of `secs`, section by section. */
  function SectionParts(rows: seq<seq<Cell>>, secs: seq<Section>): (p: seq<Dict>)
    ensures |p| == |secs| && forall k :: 0 <= k < |secs| ==> p[k] == SectionEntries(rows, secs[k])
  {
    seq(|secs|, k requires 0 <= k < |secs| => SectionEntries(rows, secs[k]))
  }

  /** The entries of the first `n` sections are their parts joined. */
  lemma {:induction false} EntriesJoined(rows: seq<seq<Cell>>, secs: seq<Section>, n: nat)
    requires n <= |secs|
    ensures EntriesOf(rows, secs, n) == Joined(SectionParts(rows, secs), n)
    decreases n
  {
    if n > 0 {
      var parts := SectionParts(rows, secs);
      EntriesJoined(rows, secs, n - 1);
      assert Joined(parts, n) == Joined(parts, n - 1) + parts[n - 1];
      assert parts[n - 1] == SectionEntries(rows, secs[n - 1]);
    }
  }

  /** Looking up a bucket key in the entries of the first `n` sections. */
  lemma EntriesGet(rows: seq<seq<Cell>>, secs: seq<Section>, n: nat, j: nat, i: nat)
    requires KeysInjective(secs) && n <= |secs| && j < |secs| && i < |Displays(secs[j].dim)|
    ensures Get(EntriesOf(rows, secs, n), KeyOf(secs[j], i)) == if j < n then SectionValue(rows, secs[j], i) else None
  {
    var parts := SectionParts(rows, secs);
    var key := KeyOf(secs[j], i);
    forall q | 0 <= q < |parts| && q != j
      ensures Get(parts[q], key) == None
    {
      SectionGet(rows, secs, q, j, i);
    }
    JoinedGet(parts, n, j, key);
    SectionGet(rows, secs, j, j, i);
    EntriesJoined(rows, secs, n);
  }

  /** The keys of the whole summary are pairwise distinct. */
  lemma SummaryKeysDistinct(rows: seq<seq<Cell>>, orgName: string)
    ensures DistinctKeys(SummaryEntries(rows, orgName))
  {
    var f := FixedEntries(rows, orgName);
    var s := EntriesOf(rows, Sections, |Sections|);
    SectionsKeysInjective();
    EntriesKeysDistinct(rows, Sections, |Sections|);
    forall q | 0 <= q < |s| ensures s[q].0 != "Application Name" && s[q].0 != "Total Repos" {
      var k, i := EntriesKeysFromSections(rows, Sections, |Sections|, q);
      FixedKeysDiffer(k, i);
    }
    ConcatDistinctKeys(f, s);
  }

  /**
   * The dictionary `generate_summary_data` returns: the organisation, `max_row - 1`,
   * and under each bucket key of a section whose column exists, that bucket's counter.
   */
  lemma SummaryLookups(rows: seq<seq<Cell>>, orgName: string)
    ensures Get(SummaryEntries(rows, orgName), "Application Name") == Some(Str(orgName))
    ensures Get(SummaryEntries(rows, orgName), "Total Repos") == Some(IntV(MaxRowOf(rows) - 1))
    ensures forall k, i :: 0 <= k < |Sections| && 0 <= i < |Displays(Sections[k].dim)| ==>
              Get(SummaryEntries(rows, orgName), KeyOf(Sections[k], i)) == SectionValue(rows, Sections[k], i)
  {
    var f := FixedEntries(rows, orgName);
    var s := EntriesOf(rows, Sections, |Sections|);
    SectionsKeysInjective();
    forall k, i | 0 <= k < |Sections| && 0 <= i < |Displays(Sections[k].dim)|
      ensures Get(f + s, KeyOf(Sections[k], i)) == SectionValue(rows, Sections[k], i)
    {
      FixedKeysDiffer(k, i);
      GetConcat(f, s, KeyOf(Sections[k], i));
      EntriesGet(rows, Sections, |Sections|, k, i);
    }
  }

  /** ... and nothing else: every key it holds is a fixed key or a bucket key. */
  lemma SummaryKeys(rows: seq<seq<Cell>>, orgName: string, p: nat)
    requires p < |SummaryEntries(rows, orgName)|
    ensures var key := SummaryEntries(rows, orgName)[p].0;
            key == "Application Name" || key == "Total Repos" ||
            exists k, i :: 0 <= k < |Sections| && 0 <= i < |Displays(Sections[k].dim)| && key == KeyOf(Sections[k], i)
  {
    if p >= 2 {
      var s := EntriesOf(rows, Sections, |Sections|);
      assert SummaryEntries(rows, orgName)[p] == s[p - 2];
      var k, i := EntriesKeysFromSections(rows, Sections, |Sections|, p - 2);
    }
  }

  // ----- the counters add up to the number of projects -----

  /** The sum of a section's counters, 0 when its column is missing. */
  function SectionTotal(rows: seq<seq<Cell>>, s: Section): nat {
    match SectionCounts(rows, s)
    case None => 0
    case Some(m) => SumValues(m, Labels(s.dim))
  }

  /**
   * A section's counters add up to at most `total_repos`, and exactly to it for the
   * quality gate, coverage and duplication, whose every value falls in some bucket.
   */
  lemma SectionCountsTotal(rows: seq<seq<Cell>>, s: Section)
    ensures SectionTotal(rows, s) <= MaxRowOf(rows) - 1
    ensures s.dim != Rating && SectionCounts(rows, s).Some? ==> SectionTotal(rows, s) == MaxRowOf(rows) - 1
  {
    if FindColumnIndex(rows, s.header).Some? {
      var c := FindColumnIndex(rows, s.header).value;
      ColumnDataLength(rows, c);
      TallyTotal(s.dim, ColumnData(rows, c));
    }
  }

  /** On a sheet headed by `create_headers`, a rating header no metric key repeats is found at its own column. */
  lemma RatingColumnFound(rows: seq<seq<Cell>>, keys: seq<string>, t: nat)
    requires rows != [] && rows[0] == HeaderCells(Headers(keys)) && t < 4
    requires forall j :: 0 <= j < |keys| ==> keys[j] != RatingHeaders[t]
    ensures FindColumnIndex(rows, RatingHeaders[t]) == Some(|keys| + 3 + t)
  {
    var h := Headers(keys);
    var name := RatingHeaders[t];
    var at := |keys| + 2 + t;
    assert h[at] == name;
    FixedNamesDistinct();
    forall j | 0 <= j < at ensures HeaderOf(rows)[j] != Str(name) {
      if j < 2 {
        assert (RatingHeaders + [DateHeader])[t] == name;
      } else if j < |keys| + 2 {
        assert h[j] == keys[j - 2];
      } else {
        assert h[j] == (RatingHeaders + [DateHeader])[j - |keys| - 2];
        assert (RatingHeaders + [DateHeader])[t] == name;
      }
    }
    assert HeaderOf(rows)[at] == Str(name);
  }

  /** Sections 2 to 5 count the four rating columns, in header order. */
  lemma RatingSection(t: nat)
    requires t < 4
    ensures Sections[2 + t].header == RatingHeaders[t] && Sections[2 + t].dim == Rating
  {
  }

  /** A rating column whose every data cell is a letter or "N/A" is counted in full. */
  lemma LetterColumnTotal(rows: seq<seq<Cell>>, s: Section, c: nat)
    requires s.dim == Rating && FindColumnIndex(rows, s.header) == Some(c)
    requires forall i :: 1 <= i < |rows| ==> var cell := CellAt(rows[i], c - 1); cell.Str? && cell.s in RatingLetters
    ensures SectionCounts(rows, s).Some? && SectionTotal(rows, s) == MaxRowOf(rows) - 1
  {
    var vals := ColumnData(rows, c);
    ColumnDataLength(rows, c);
    forall i | 0 <= i < |vals| ensures vals[i].Str? && vals[i].s in RatingLetters {
      ColumnDataAt(rows, c, i + 2);
    }
    TallyTotal(Rating, vals);
  }

  /** Under the headers `create_headers` builds, a rating column of letters is counted in full. */
  lemma RatingSectionTotal(rows: seq<seq<Cell>>, keys: seq<string>, t: nat)
    requires rows != [] && rows[0] == HeaderCells(Headers(keys)) && t < 4
    requires forall j :: 0 <= j < |keys| ==> keys[j] != RatingHeaders[t]
    requires forall i :: 1 <= i < |rows| ==> var cell := CellAt(rows[i], |keys| + 2 + t); cell.Str? && cell.s in RatingLetters
    ensures SectionCounts(rows, Sections[2 + t]).Some? && SectionTotal(rows, Sections[2 + t]) == MaxRowOf(rows) - 1
  {
    RatingSection(t);
    RatingColumnTotal(rows, keys, t, Sections[2 + t]);
  }

  /** A rating column found right after the metric columns is counted in full, whichever section names it. */
  lemma RatingColumnTotal(rows: seq<seq<Cell>>, keys: seq<string>, t: nat, s: Section)
    requires rows != [] && rows[0] == HeaderCells(Headers(keys)) && t < 4
    requires forall j :: 0 <= j < |keys| ==> keys[j] != RatingHeaders[t]
    requires forall i :: 1 <= i < |rows| ==> var cell := CellAt(rows[i], |keys| + 2 + t); cell.Str? && cell.s in RatingLetters
    requires s.header == RatingHeaders[t] && s.dim == Rating
    ensures SectionCounts(rows, s).Some? && SectionTotal(rows, s) == MaxRowOf(rows) - 1
  {
    var c := |keys| + 3 + t;
    RatingColumnFound(rows, keys, t);
    assert c - 1 == |keys| + 2 + t;
    LetterColumnTotal(rows, s, c);
  }

  /** The sheet `populate_sheet_with_data` fills: the header row, then one row per project. */
  function FilledRows(projects: seq<Project>, keys: seq<string>,
                      parse: string -> Option<real>, round: (real, int) -> real): seq<seq<Cell>> {
    [HeaderCells(Headers(keys))] + DetailRows(projects, keys, parse, round)
  }

  /** Every data row of a filled sheet holds a letter or "N/A" in each rating column. */
  lemma FilledRatingCells(projects: seq<Project>, keys: seq<string>,
                          parse: string -> Option<real>, round: (real, int) -> real, t: nat)
    requires t < 4
    ensures forall i :: 1 <= i < |FilledRows(projects, keys, parse, round)| ==>
              var cell := CellAt(FilledRows(projects, keys, parse, round)[i], |keys| + 2 + t);
              cell.Str? && cell.s in RatingLetters
  {
    var rows := FilledRows(projects, keys, parse, round);
    forall i | 1 <= i < |rows|
      ensures CellAt(rows[i], |keys| + 2 + t).Str? && CellAt(rows[i], |keys| + 2 + t).s in RatingLetters
    {
      assert rows[i] == DetailRow(projects[i - 1], keys, parse, round);
      DetailRowAt(projects[i - 1], keys, parse, round);
    }
  }

  /**
   * On a sheet filled by `populate_sheet_with_data`, `total_repos` is the number of
   * projects and each rating section's counters add up to it.
   */
  lemma FilledRatingTotal(projects: seq<Project>, keys: seq<string>,
                          parse: string -> Option<real>, round: (real, int) -> real, t: nat)
    requires t < 4
    requires forall j :: 0 <= j < |keys| ==> keys[j] != RatingHeaders[t]
    ensures MaxRowOf(FilledRows(projects, keys, parse, round)) - 1 == |projects|
    ensures SectionCounts(FilledRows(projects, keys, parse, round), Sections[2 + t]).Some?
    ensures SectionTotal(FilledRows(projects, keys, parse, round), Sections[2 + t]) == |projects|
  {
    var rows := FilledRows(projects, keys, parse, round);
    assert |rows| == |projects| + 1 && rows[0] == HeaderCells(Headers(keys));
    FilledRatingCells(projects, keys, parse, round, t);
    RatingSectionTotal(rows, keys, t);
  }
}
