/**
 * The single-column bucket counters of the summary: which label each cell of
 * the column is counted under, and the counter dictionaries that result.
 */
module Tally {
  import opened Wrappers
  import opened Cells
  import opened Normalize
  import opened Multisets

  /** The four counters: quality gate, test coverage, code duplication and a letter rating. */
  datatype Dimension = QualityGate | Coverage | Duplication | Rating

  const GateLabels: seq<string> := ["OK", "ERROR", NA]
  const CoverageLabels: seq<string> := ["< 10%", "10% - 30%", "30% - 50%", "50% - 80%", "> 80%", NA]
  const DuplicationLabels: seq<string> := ["< 3%", "3% - 5%", "5% - 10%", "10% - 20%", "> 20%", NA]
  const CoverageBounds: seq<real> := [10.0, 30.0, 50.0, 80.0]
  const DuplicationBounds: seq<real> := [3.0, 5.0, 10.0, 20.0]

  /** The keys of the counter dictionary, in the order the source lists them. */
  function Labels(dim: Dimension): seq<string> {
    match dim
    case QualityGate => GateLabels
    case Coverage => CoverageLabels
    case Duplication => DuplicationLabels
    case Rating => RatingLetters
  }

  predicate Increasing(bounds: seq<real>) {
    forall i, j :: 0 <= i < j < |bounds| ==> bounds[i] < bounds[j]
  }

  /** The number of bounds a value has reached: the index of its half-open band. */
  function Band(bounds: seq<real>, x: real): (i: nat)
    ensures i <= |bounds|
    decreases |bounds|
  {
    if bounds == [] || x < bounds[0] then 0 else 1 + Band(bounds[1..], x)
  }

  /** `x` lies in band `i`: at or above the `i`-th bound (if any) and below the next one (if any). */
  predicate InBand(bounds: seq<real>, x: real, i: nat)
    requires i <= |bounds|
  {
    (i == 0 || bounds[i - 1] <= x) && (i == |bounds| || x < bounds[i])
  }

  lemma {:induction false} BandIsInBand(bounds: seq<real>, x: real)
    requires Increasing(bounds)
    ensures InBand(bounds, x, Band(bounds, x))
    decreases |bounds|
  {
    if bounds != [] && x >= bounds[0] {
      var rest := bounds[1..];
      assert Increasing(rest) by {
        forall i, j | 0 <= i < j < |rest| ensures rest[i] < rest[j] {
          assert rest[i] == bounds[i + 1] && rest[j] == bounds[j + 1];
        }
      }
      BandIsInBand(rest, x);
    }
  }

  /** The bands partition the reals: a value lies in exactly one, the one `Band` names. */
  lemma BandUnique(bounds: seq<real>, x: real, i: nat)
    requires Increasing(bounds) && i <= |bounds|
    ensures InBand(bounds, x, i) <==> Band(bounds, x) == i
  {
    BandIsInBand(bounds, x);
  }

  /** The label a cell is counted under, or None when the counter skips it. */
  function BucketOf(dim: Dimension, v: Cell): Option<string> {
    match dim
    case QualityGate =>
      Some(if v == Str("OK") then "OK" else if v == Str("ERROR") then "ERROR" else NA)
    case Coverage =>
      Some(if IsNumber(v) then CoverageLabels[Band(CoverageBounds, NumberOf(v))] else NA)
    case Duplication =>
      Some(if IsNumber(v) then DuplicationLabels[Band(DuplicationBounds, NumberOf(v))] else NA)
    case Rating =>
      if v.Str? && v.s in RatingLetters then Some(v.s) else None
  }

  /** How many of `vals` are counted under `l`. */
  function CountLabel(dim: Dimension, vals: seq<Cell>, l: string): nat
    decreases |vals|
  {
    if vals == [] then 0
    else CountLabel(dim, vals[..|vals| - 1], l) + (if BucketOf(dim, vals[|vals| - 1]) == Some(l) then 1 else 0)
  }

  /** The counter dictionary after the loop over `vals`. */
  function TallyMap(dim: Dimension, vals: seq<Cell>): map<string, nat> {
    map l | l in Labels(dim) :: CountLabel(dim, vals, l)
  }

  /** The counter dictionary before the loop: every label at zero. */
  lemma TallyEmpty(dim: Dimension)
    ensures TallyMap(dim, []) == map l | l in Labels(dim) :: 0
  {
  }

  /** One more value adds one to the count of its own label and to no other. */
  lemma CountLabelSnoc(dim: Dimension, vals: seq<Cell>, v: Cell, l: string)
    ensures CountLabel(dim, vals + [v], l) == CountLabel(dim, vals, l) + (if BucketOf(dim, v) == Some(l) then 1 else 0)
  {
    assert (vals + [v])[..|vals|] == vals;
  }

  /** A map that agrees with `before` but for one more at `b` is `before` with `b` bumped. */
  lemma BumpedMap(before: map<string, nat>, after: map<string, nat>, b: Option<string>)
    requires after.Keys == before.Keys
    requires forall l :: l in after ==> after[l] == before[l] + (if b == Some(l) then 1 else 0)
    ensures after == if b.Some? && b.value in before then before[b.value := before[b.value] + 1] else before
  {
  }

  /** One more value bumps the counter of its label, if it has one, and nothing else. */
  lemma TallyStep(dim: Dimension, vals: seq<Cell>, v: Cell)
    ensures var before := TallyMap(dim, vals);
            var b := BucketOf(dim, v);
            TallyMap(dim, vals + [v])
              == if b.Some? && b.value in Labels(dim) then before[b.value := before[b.value] + 1] else before
  {
    var before := TallyMap(dim, vals);
    var after := TallyMap(dim, vals + [v]);
    forall l | l in after ensures after[l] == before[l] + (if BucketOf(dim, v) == Some(l) then 1 else 0) {
      CountLabelSnoc(dim, vals, v, l);
    }
    BumpedMap(before, after, BucketOf(dim, v));
  }

  /** A value counted under `l` bumps exactly the counter of `l`. */
  lemma TallyBump(dim: Dimension, counts: map<string, nat>, vals: seq<Cell>, v: Cell, l: string)
    requires counts == TallyMap(dim, vals)
    requires BucketOf(dim, v) == Some(l) && l in Labels(dim)
    ensures l in counts && TallyMap(dim, vals + [v]) == counts[l := counts[l] + 1]
  {
    TallyStep(dim, vals, v);
  }

  /** Every label the counters produce is a key of the dictionary, and only ratings are ever skipped. */
  lemma BucketInLabels(dim: Dimension, v: Cell)
    ensures BucketOf(dim, v).Some? ==> BucketOf(dim, v).value in Labels(dim)
    ensures dim != Rating ==> BucketOf(dim, v).Some?
  {
  }

  /** Only the literal strings "OK" and "ERROR" count as passed and failed; everything else is "N/A". */
  lemma GateBuckets(v: Cell)
    ensures BucketOf(QualityGate, v) == Some("OK") <==> v == Str("OK")
    ensures BucketOf(QualityGate, v) == Some("ERROR") <==> v == Str("ERROR")
    ensures BucketOf(QualityGate, v) == Some(NA) <==> v != Str("OK") && v != Str("ERROR")
  {
  }

  lemma CoverageBoundsIncreasing()
    ensures Increasing(CoverageBounds)
  {
  }

  lemma DuplicationBoundsIncreasing()
    ensures Increasing(DuplicationBounds)
  {
  }

  /** Coverage: each number is in exactly one of <10, [10,30), [30,50), [50,80), >=80; anything else is "N/A". */
  lemma CoverageBuckets(v: Cell)
    ensures BucketOf(Coverage, v) == Some("< 10%") <==> IsNumber(v) && NumberOf(v) < 10.0
    ensures BucketOf(Coverage, v) == Some("10% - 30%") <==> IsNumber(v) && 10.0 <= NumberOf(v) < 30.0
    ensures BucketOf(Coverage, v) == Some("30% - 50%") <==> IsNumber(v) && 30.0 <= NumberOf(v) < 50.0
    ensures BucketOf(Coverage, v) == Some("50% - 80%") <==> IsNumber(v) && 50.0 <= NumberOf(v) < 80.0
    ensures BucketOf(Coverage, v) == Some("> 80%") <==> IsNumber(v) && 80.0 <= NumberOf(v)
    ensures BucketOf(Coverage, v) == Some(NA) <==> !IsNumber(v)
  {
    if IsNumber(v) {
      var x := NumberOf(v);
      CoverageBoundsIncreasing();
      BandUnique(CoverageBounds, x, 0);
      BandUnique(CoverageBounds, x, 1);
      BandUnique(CoverageBounds, x, 2);
      BandUnique(CoverageBounds, x, 3);
      BandUnique(CoverageBounds, x, 4);
    }
  }

  /** Duplication: each number is in exactly one of <3, [3,5), [5,10), [10,20), >=20; anything else is "N/A". */
  lemma DuplicationBuckets(v: Cell)
    ensures BucketOf(Duplication, v) == Some("< 3%") <==> IsNumber(v) && NumberOf(v) < 3.0
    ensures BucketOf(Duplication, v) == Some("3% - 5%") <==> IsNumber(v) && 3.0 <= NumberOf(v) < 5.0
    ensures BucketOf(Duplication, v) == Some("5% - 10%") <==> IsNumber(v) && 5.0 <= NumberOf(v) < 10.0
    ensures BucketOf(Duplication, v) == Some("10% - 20%") <==> IsNumber(v) && 10.0 <= NumberOf(v) < 20.0
    ensures BucketOf(Duplication, v) == Some("> 20%") <==> IsNumber(v) && 20.0 <= NumberOf(v)
    ensures BucketOf(Duplication, v) == Some(NA) <==> !IsNumber(v)
  {
    if IsNumber(v) {
      var x := NumberOf(v);
      DuplicationBoundsIncreasing();
      BandUnique(DuplicationBounds, x, 0);
      BandUnique(DuplicationBounds, x, 1);
      BandUnique(DuplicationBounds, x, 2);
      BandUnique(DuplicationBounds, x, 3);
      BandUnique(DuplicationBounds, x, 4);
    }
  }

  /** Ratings: a value is counted iff it is one of the six label strings, and then under itself. */
  lemma RatingBuckets(v: Cell, l: string)
    requires l in RatingLetters
    ensures BucketOf(Rating, v) == Some(l) <==> v == Str(l)
    ensures BucketOf(Rating, v).None? <==> !(v.Str? && v.s in RatingLetters)
  {
  }

  // ----- Totals -----

  predicate Distinct(ls: seq<string>) {
    forall i, j :: 0 <= i < j < |ls| ==> ls[i] != ls[j]
  }

  lemma LabelsDistinct(dim: Dimension)
    ensures Distinct(Labels(dim))
  {
  }

  /** The counters of `ls` added up. */
  function SumCounts(dim: Dimension, vals: seq<Cell>, ls: seq<string>): nat
    decreases |ls|
  {
    if ls == [] then 0 else CountLabel(dim, vals, ls[0]) + SumCounts(dim, vals, ls[1..])
  }

  /** The values of a dictionary over the keys `ls`, added up. */
  function SumValues(m: map<string, nat>, ls: seq<string>): nat
    requires forall l :: l in ls ==> l in m
    decreases |ls|
  {
    if ls == [] then 0 else m[ls[0]] + SumValues(m, ls[1..])
  }

  /** How many of `vals` are counted under some label of `ls`. */
  function CountedIn(dim: Dimension, vals: seq<Cell>, ls: seq<string>): nat
    decreases |vals|
  {
    if vals == [] then 0
    else
      var b := BucketOf(dim, vals[|vals| - 1]);
      CountedIn(dim, vals[..|vals| - 1], ls) + (if b.Some? && b.value in ls then 1 else 0)
  }

  /** Over distinct labels, the indicator "`b` is label `l`" adds up to "`b` is one of the labels". */
  function Indicators(b: Option<string>, ls: seq<string>): nat
    decreases |ls|
  {
    if ls == [] then 0 else (if b == Some(ls[0]) then 1 else 0) + Indicators(b, ls[1..])
  }

  lemma {:induction false} IndicatorsDistinct(b: Option<string>, ls: seq<string>)
    requires Distinct(ls)
    ensures Indicators(b, ls) == if b.Some? && b.value in ls then 1 else 0
    decreases |ls|
  {
    if ls != [] {
      var rest := ls[1..];
      assert Distinct(rest) by {
        forall i, j | 0 <= i < j < |rest| ensures rest[i] != rest[j] {
          assert rest[i] == ls[i + 1] && rest[j] == ls[j + 1];
        }
      }
      IndicatorsDistinct(b, rest);
      if b == Some(ls[0]) {
        assert b.value !in rest by {
          forall i | 0 <= i < |rest| ensures rest[i] != ls[0] {
            assert rest[i] == ls[i + 1];
          }
        }
      }
      assert ls == [ls[0]] + rest;
    }
  }

  lemma {:induction false} SumCountsStep(dim: Dimension, vals: seq<Cell>, ls: seq<string>)
    requires vals != []
    ensures SumCounts(dim, vals, ls)
         == SumCounts(dim, vals[..|vals| - 1], ls) + Indicators(BucketOf(dim, vals[|vals| - 1]), ls)
    decreases |ls|
  {
    if ls != [] {
      SumCountsStep(dim, vals, ls[1..]);
    }
  }

  lemma {:induction false} SumCountsCounted(dim: Dimension, vals: seq<Cell>, ls: seq<string>)
    requires Distinct(ls)
    ensures SumCounts(dim, vals, ls) == CountedIn(dim, vals, ls)
    decreases |vals|
  {
    if vals == [] {
      SumCountsZero(dim, ls);
    } else {
      SumCountsCounted(dim, vals[..|vals| - 1], ls);
      SumCountsStep(dim, vals, ls);
      IndicatorsDistinct(BucketOf(dim, vals[|vals| - 1]), ls);
    }
  }

  lemma {:induction false} SumCountsZero(dim: Dimension, ls: seq<string>)
    ensures SumCounts(dim, [], ls) == 0
    decreases |ls|
  {
    if ls != [] {
      SumCountsZero(dim, ls[1..]);
    }
  }

  lemma {:induction false} CountedInBound(dim: Dimension, vals: seq<Cell>, ls: seq<string>)
    ensures CountedIn(dim, vals, ls) <= |vals|
    ensures (forall i :: 0 <= i < |vals| ==> BucketOf(dim, vals[i]).Some? && BucketOf(dim, vals[i]).value in ls)
            ==> CountedIn(dim, vals, ls) == |vals|
    decreases |vals|
  {
    if vals != [] {
      var init := vals[..|vals| - 1];
      assert forall i :: 0 <= i < |init| ==> init[i] == vals[i];
      CountedInBound(dim, init, ls);
    }
  }

  lemma {:induction false} SumValuesTally(dim: Dimension, vals: seq<Cell>, ls: seq<string>)
    requires forall l :: l in ls ==> l in Labels(dim)
    ensures SumValues(TallyMap(dim, vals), ls) == SumCounts(dim, vals, ls)
    decreases |ls|
  {
    if ls != [] {
      SumValuesTally(dim, vals, ls[1..]);
    }
  }

  /**
   * The counters add up to the number of values for the quality gate,
   * coverage and duplication; for ratings they add up to the number of values
   * that are one of the six labels, so never more than the number of values,
   * and all of them when every value is a rating letter or "N/A".
   */
  lemma TallyTotal(dim: Dimension, vals: seq<Cell>)
    ensures SumValues(TallyMap(dim, vals), Labels(dim)) <= |vals|
    ensures dim != Rating ==> SumValues(TallyMap(dim, vals), Labels(dim)) == |vals|
    ensures (forall i :: 0 <= i < |vals| ==> vals[i].Str? && vals[i].s in RatingLetters)
            ==> SumValues(TallyMap(dim, vals), Labels(dim)) == |vals|
  {
    SumValuesTally(dim, vals, Labels(dim));
    LabelsDistinct(dim);
    SumCountsCounted(dim, vals, Labels(dim));
    forall v | true ensures BucketOf(dim, v).Some? ==> BucketOf(dim, v).value in Labels(dim) {
      BucketInLabels(dim, v);
    }
    if dim != Rating {
      forall i | 0 <= i < |vals| ensures BucketOf(dim, vals[i]).Some? {
        BucketInLabels(dim, vals[i]);
      }
    }
    if forall i :: 0 <= i < |vals| ==> vals[i].Str? && vals[i].s in RatingLetters {
      forall i | 0 <= i < |vals| ensures BucketOf(dim, vals[i]).Some? {
        BucketInLabels(dim, vals[i]);
      }
    }
    CountedInBound(dim, vals, Labels(dim));
  }

  lemma GateCountsSnoc(vals: seq<Cell>, v: Cell)
    ensures forall l :: l in GateLabels ==>
              CountLabel(QualityGate, vals + [v], l)
              == CountLabel(QualityGate, vals, l) + (if BucketOf(QualityGate, v) == Some(l) then 1 else 0)
  {
    assert (vals + [v])[..|vals|] == vals;
  }

  /** OK, OK, ERROR, an unknown status and an empty cell: two passed, one failed, two not computed. */
  lemma GateExample()
    ensures var t := TallyMap(QualityGate, [Str("OK"), Str("OK"), Str("ERROR"), Str("garbage"), Blank]);
            t["OK"] == 2 && t["ERROR"] == 1 && t[NA] == 2
  {
    var p0: seq<Cell> := [];
    GateCountsSnoc(p0, Str("OK"));
    var p1 := p0 + [Str("OK")];
    GateCountsSnoc(p1, Str("OK"));
    var p2 := p1 + [Str("OK")];
    GateCountsSnoc(p2, Str("ERROR"));
    var p3 := p2 + [Str("ERROR")];
    GateCountsSnoc(p3, Str("garbage"));
    var p4 := p3 + [Str("garbage")];
    GateCountsSnoc(p4, Blank);
    var p5 := p4 + [Blank];
    assert p5 == [Str("OK"), Str("OK"), Str("ERROR"), Str("garbage"), Blank];
    assert CountLabel(QualityGate, p5, "OK") == 2;
    assert CountLabel(QualityGate, p5, "ERROR") == 1;
    assert CountLabel(QualityGate, p5, NA) == 2;
  }

  /** Counting is additive over concatenation. */
  lemma {:induction false} CountLabelConcat(dim: Dimension, a: seq<Cell>, b: seq<Cell>, l: string)
    ensures CountLabel(dim, a + b, l) == CountLabel(dim, a, l) + CountLabel(dim, b, l)
    decreases |b|
  {
    if b == [] {
      assert a + b == a;
    } else {
      assert (a + b)[..|a + b| - 1] == a + b[..|b| - 1];
      CountLabelConcat(dim, a, b[..|b| - 1], l);
    }
  }

  /** The order of the values does not matter: a permutation has the same counts. */
  lemma {:induction false} CountLabelPermutation(dim: Dimension, a: seq<Cell>, b: seq<Cell>, l: string)
    requires multiset(a) == multiset(b)
    ensures CountLabel(dim, a, l) == CountLabel(dim, b, l)
    decreases |a|
  {
    if a == [] {
      assert |b| == |multiset(b)| == 0;
    } else {
      var front := a[..|a| - 1];
      var j := RemoveLast(a, b);
      var x := b[j];
      var rest := b[..j] + b[j + 1..];
      CountLabelPermutation(dim, front, rest, l);
      CountLabelConcat(dim, front, [x], l);
      CountLabelConcat(dim, b[..j] + [x], b[j + 1..], l);
      CountLabelConcat(dim, b[..j], [x], l);
      CountLabelConcat(dim, b[..j], b[j + 1..], l);
    }
  }

  lemma TallyMapPermutation(dim: Dimension, a: seq<Cell>, b: seq<Cell>)
    requires multiset(a) == multiset(b)
    ensures TallyMap(dim, a) == TallyMap(dim, b)
  {
    forall l | l in Labels(dim) ensures CountLabel(dim, a, l) == CountLabel(dim, b, l) {
      CountLabelPermutation(dim, a, b, l);
    }
  }
}
