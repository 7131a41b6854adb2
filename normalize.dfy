/**
 * Value normalisation (`convert_to_numeric_or_na`) and the translation of
 * numeric rating codes into letter grades (`RATING_MAP`).
 */
module Normalize {
  import opened Wrappers
  import opened Text
  import opened Cells

  /** The `as_type` / `decimal_places` arguments of `convert_to_numeric_or_na`. */
  datatype Conversion = AsInt | AsFloat(decimalPlaces: Option<int>) | NoConversion

  /** `str(value).strip().upper() == "N/A"`. */
  predicate IsNA(s: string) {
    Upper(Strip(s)) == NA
  }

  /** "N/A" itself reads as unavailable. */
  lemma NAIsNA()
    ensures IsNA(NA)
  {
    assert NA[0] == 'N' && NA[|NA| - 1] == 'A' && !IsSpace('N') && !IsSpace('A');
    assert StripLeft(NA) == NA;
    assert StripRight(NA) == NA;
    assert Upper(NA) == [UpperChar(NA[0]), UpperChar(NA[1]), UpperChar(NA[2])];
  }

  /** Exactly the strings n/a, N/a, n/A and N/A, with any white space around them, read as unavailable. */
  lemma NAForms(s: string)
    ensures IsNA(s) <==>
              var t := Strip(s); |t| == 3 && t[0] in "nN" && t[1] == '/' && t[2] in "aA"
  {
    var t := Strip(s);
    if |t| == 3 {
      assert Upper(t) == [UpperChar(t[0]), UpperChar(t[1]), UpperChar(t[2])];
    } else {
      assert |Upper(t)| != |NA|;
    }
  }

  /** Python's `int(x)` for a float: truncation toward zero. */
  function Truncate(x: real): (t: int)
    ensures 0.0 <= x ==> t as real <= x < t as real + 1.0
    ensures x < 0.0 ==> t as real - 1.0 < x <= t as real
  {
    if x >= 0.0 then x.Floor else -((-x).Floor)
  }

  /**
   * `convert_to_numeric_or_na(value, as_type, decimal_places)`. Python's
   * `float(str)` is the parameter `parse` (None when it raises ValueError) and
   * `round(x, n)` is the parameter `round`; every failure becomes "N/A".
   */
  function ConvertToNumericOrNA(value: Option<string>, conv: Conversion,
                                parse: string -> Option<real>, round: (real, int) -> real): (r: Cell)
    ensures r == Str(NA) <==>
              value.None? || IsNA(value.value) || (!conv.NoConversion? && parse(value.value).None?)
    ensures conv.AsInt? ==> r == Str(NA) || r.IntV?
    ensures conv.AsFloat? ==> r == Str(NA) || r.Num?
    ensures conv.NoConversion? && r != Str(NA) ==> r == Str(value.value)
  {
    NAIsNA();
    if value.None? || IsNA(value.value) then Str(NA)
    else
      match conv
      case AsInt =>
        (match parse(value.value)
         case Some(x) => IntV(Truncate(x))
         case None => Str(NA))
      case AsFloat(places) =>
        (match parse(value.value)
         case Some(x) => Num(if places.Some? then round(x, places.value) else x)
         case None => Str(NA))
      case NoConversion => Str(value.value)
  }

  /** A parsed integer conversion keeps the integer part of the number, toward zero. */
  lemma IntConversionTruncates(s: string, x: real, parse: string -> Option<real>, round: (real, int) -> real)
    requires !IsNA(s) && parse(s) == Some(x)
    ensures ConvertToNumericOrNA(Some(s), AsInt, parse, round) == IntV(Truncate(x))
    ensures x >= 0.0 ==> Truncate(x) == x.Floor
    ensures x < 0.0 ==> Truncate(x) == -((-x).Floor)
  {
  }

  /** A parsed float conversion is the parsed number, rounded when a number of places is given. */
  lemma FloatConversionRounds(s: string, x: real, places: Option<int>,
                              parse: string -> Option<real>, round: (real, int) -> real)
    requires !IsNA(s) && parse(s) == Some(x)
    ensures ConvertToNumericOrNA(Some(s), AsFloat(places), parse, round)
            == Num(if places.Some? then round(x, places.value) else x)
    ensures ConvertToNumericOrNA(Some(s), AsFloat(Some(1)), parse, round) == Num(round(x, 1))
  {
  }

  /** The letters the rating columns may hold. */
  const RatingLetters: seq<string> := ["A", "B", "C", "D", "E", NA]

  /** The grade codes the metrics service emits, in the order of the letters they stand for. */
  const RatingCodes: seq<string> := ["1.0", "2.0", "3.0", "4.0", "5.0"]

  /** `RATING_MAP.get(code)`. */
  function RatingMapGet(code: string): Option<string> {
    if code == "1.0" then Some("A")
    else if code == "2.0" then Some("B")
    else if code == "3.0" then Some("C")
    else if code == "4.0" then Some("D")
    else if code == "5.0" then Some("E")
    else if code == NA then Some(NA)
    else None
  }

  /**
   * `RATING_MAP.get(metrics_map.get(metric, "N/A"), "N/A")` for a raw metric
   * value, None standing both for a missing metric and for a null value.
   */
  function RatingLetter(raw: Option<string>): (r: string)
    ensures r in RatingLetters
    ensures forall k :: 0 <= k < 5 ==> (r == RatingLetters[k] <==> raw == Some(RatingCodes[k]))
    ensures r == NA <==> raw.None? || raw.value !in RatingCodes
  {
    match raw
    case None => RatingMapGet(NA).GetOr(NA)
    case Some(code) => RatingMapGet(code).GetOr(NA)
  }

  /** The lookup is by exact string: a plain integer code is not a grade code. */
  lemma RatingNeedsExactCode()
    ensures RatingLetter(Some("2.0")) == "B"
    ensures RatingLetter(Some("2")) == NA && RatingLetter(Some("6.0")) == NA && RatingLetter(Some("")) == NA
  {
  }
}
