/** The instrument catalog and the two free-text normalisers that run before
    the per-trade metrics (app.py:248-254, 1956-1971). */
module Instruments {
  import opened Wrappers
  import opened Text

  /** Dollars per pip per lot: a constant, or `numerator / reference price`
      for a pair quoted in yen. */
  datatype PipValueRule =
    | FixedPerLot(dollars: real)
    | PerReferencePrice(numerator: real)

  /** The pricing convention of a known symbol. */
  datatype InstrumentSpec =
    | PointValue(dollarsPerPoint: real)
    | PipConvention(pipSize: real, rule: PipValueRule)

  /** Futures contracts and their dollar value per point. */
  const FuturesPointValues: map<string, real> :=
    map["NQ" := 20.0, "MNQ" := 2.0, "ES" := 50.0, "MES" := 5.0, "GC" := 100.0, "MGC" := 10.0]

  /** The forex pairs; `contracts` counts standard lots for these. */
  const ForexPairs: seq<string> := ["EURUSD", "GBPUSD", "USDJPY", "AUDUSD"]

  predicate EndsWith(s: string, suffix: string) {
    |suffix| <= |s| && s[|s| - |suffix|..] == suffix
  }

  /** Catalog lookup. Forex membership is tested first, as `compute_metrics` does;
      a yen-quoted pair has pip size 0.01, any other pair 0.0001; USDJPY's
      pip value is 1000 / reference price, the other pairs' is 10 dollars. */
  function Lookup(symbol: string): (spec: Option<InstrumentSpec>)
    ensures spec.None? <==> symbol !in ForexPairs && symbol !in FuturesPointValues
    ensures symbol in FuturesPointValues ==> spec == Some(PointValue(FuturesPointValues[symbol]))
    ensures symbol in ForexPairs ==> spec.Some? && spec.value.PipConvention?
  {
    if symbol in ForexPairs then
      Some(PipConvention(
        if EndsWith(symbol, "JPY") then 0.01 else 0.0001,
        if symbol == "USDJPY" then PerReferencePrice(1000.0) else FixedPerLot(10.0)))
    else if symbol in FuturesPointValues then
      Some(PointValue(FuturesPointValues[symbol]))
    else
      None
  }

  /** No symbol is both a future and a forex pair, so the order of the two
      membership tests does not matter. */
  lemma CatalogDisjoint(symbol: string)
    ensures !(symbol in ForexPairs && symbol in FuturesPointValues)
  {
    if symbol in ForexPairs {
      assert symbol == "EURUSD" || symbol == "GBPUSD" || symbol == "USDJPY" || symbol == "AUDUSD";
    }
  }

  /** The forex conventions: only USDJPY uses the 0.01 pip and the
      price-dependent pip value; every other pair has a 0.0001 pip worth 10. */
  lemma ForexConventions(symbol: string)
    requires symbol in ForexPairs
    ensures symbol == "USDJPY" ==> Lookup(symbol) == Some(PipConvention(0.01, PerReferencePrice(1000.0)))
    ensures symbol != "USDJPY" ==> Lookup(symbol) == Some(PipConvention(0.0001, FixedPerLot(10.0)))
  {
    assert symbol == "EURUSD" || symbol == "GBPUSD" || symbol == "USDJPY" || symbol == "AUDUSD";
    assert "EURUSD"[3..] == "USD" && "GBPUSD"[3..] == "USD" && "AUDUSD"[3..] == "USD";
    assert "USDJPY"[3..] == "JPY";
  }

  /** No ASCII lower-case letter in `s`. */
  predicate NoLowerAscii(s: string) {
    forall i :: 0 <= i < |s| ==> !('a' <= s[i] <= 'z')
  }

  /** `normalize_instrument`: strip, upper-case, and an empty result is None. */
  function NormalizeInstrument(value: Option<string>): (r: Option<string>)
    ensures value.None? ==> r.None?
    ensures value.Some? ==> (r.None? <==> Trim(value.value) == "")
    ensures r.Some? ==> r.value != "" && Trimmed(r.value) && NoLowerAscii(r.value)
    ensures r.Some? ==> |r.value| <= |value.value|
  {
    match value
    case None => None
    case Some(s) =>
      var v := Upper(Trim(s));
      if v == "" then None else Some(v)
  }

  lemma UpperOfNormalized(s: string)
    requires NoLowerAscii(s)
    ensures Upper(s) == s
  {
  }

  /** Normalising an already normalised symbol changes nothing. */
  lemma NormalizeInstrumentIdempotent(value: Option<string>)
    ensures NormalizeInstrument(NormalizeInstrument(value)) == NormalizeInstrument(value)
  {
    var r := NormalizeInstrument(value);
    if r.Some? {
      TrimOfTrimmed(r.value);
      UpperOfNormalized(r.value);
    }
  }

  /** The spellings read as a long position. */
  predicate IsLongWord(v: string) {
    v == "long" || v == "l" || v == "buy" || v == "bull"
  }

  /** The spellings read as a short position. */
  predicate IsShortWord(v: string) {
    v == "short" || v == "s" || v == "sell" || v == "bear"
  }

  /** A spelling that is not recognised is neither "Long" nor "Short". */
  lemma UnrecognizedIsNotCanonical(s: string)
    requires !IsLongWord(Lower(Trim(s))) && !IsShortWord(Lower(Trim(s)))
    ensures s != "Long" && s != "Short"
  {
  }

  /** `normalize_direction`: the recognised spellings (after strip and
      lower-case) become "Long" or "Short"; anything else comes back
      exactly as given, unstripped. */
  function NormalizeDirection(value: Option<string>): (r: Option<string>)
    ensures r.None? <==> value.None?
    ensures r == Some("Long") <==> value.Some? && IsLongWord(Lower(Trim(value.value)))
    ensures r == Some("Short") <==> value.Some? && IsShortWord(Lower(Trim(value.value)))
    ensures value.Some? && !IsLongWord(Lower(Trim(value.value))) && !IsShortWord(Lower(Trim(value.value))) ==> r == value
  {
    match value
    case None => None
    case Some(s) =>
      var v := Lower(Trim(s));
      if IsLongWord(v) then Some("Long")
      else if IsShortWord(v) then Some("Short")
      else UnrecognizedIsNotCanonical(s); value
  }

  /** Normalising a normalised direction changes nothing. */
  lemma NormalizeDirectionIdempotent(value: Option<string>)
    ensures NormalizeDirection(NormalizeDirection(value)) == NormalizeDirection(value)
  {
    CanonicalDirectionsAreRecognised();
  }

  /** "Long" and "Short" read back as the long and the short side. */
  lemma CanonicalDirectionsAreRecognised()
    ensures IsLongWord(Lower(Trim("Long"))) && IsShortWord(Lower(Trim("Short")))
  {
    TrimOfTrimmed("Long");
    TrimOfTrimmed("Short");
    assert Lower("Long") == "long" && Lower("Short") == "short";
  }
}
