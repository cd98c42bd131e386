/**
 * Quote validation and enhancement (src/data_manager.py, validate_and_enhance_price_data).
 *
 * A raw quote from an exchange is classified by six checks run in a fixed order; the
 * first one that fails decides the rejection.  A quote that passes all six becomes an
 * EnhancedQuote with normalised field names, the spread in percent and a liquidity score.
 */
module PriceValidation {
  import opened Wrappers

  /** One raw field value: Python `None`, a value `float()` refuses, or a parsed number. */
  datatype RawField = Null | Unparseable | Num(value: real)

  /** A raw ticker: field name to value.  An absent key is a missing field. */
  type RawQuote = map<string, RawField>

  /** The fields a quote must carry, in the order the source lists them. */
  const RequiredFields: seq<string> := ["bid", "ask", "bidVolume", "askVolume"]

  /** The stored, validated form of a quote. */
  datatype EnhancedQuote = EnhancedQuote(
    bid: real,
    ask: real,
    bidVolume: real,
    askVolume: real,
    spreadPct: real,
    volumeScore: real)

  /** Why a quote was rejected, one constructor per check (the source logs each differently). */
  datatype Rejection =
    | EmptyData
    | MissingFields(fields: seq<string>)
    | UnparseablePrices
    | InvalidPrices(bid: real, ask: real)
    | UnparseableVolumes
    | NonPositiveVolumes(bidVolume: real, askVolume: real)

  predicate IsMissing(raw: RawQuote, field: string) {
    field !in raw || raw[field] == Null
  }

  predicate IsNum(raw: RawQuote, field: string) {
    field in raw && raw[field].Num?
  }

  /** The required fields that are absent or None, in the order they are listed. */
  function Missing(raw: RawQuote, fields: seq<string>): (r: seq<string>)
    ensures forall f :: f in r <==> f in fields && IsMissing(raw, f)
    ensures |r| <= |fields|
  {
    if fields == [] then []
    else (if IsMissing(raw, fields[0]) then [fields[0]] else []) + Missing(raw, fields[1..])
  }

  /**
   * The six checks, numbered in the order the source runs them, each stated on its own:
   * 0 the quote is non-empty, 1 no required field is missing, 2 bid and ask parse,
   * 3 bid > 0, ask > 0 and ask >= bid, 4 both volumes parse, 5 both volumes are > 0.
   */
  predicate Passes(raw: RawQuote, stage: nat) {
    match stage
    case 0 => |raw| > 0
    case 1 => forall f :: f in RequiredFields ==> !IsMissing(raw, f)
    case 2 => IsNum(raw, "bid") && IsNum(raw, "ask")
    case 3 =>
      IsNum(raw, "bid") && IsNum(raw, "ask") &&
      raw["bid"].value > 0.0 && raw["ask"].value > 0.0 && raw["ask"].value >= raw["bid"].value
    case 4 => IsNum(raw, "bidVolume") && IsNum(raw, "askVolume")
    case 5 =>
      IsNum(raw, "bidVolume") && IsNum(raw, "askVolume") &&
      raw["bidVolume"].value > 0.0 && raw["askVolume"].value > 0.0
    case _ => true
  }

  /** The number of checks. */
  const Stages: nat := 6

  /** The check whose failure produces a given rejection. */
  function StageOf(e: Rejection): (k: nat)
    ensures k < Stages
  {
    match e
    case EmptyData => 0
    case MissingFields(_) => 1
    case UnparseablePrices => 2
    case InvalidPrices(_, _) => 3
    case UnparseableVolumes => 4
    case NonPositiveVolumes(_, _) => 5
  }

  /** The invariant of every stored quote. */
  predicate WellFormed(q: EnhancedQuote) {
    && q.bid > 0.0
    && q.ask >= q.bid
    && q.bidVolume > 0.0
    && q.askVolume > 0.0
    && q.spreadPct == (q.ask - q.bid) / q.bid * 100.0
    && 0.0 <= q.volumeScore <= 100.0
  }

  function Min(x: real, y: real): real {
    if x <= y then x else y
  }

  /** The USD value available on the thinner side of the book. */
  function LiquidityUsd(bid: real, bidVolume: real, ask: real, askVolume: real): real {
    Min(bid * bidVolume, ask * askVolume)
  }

  /**
   * Liquidity score: 20 * (usd / 1000) ^ 0.3 clamped to [0, 100].  `curve` stands for
   * x |-> x ^ 0.3, which has no counterpart on `real`.
   */
  function VolumeScore(usd: real, curve: real -> real): (s: real)
    ensures 0.0 <= s <= 100.0
    ensures 0.0 <= 20.0 * curve(usd / 1000.0) <= 100.0 ==> s == 20.0 * curve(usd / 1000.0)
  {
    var raw := 20.0 * curve(usd / 1000.0);
    if raw > 100.0 then 100.0 else if raw < 0.0 then 0.0 else raw
  }

  /** The spread in percent of the bid: zero exactly when the book is locked (ask == bid). */
  function SpreadPct(bid: real, ask: real): (s: real)
    requires 0.0 < bid <= ask
    ensures s >= 0.0
    ensures s == 0.0 <==> ask == bid
  {
    SpreadNonNegative(bid, ask);
    (ask - bid) / bid * 100.0
  }

  lemma SpreadNonNegative(bid: real, ask: real)
    requires 0.0 < bid <= ask
    ensures (ask - bid) / bid >= 0.0
    ensures (ask - bid) / bid == 0.0 <==> ask == bid
  {
    var q := (ask - bid) / bid;
    assert q * bid == ask - bid;
  }

  /**
   * validate_and_enhance_price_data: the first failed check decides the rejection; a quote
   * that passes every check keeps its parsed prices and volumes and gains the derived fields.
   */
  function Validate(raw: RawQuote, curve: real -> real): (r: Result<EnhancedQuote, Rejection>)
    ensures r.Err? ==>
      && !Passes(raw, StageOf(r.error))
      && forall k: nat :: k < StageOf(r.error) ==> Passes(raw, k)
    ensures r.Ok? <==> forall k: nat :: k < Stages ==> Passes(raw, k)
    ensures r.Err? && r.error.MissingFields? ==>
      r.error.fields == Missing(raw, RequiredFields) && r.error.fields != []
    ensures r.Ok? ==>
      && IsNum(raw, "bid") && IsNum(raw, "ask") && IsNum(raw, "bidVolume") && IsNum(raw, "askVolume")
      && r.value.bid == raw["bid"].value
      && r.value.ask == raw["ask"].value
      && r.value.bidVolume == raw["bidVolume"].value
      && r.value.askVolume == raw["askVolume"].value
      && r.value.volumeScore ==
           VolumeScore(LiquidityUsd(r.value.bid, r.value.bidVolume, r.value.ask, r.value.askVolume), curve)
      && WellFormed(r.value)
  {
    var missing := Missing(raw, RequiredFields);
    if |raw| == 0 then
      Err(EmptyData)
    else if missing != [] then
      assert missing[0] in missing;
      Err(MissingFields(missing))
    else
      assert RequiredFields[0] == "bid" && RequiredFields[1] == "ask";
      assert RequiredFields[2] == "bidVolume" && RequiredFields[3] == "askVolume";
      assert !IsMissing(raw, "bid") && !IsMissing(raw, "ask");
      assert !IsMissing(raw, "bidVolume") && !IsMissing(raw, "askVolume");
      if !raw["bid"].Num? || !raw["ask"].Num? then
        Err(UnparseablePrices)
      else
        var bid, ask := raw["bid"].value, raw["ask"].value;
        if bid <= 0.0 || ask <= 0.0 || ask < bid then
          Err(InvalidPrices(bid, ask))
        else if !raw["bidVolume"].Num? || !raw["askVolume"].Num? then
          Err(UnparseableVolumes)
        else
          var bidVolume, askVolume := raw["bidVolume"].value, raw["askVolume"].value;
          if bidVolume <= 0.0 || askVolume <= 0.0 then
            Err(NonPositiveVolumes(bidVolume, askVolume))
          else
            Ok(EnhancedQuote(
              bid, ask, bidVolume, askVolume,
              SpreadPct(bid, ask),
              VolumeScore(LiquidityUsd(bid, bidVolume, ask, askVolume), curve)))
  }

  /** An empty quote, or one with any required field absent or None, is rejected. */
  lemma RejectsIncomplete(raw: RawQuote, curve: real -> real, field: string)
    requires field in RequiredFields
    requires |raw| == 0 || IsMissing(raw, field)
    ensures Validate(raw, curve).Err?
    ensures Validate(raw, curve).error.EmptyData? || Validate(raw, curve).error.MissingFields?
  {
    var r := Validate(raw, curve);
    assert !Passes(raw, 0) || !Passes(raw, 1);
    assert StageOf(r.error) <= 1;
  }

  /** A crossed book (ask < bid) is rejected as invalid prices, never swapped into a valid quote. */
  lemma RejectsCrossed(raw: RawQuote, curve: real -> real)
    requires forall f :: f in RequiredFields ==> !IsMissing(raw, f)
    requires IsNum(raw, "bid") && IsNum(raw, "ask") && raw["ask"].value < raw["bid"].value
    ensures Validate(raw, curve) == Err(InvalidPrices(raw["bid"].value, raw["ask"].value))
  {
    assert "bid" in RequiredFields;
  }

  /** A locked book (ask == bid) with positive price and volumes is accepted, with zero spread. */
  lemma AcceptsLocked(raw: RawQuote, curve: real -> real)
    requires IsNum(raw, "bid") && IsNum(raw, "ask") && IsNum(raw, "bidVolume") && IsNum(raw, "askVolume")
    requires raw["bid"].value == raw["ask"].value > 0.0
    requires raw["bidVolume"].value > 0.0 && raw["askVolume"].value > 0.0
    ensures Validate(raw, curve).Ok?
    ensures Validate(raw, curve).value.spreadPct == 0.0
  {
    assert "bid" in raw;
    forall k: nat | k < Stages ensures Passes(raw, k) {
    }
  }

  /** The score never decreases as the liquidity grows, provided the curve does not decrease. */
  lemma VolumeScoreMonotone(u1: real, u2: real, curve: real -> real)
    requires curve(u1 / 1000.0) <= curve(u2 / 1000.0)
    ensures VolumeScore(u1, curve) <= VolumeScore(u2, curve)
  {
  }
}
