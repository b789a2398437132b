/**
 * Input sanitisation of the copy-trade server (handleMessage in
 * server/copy-trade-server.ts): a parsed message either becomes a
 * validated trade with a clamped config, or is dropped. Numbers arrive as
 * JavaScript numbers; an absent or null field behaves like NaN here.
 */
module Sanitise {
  import opened Common
  import opened Types
  import Pipeline

  datatype RawConfig = RawConfig(multiplier: JsNumber, maxSingleTrade: JsNumber, priceImprovementPct: JsNumber)

  /** A trade object as it came off the wire; None marks an absent string field. */
  datatype RawTrade = RawTrade(
    conditionId: Option<string>,
    title: string,
    outcome: Option<string>,
    side: Option<string>,
    size: JsNumber,
    price: JsNumber,
    timestamp: JsNumber,
    transactionHash: string,
    walletLabel: string)

  datatype RawMessage = RawMessage(msgType: string, trade: Option<RawTrade>, config: Option<RawConfig>)

  function Max(a: real, b: real): real { if a >= b then a else b }
  function Min(a: real, b: real): real { if a <= b then a else b }

  /** `Math.max(lo, Math.min(hi, x || fallback))`. */
  function ClampField(x: JsNumber, fallback: real, lo: real, hi: real): (r: real)
    requires lo <= fallback <= hi
    ensures lo <= r <= hi
    ensures !x.Truthy() ==> r == fallback
    ensures x.Finite? && x.Truthy() ==> r == Max(lo, Min(hi, x.v))
    ensures x.PosInfinity? ==> r == hi
    ensures x.NegInfinity? ==> r == lo
  {
    match x
    case Finite(v) => if v == 0.0 then fallback else Max(lo, Min(hi, v))
    case NaN => fallback
    case PosInfinity => hi
    case NegInfinity => lo
  }

  /** The config the server runs with: multiplier in [0.01, 10], maxSingleTrade in [0.5, 10000],
      priceImprovementPct in [0, 0.10]; a falsy field is first replaced by 0.5, 1 or 0.02. */
  function SanitiseConfig(c: RawConfig): (r: CopyTradeConfig)
    ensures 0.01 <= r.multiplier <= 10.0
    ensures 0.5 <= r.maxSingleTrade <= 10000.0
    ensures 0.0 <= r.priceImprovementPct <= 0.10
    ensures !c.multiplier.Truthy() ==> r.multiplier == DefaultCopyTradeConfig.multiplier
    ensures !c.maxSingleTrade.Truthy() ==> r.maxSingleTrade == DefaultCopyTradeConfig.maxSingleTrade
    ensures !c.priceImprovementPct.Truthy() ==> r.priceImprovementPct == DefaultCopyTradeConfig.priceImprovementPct
  {
    CopyTradeConfig(
      ClampField(c.multiplier, 0.5, 0.01, 10.0),
      ClampField(c.maxSingleTrade, 1.0, 0.5, 10000.0),
      ClampField(c.priceImprovementPct, 0.02, 0.0, 0.10))
  }

  /** A config already inside the ranges passes through unchanged. */
  lemma SanitiseConfigKeepsValid(m: real, cap: real, pct: real)
    requires 0.01 <= m <= 10.0 && 0.5 <= cap <= 10000.0 && 0.0 < pct <= 0.10
    ensures SanitiseConfig(RawConfig(Finite(m), Finite(cap), Finite(pct))) == CopyTradeConfig(m, cap, pct)
  {
  }

  predicate Truthy(s: Option<string>) { s.Some? && s.value != "" }

  /** A finite, positive number. */
  predicate PositiveFinite(x: JsNumber) { x.Finite? && x.v > 0.0 }

  /** The trade checks: identifiers present and non-empty, price and size finite and positive. */
  predicate ValidTrade(t: RawTrade) {
    Truthy(t.conditionId) && Truthy(t.outcome) && Truthy(t.side) &&
    PositiveFinite(t.price) && PositiveFinite(t.size)
  }

  function ToSignal(t: RawTrade): (s: Pipeline.TradeSignal)
    requires ValidTrade(t)
    ensures s.price > 0.0 && s.size > 0.0
  {
    Pipeline.TradeSignal(t.conditionId.value, t.title, t.outcome.value, t.side.value,
                         t.size.v, t.price.v, t.timestamp, t.transactionHash, t.walletLabel)
  }

  /** handleMessage up to the hand-off: None when the message is dropped (unparsable, of another
      type, missing trade or config, or an invalid trade). */
  function SanitiseMessage(msg: Option<RawMessage>): (r: Option<(Pipeline.TradeSignal, CopyTradeConfig)>)
    ensures r.Some? <==> msg.Some? && msg.value.msgType == "copy_trade" && msg.value.trade.Some? &&
                         msg.value.config.Some? && ValidTrade(msg.value.trade.value)
    ensures r.Some? ==> r.value.0 == ToSignal(msg.value.trade.value) && r.value.1 == SanitiseConfig(msg.value.config.value)
    ensures r.Some? ==> var s := r.value.0;
      && s.price > 0.0 && s.size > 0.0 && s.conditionId != "" && s.outcome != "" && s.side != ""
  {
    if msg.None? then None
    else if msg.value.msgType != "copy_trade" then None
    else if msg.value.trade.None? || msg.value.config.None? then None
    else if !ValidTrade(msg.value.trade.value) then None
    else Some((ToSignal(msg.value.trade.value), SanitiseConfig(msg.value.config.value)))
  }

  /** Zero is falsy, so an explicit price improvement of 0 becomes the 0.02 default. */
  lemma ZeroImprovementBecomesDefault(m: JsNumber, cap: JsNumber)
    ensures SanitiseConfig(RawConfig(m, cap, Finite(0.0))).priceImprovementPct == 0.02
  {
  }

  /** Clamping a clamped config changes nothing, except that a clamped improvement of 0 turns into 0.02. */
  lemma SanitiseConfigIdempotent(c: RawConfig)
    ensures var r := SanitiseConfig(c);
      r.priceImprovementPct > 0.0 ==>
        SanitiseConfig(RawConfig(Finite(r.multiplier), Finite(r.maxSingleTrade), Finite(r.priceImprovementPct))) == r
  {
  }
}
