/**
 * Normalisation of the data API's raw records (lib/shared/parse.ts).
 * `parseFloat` is a parameter, left uninterpreted; it yields a real here, so
 * a NaN it may produce in JavaScript is outside this model.
 */
module Parse {
  import opened Common
  import opened Text
  import opened Types

  datatype RawTrade = RawTrade(
    conditionId: string,
    title: string,
    outcome: string,
    side: string,
    size: string,
    price: string,
    timestamp: int,
    transactionHash: string,
    proxyWallet: string,
    asset: string)

  /** A raw position; None marks an optional field the record does not carry. */
  datatype RawPosition = RawPosition(
    conditionId: string,
    title: string,
    outcome: string,
    size: string,
    avgPrice: string,
    curPrice: string,
    asset: string,
    proxyWallet: string,
    redeemable: Option<bool>,
    endDate: Option<string>,
    cashPnl: Option<string>,
    percentPnl: Option<string>,
    realizedPnl: Option<string>,
    initialValue: Option<string>,
    currentValue: Option<string>,
    totalBought: Option<string>,
    slug: Option<string>,
    icon: Option<string>,
    eventSlug: Option<string>)

  /** The title shown for a market: its own title, or "Market " and the first ten characters of the condition id, then "...". */
  function MarketTitle(title: string, conditionId: string): (r: string)
    ensures r != ""
    ensures title != "" ==> r == title
    ensures title == "" ==> |r| == 10 + (if |conditionId| < 10 then |conditionId| else 10)
    ensures title == "" ==> StartsWith(r, "Market ")
    ensures title == "" ==> r[7..|r| - 3] == conditionId[..|r| - 10] && r[|r| - 3..] == "..."
  {
    if title != "" then title
    else
      var prefix := if |conditionId| <= 10 then conditionId else conditionId[..10];
      "Market " + prefix + "..."
  }

  /** parseTrade: the wallet lower-cased, size and price parsed, the title defaulted, the rest copied. */
  function ParseTrade(raw: RawTrade, source: string, parseFloat: string -> real): (t: Trade)
    ensures t.walletAddress == Lower(raw.proxyWallet)
    ensures t.size == parseFloat(raw.size) && t.price == parseFloat(raw.price)
    ensures t.title == MarketTitle(raw.title, raw.conditionId)
    ensures t.conditionId == raw.conditionId && t.outcome == raw.outcome && t.side == raw.side
    ensures t.timestamp == raw.timestamp && t.transactionHash == raw.transactionHash && t.source == source
  {
    Trade(raw.conditionId, MarketTitle(raw.title, raw.conditionId), raw.outcome, raw.side,
          parseFloat(raw.size), parseFloat(raw.price), raw.timestamp, raw.transactionHash,
          Lower(raw.proxyWallet), source)
  }

  /** A parsed trade's wallet has no upper-case letter, and re-normalising it changes nothing. */
  lemma ParseTradeWalletNormalised(raw: RawTrade, source: string, parseFloat: string -> real)
    ensures var w := ParseTrade(raw, source, parseFloat).walletAddress;
      Lower(w) == w && forall i :: 0 <= i < |w| ==> !IsUpper(w[i])
  {
    LowerIdempotent(raw.proxyWallet);
  }

  /** `parseFloat(x ?? "0")`. */
  function ParseOr0(x: Option<string>, parseFloat: string -> real): (r: real)
    ensures x.None? ==> r == parseFloat("0")
    ensures x.Some? ==> r == parseFloat(x.value)
  {
    parseFloat(x.GetOr("0"))
  }

  /**
   * parsePosition: size, average and current price parsed; value and
   * unrealised PnL derived from them; present optional fields copied or
   * parsed, absent ones defaulted to false, "" or the parse of "0".
   */
  function ParsePosition(raw: RawPosition, parseFloat: string -> real): (p: Position)
    ensures p.size == parseFloat(raw.size) && p.avgPrice == parseFloat(raw.avgPrice) && p.curPrice == parseFloat(raw.curPrice)
    ensures p.marketValue == p.curPrice * p.size
    ensures p.unrealizedPnl == (p.curPrice - p.avgPrice) * p.size
    ensures p.title == MarketTitle(raw.title, raw.conditionId)
    ensures p.redeemable == (raw.redeemable.Some? && raw.redeemable.value)
    ensures raw.endDate.None? ==> p.endDate == ""
    ensures raw.endDate.Some? ==> p.endDate == raw.endDate.value
    ensures raw.slug.None? ==> p.slug == ""
    ensures raw.slug.Some? ==> p.slug == raw.slug.value
    ensures raw.icon.None? ==> p.icon == ""
    ensures raw.icon.Some? ==> p.icon == raw.icon.value
    ensures raw.eventSlug.None? ==> p.eventSlug == ""
    ensures raw.eventSlug.Some? ==> p.eventSlug == raw.eventSlug.value
    ensures raw.cashPnl.None? ==> p.cashPnl == parseFloat("0")
    ensures raw.cashPnl.Some? ==> p.cashPnl == parseFloat(raw.cashPnl.value)
    ensures raw.realizedPnl.None? ==> p.realizedPnl == parseFloat("0")
    ensures raw.realizedPnl.Some? ==> p.realizedPnl == parseFloat(raw.realizedPnl.value)
    ensures raw.percentPnl.None? ==> p.percentPnl == parseFloat("0")
    ensures raw.percentPnl.Some? ==> p.percentPnl == parseFloat(raw.percentPnl.value)
    ensures raw.initialValue.None? ==> p.initialValue == parseFloat("0")
    ensures raw.initialValue.Some? ==> p.initialValue == parseFloat(raw.initialValue.value)
    ensures raw.currentValue.None? ==> p.currentValue == parseFloat("0")
    ensures raw.currentValue.Some? ==> p.currentValue == parseFloat(raw.currentValue.value)
    ensures raw.totalBought.None? ==> p.totalBought == parseFloat("0")
    ensures raw.totalBought.Some? ==> p.totalBought == parseFloat(raw.totalBought.value)
    ensures p.conditionId == raw.conditionId && p.outcome == raw.outcome && p.asset == raw.asset
  {
    var size := parseFloat(raw.size);
    var avgPrice := parseFloat(raw.avgPrice);
    var curPrice := parseFloat(raw.curPrice);
    Position(
      raw.conditionId,
      MarketTitle(raw.title, raw.conditionId),
      raw.outcome,
      size,
      avgPrice,
      curPrice,
      (curPrice - avgPrice) * size,
      curPrice * size,
      raw.asset,
      raw.redeemable.GetOr(false),
      raw.endDate.GetOr(""),
      ParseOr0(raw.cashPnl, parseFloat),
      ParseOr0(raw.realizedPnl, parseFloat),
      ParseOr0(raw.initialValue, parseFloat),
      ParseOr0(raw.currentValue, parseFloat),
      ParseOr0(raw.totalBought, parseFloat),
      ParseOr0(raw.percentPnl, parseFloat),
      raw.slug.GetOr(""),
      raw.icon.GetOr(""),
      raw.eventSlug.GetOr(""))
  }

  /** The unrealised PnL is the market value less the cost basis (average price times size). */
  lemma PositionPnlIsValueLessCost(raw: RawPosition, parseFloat: string -> real)
    ensures var p := ParsePosition(raw, parseFloat);
      p.unrealizedPnl == p.marketValue - p.avgPrice * p.size
  {
    var p := ParsePosition(raw, parseFloat);
    assert (p.curPrice - p.avgPrice) * p.size == p.curPrice * p.size - p.avgPrice * p.size;
  }
}
