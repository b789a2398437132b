/**
 * The per-signal pipeline of the copy-trade server (executeCopyTrade in
 * server/copy-trade-server.ts): a fixed sequence of gates, then order
 * sizing, then one submission. Exchange calls are inputs: the market
 * lookup, the midpoint of the matched token and the answer to the order
 * are each a value or the error they raised. The engine flag and the
 * clock are read once, so a run is a function of its inputs.
 */
module Pipeline {
  import opened Common
  import opened Text
  import opened Types
  import opened Sizing

  const MaxTradeAgeS: int := 60
  const MidpointFloor: real := 0.03
  const MidpointCeiling: real := 0.97
  const MaxPriceDrift: real := 0.20

  /** A trade signal as relayed by the dashboard. The timestamp is whatever number the sender put there. */
  datatype TradeSignal = TradeSignal(
    conditionId: string,
    title: string,
    outcome: string,
    side: string,
    size: real,
    price: real,
    timestamp: JsNumber,
    transactionHash: string,
    walletLabel: string)

  datatype Token = Token(tokenId: string, outcome: string)

  /** The fields of the exchange's market record the pipeline reads; absent optional fields are None. */
  datatype Market = Market(
    acceptingOrders: bool,
    tokens: seq<Token>,
    tickSize: Option<TickSize>,
    minOrderSize: Option<real>,
    negRisk: Option<bool>)

  datatype OrderStatus = DETECTED | VALIDATING | SKIPPED | PLACING | FILLED | FAILED

  /** The statuses that end a run. */
  predicate Terminal(s: OrderStatus) {
    s == SKIPPED || s == FAILED || s == FILLED
  }

  datatype SkipReason = CircuitBreaker | SellTrade | Stale | MarketClosed | Resolved | PriceDrift | ZeroOrder {
    /** The `reason` code carried by the SKIPPED message. */
    function Code(): string {
      match this
      case CircuitBreaker => "circuit_breaker"
      case SellTrade => "sell_trade"
      case Stale => "stale"
      case MarketClosed => "market_closed"
      case Resolved => "resolved"
      case PriceDrift => "price_drift"
      case ZeroOrder => "zero_order"
    }
  }

  /** A status broadcast; the human-readable `message` text is not modelled. */
  datatype StatusMessage = StatusMessage(
    orderId: Option<string>,
    status: OrderStatus,
    reason: Option<string>,
    error: Option<string>,
    timestamp: int,
    walletLabel: string,
    trade: TradeSignal)

  /** statusMsg with the per-trade extras every message of a run carries. */
  function StatusMsg(status: OrderStatus, now: int, trade: TradeSignal,
                     orderId: Option<string>, reason: Option<string>, error: Option<string>): (m: StatusMessage)
    ensures m.status == status && m.timestamp == now && m.trade == trade && m.walletLabel == trade.walletLabel
  {
    StatusMessage(orderId, status, reason, error, now, trade.walletLabel, trade)
  }

  /** The order handed to the exchange. */
  datatype Order = Order(tokenId: string, price: real, size: real, tickSize: TickSize, negRisk: bool)

  /** What the gates and the sizing decide, before anything is submitted. */
  datatype Decision = Skip(reason: SkipReason) | Fail(error: string) | Place(order: Order)

  /** The exchange's answer to the order: a response object, or an exception with its message.
      `status` is the rendered text of a truthy `status` field, None when it is absent or falsy. */
  datatype OrderResponse = Posted(success: bool, orderId: Option<string>, status: Option<string>) | Threw(message: string)

  // ---------------------------------------------------------------------------
  // Gates
  // ---------------------------------------------------------------------------

  /** `now - trade.timestamp > 60` under JavaScript arithmetic: a missing (NaN) or +Infinity
      timestamp never counts as stale, -Infinity always does. */
  predicate IsStale(now: int, ts: JsNumber) {
    match ts
    case Finite(t) => now as real - t > MaxTradeAgeS as real
    case NaN => false
    case PosInfinity => false
    case NegInfinity => true
  }

  predicate OutcomeMatches(t: Token, outcome: string) {
    Lower(t.outcome) == Lower(outcome)
  }

  /** `tokens.find(...)`: the first token whose outcome equals the trade's, ignoring case. */
  function FindToken(tokens: seq<Token>, outcome: string): (r: Option<Token>)
    ensures r.None? <==> forall t :: t in tokens ==> !OutcomeMatches(t, outcome)
    ensures r.Some? ==> exists i :: 0 <= i < |tokens| && tokens[i] == r.value && OutcomeMatches(r.value, outcome) &&
                                    forall j :: 0 <= j < i ==> !OutcomeMatches(tokens[j], outcome)
  {
    if tokens == [] then None
    else if OutcomeMatches(tokens[0], outcome) then Some(tokens[0])
    else
      var r := FindToken(tokens[1..], outcome);
      assert forall t :: t in tokens[1..] ==> t in tokens;
      if r.Some? then
        var i :| 0 <= i < |tokens[1..]| && tokens[1..][i] == r.value && OutcomeMatches(r.value, outcome) &&
                 forall j :: 0 <= j < i ==> !OutcomeMatches(tokens[1..][j], outcome);
        assert forall j :: 0 <= j < i + 1 ==> !OutcomeMatches(tokens[j], outcome) by {
          forall j | 0 <= j < i + 1 ensures !OutcomeMatches(tokens[j], outcome) {
            if j > 0 { assert tokens[j] == tokens[1..][j - 1]; }
          }
        }
        r
      else
        r
  }

  function Abs(x: real): real { if x < 0.0 then -x else x }

  /** `|mid - price| / price`. */
  function Drift(mid: real, price: real): real
    requires price > 0.0
  {
    Abs(mid - price) / price
  }

  predicate MidpointInBand(mid: real) {
    MidpointFloor < mid < MidpointCeiling
  }

  /** Every gate passes, in the order they are tried. */
  predicate GatesPass(paused: bool, hasClient: bool, trade: TradeSignal, now: int,
                      market: Result<Market, string>, midpoint: Result<real, string>)
    requires trade.price > 0.0
  {
    && !paused
    && trade.side == "BUY"
    && !IsStale(now, trade.timestamp)
    && hasClient
    && market.Ok?
    && market.value.acceptingOrders
    && FindToken(market.value.tokens, trade.outcome).Some?
    && midpoint.Ok?
    && MidpointInBand(midpoint.value)
    && Drift(midpoint.value, trade.price) <= MaxPriceDrift
  }

  // ---------------------------------------------------------------------------
  // Decision
  // ---------------------------------------------------------------------------

  function TickOf(m: Market): TickSize { m.tickSize.GetOr(DefaultTick) }

  /** The sized order for a trade that passed every gate, or the zero_order skip. */
  function SizedDecision(trade: TradeSignal, config: CopyTradeConfig, m: Market, token: Token): (d: Decision)
    requires trade.price > 0.0
    ensures d.Skip? || d.Place?
    ensures d.Skip? ==> d.reason == ZeroOrder
    ensures d.Place? ==> d.order.tokenId == token.tokenId && d.order.tickSize == TickOf(m) &&
                         d.order.negRisk == m.negRisk.GetOr(false)
  {
    var sized := SizeOrder(trade.size, trade.price, config.multiplier, config.maxSingleTrade,
                           config.priceImprovementPct, TickOf(m), m.minOrderSize.GetOr(0.0));
    match sized
    case None => Skip(ZeroOrder)
    case Some(s) => Place(Order(token.tokenId, s.price, s.size, TickOf(m), m.negRisk.GetOr(false)))
  }

  /** The gates of executeCopyTrade, tried in order, followed by the sizing. */
  function Decide(paused: bool, hasClient: bool, trade: TradeSignal, config: CopyTradeConfig, now: int,
                  market: Result<Market, string>, midpoint: Result<real, string>): (d: Decision)
    requires trade.price > 0.0
    ensures d.Place? <==> GatesPass(paused, hasClient, trade, now, market, midpoint) &&
                          OrderPrice(trade.price, config.priceImprovementPct, TickOf(market.value)) > 0.0
  {
    if paused then Skip(CircuitBreaker)
    else if trade.side != "BUY" then Skip(SellTrade)
    else if IsStale(now, trade.timestamp) then Skip(Stale)
    else if !hasClient then Fail("no_client")
    else if market.Err? then Fail(market.error)
    else if !market.value.acceptingOrders then Skip(MarketClosed)
    else
      var token := FindToken(market.value.tokens, trade.outcome);
      if token.None? then Fail("outcome_not_found")
      else if midpoint.Err? then Fail(midpoint.error)
      else if !MidpointInBand(midpoint.value) then Skip(Resolved)
      else if Drift(midpoint.value, trade.price) > MaxPriceDrift then Skip(PriceDrift)
      else SizedDecision(trade, config, market.value, token.value)
  }

  /** The gates short-circuit in their fixed order: the first one that fails decides the outcome. */
  lemma GatesInOrder(paused: bool, hasClient: bool, trade: TradeSignal, config: CopyTradeConfig, now: int,
                     market: Result<Market, string>, midpoint: Result<real, string>)
    requires trade.price > 0.0
    ensures var d := Decide(paused, hasClient, trade, config, now, market, midpoint);
      && (paused ==> d == Skip(CircuitBreaker))
      && (!paused && trade.side != "BUY" ==> d == Skip(SellTrade))
      && (!paused && trade.side == "BUY" && IsStale(now, trade.timestamp) ==> d == Skip(Stale))
      && (!paused && trade.side == "BUY" && !IsStale(now, trade.timestamp) ==>
           && (!hasClient ==> d == Fail("no_client"))
           && (hasClient && market.Err? ==> d == Fail(market.error))
           && (hasClient && market.Ok? && !market.value.acceptingOrders ==> d == Skip(MarketClosed))
           && (hasClient && market.Ok? && market.value.acceptingOrders ==>
                var token := FindToken(market.value.tokens, trade.outcome);
                && (token.None? ==> d == Fail("outcome_not_found"))
                && (token.Some? && midpoint.Err? ==> d == Fail(midpoint.error))
                && (token.Some? && midpoint.Ok? && !MidpointInBand(midpoint.value) ==> d == Skip(Resolved))
                && ((token.Some? && midpoint.Ok? && MidpointInBand(midpoint.value) &&
                     Drift(midpoint.value, trade.price) > MaxPriceDrift) ==> d == Skip(PriceDrift))))
  {
  }

  /** Whatever the market says, a paused engine, a SELL or a stale trade never reaches the exchange. */
  lemma EarlyGatesNeverPlace(paused: bool, hasClient: bool, trade: TradeSignal, config: CopyTradeConfig, now: int,
                             market: Result<Market, string>, midpoint: Result<real, string>)
    requires trade.price > 0.0
    requires paused || trade.side != "BUY" || IsStale(now, trade.timestamp)
    ensures !Decide(paused, hasClient, trade, config, now, market, midpoint).Place?
    ensures Decide(paused, hasClient, trade, config, now, market, midpoint).Skip?
  {
  }

  /** A placed order is for the token whose outcome matches the trade's, at a positive price no higher
      than 0.99 or the improved price and on the market's tick, worth at least $1, of at least the
      market's minimum size, and of the scaled, capped, cent-rounded size whenever that met both minimums;
      otherwise of a cent amount less than a cent above what the minimums demand. */
  lemma PlacedOrderSpec(paused: bool, hasClient: bool, trade: TradeSignal, config: CopyTradeConfig, now: int,
                        market: Result<Market, string>, midpoint: Result<real, string>)
    requires trade.price > 0.0
    requires Decide(paused, hasClient, trade, config, now, market, midpoint).Place?
    ensures var o := Decide(paused, hasClient, trade, config, now, market, midpoint).order;
      var m := market.value;
      var base := RoundSize(CappedSize(trade.size, trade.price, config.multiplier, config.maxSingleTrade));
      && FindToken(m.tokens, trade.outcome) == Some(Token(o.tokenId, FindToken(m.tokens, trade.outcome).value.outcome))
      && OutcomeMatches(FindToken(m.tokens, trade.outcome).value, trade.outcome)
      && o.tickSize == TickOf(m)
      && o.negRisk == m.negRisk.GetOr(false)
      && 0.0 < o.price <= PriceCap
      && o.price <= trade.price * (1.0 + config.priceImprovementPct)
      && MultipleOf(o.price, o.tickSize.Value())
      && Notional(o.size, o.price) >= MinUsdcOrder
      && o.size >= m.minOrderSize.GetOr(0.0)
      && o.size >= base
      && (Notional(base, o.price) >= MinUsdcOrder && base >= m.minOrderSize.GetOr(0.0) ==> o.size == base)
      && MultipleOf(o.size, 0.01)
      && o.size < Max(base, Max(MinUsdcOrder / o.price, m.minOrderSize.GetOr(0.0))) + 0.01
  {
    OrderPriceBounds(trade.price, config.priceImprovementPct, TickOf(market.value));
  }

  /** An order price that rounds down to zero ends in the zero_order skip and is never placed. */
  lemma ZeroPriceSkips(hasClient: bool, trade: TradeSignal, config: CopyTradeConfig, now: int,
                       market: Result<Market, string>, midpoint: Result<real, string>)
    requires trade.price > 0.0
    requires GatesPass(false, hasClient, trade, now, market, midpoint)
    requires OrderPrice(trade.price, config.priceImprovementPct, TickOf(market.value)) <= 0.0
    ensures Decide(false, hasClient, trade, config, now, market, midpoint) == Skip(ZeroOrder)
  {
  }

  // ---------------------------------------------------------------------------
  // Submission and the event trace
  // ---------------------------------------------------------------------------

  /** The error text of a rejected order: its status when truthy, "unknown error" otherwise. */
  function RejectionText(status: Option<string>): (r: string)
    ensures r != ""
    ensures status.Some? && status.value != "" ==> r == status.value
    ensures status.None? || status.value == "" ==> r == "unknown error"
  {
    if status.Some? && status.value != "" then status.value else "unknown error"
  }

  /** The balance-error heuristic: the lower-cased text mentions "balance" or "insufficient". */
  predicate IsBalanceError(text: string) {
    Contains(Lower(text), "balance") || Contains(Lower(text), "insufficient")
  }

  /** The message that reports the exchange's answer. */
  function SubmitResult(r: OrderResponse, now: int, trade: TradeSignal): (m: StatusMessage)
    ensures m.status == FILLED <==> r.Posted? && r.success
    ensures m.status == FILLED || m.status == FAILED
    ensures m.status == FILLED ==> m.orderId == r.orderId
    ensures r.Threw? ==> m.error == Some(r.message)
    ensures r.Posted? && !r.success ==> m.error == Some(RejectionText(r.status))
  {
    match r
    case Posted(success, orderId, status) =>
      if success then StatusMsg(FILLED, now, trade, orderId, None, None)
      else StatusMsg(FAILED, now, trade, None, None, Some(RejectionText(status)))
    case Threw(message) => StatusMsg(FAILED, now, trade, None, None, Some(message))
  }

  /** The error text a failed submission is judged by, if it failed. */
  function SubmitError(r: OrderResponse): Option<string> {
    match r
    case Posted(success, _, status) => if success then None else Some(RejectionText(status))
    case Threw(message) => Some(message)
  }

  /** The messages after DETECTED (and VALIDATING) for a decision. */
  function Tail(d: Decision, r: OrderResponse, now: int, trade: TradeSignal): seq<StatusMessage> {
    match d
    case Skip(reason) => [StatusMsg(SKIPPED, now, trade, None, Some(reason.Code()), None)]
    case Fail(error) => [StatusMsg(FAILED, now, trade, None, None, Some(error))]
    case Place(_) => [StatusMsg(PLACING, now, trade, None, None, None), SubmitResult(r, now, trade)]
  }

  /** The messages of a run that reached decision `d`. */
  function Trace(paused: bool, d: Decision, response: OrderResponse, now: int, trade: TradeSignal): seq<StatusMessage> {
    [StatusMsg(DETECTED, now, trade, None, None, None)] +
    (if paused then [] else [StatusMsg(VALIDATING, now, trade, None, None, None)]) +
    Tail(d, response, now, trade)
  }

  /** Everything one run of executeCopyTrade broadcasts, in order. */
  function Events(paused: bool, hasClient: bool, trade: TradeSignal, config: CopyTradeConfig, now: int,
                  market: Result<Market, string>, midpoint: Result<real, string>, response: OrderResponse): seq<StatusMessage>
    requires trade.price > 0.0
  {
    Trace(paused, Decide(paused, hasClient, trade, config, now, market, midpoint), response, now, trade)
  }

  /** Whether the run trips the circuit breaker: an order was submitted and failed with a balance error. */
  predicate Trips(paused: bool, hasClient: bool, trade: TradeSignal, config: CopyTradeConfig, now: int,
                  market: Result<Market, string>, midpoint: Result<real, string>, response: OrderResponse)
    requires trade.price > 0.0
  {
    Decide(paused, hasClient, trade, config, now, market, midpoint).Place? &&
    SubmitError(response).Some? && IsBalanceError(SubmitError(response).value)
  }

  function StatusesOf(ms: seq<StatusMessage>): (r: seq<OrderStatus>)
    ensures |r| == |ms| && forall i :: 0 <= i < |ms| ==> r[i] == ms[i].status
  {
    if ms == [] then [] else [ms[0].status] + StatusesOf(ms[1..])
  }

  /** The shape of every run: DETECTED first, then VALIDATING exactly when the engine was not paused,
      PLACING exactly when an order is submitted and then right before the last message, and one terminal
      status, last. */
  lemma EventsShape(paused: bool, hasClient: bool, trade: TradeSignal, config: CopyTradeConfig, now: int,
                    market: Result<Market, string>, midpoint: Result<real, string>, response: OrderResponse)
    requires trade.price > 0.0
    ensures var st := StatusesOf(Events(paused, hasClient, trade, config, now, market, midpoint, response));
      var d := Decide(paused, hasClient, trade, config, now, market, midpoint);
      && 2 <= |st| <= 4
      && st[0] == DETECTED
      && Terminal(st[|st| - 1])
      && (forall i :: 0 <= i < |st| - 1 ==> !Terminal(st[i]))
      && (VALIDATING in st <==> !paused)
      && (PLACING in st <==> d.Place?)
      && (d.Place? ==> st[|st| - 2] == PLACING)
      && (FILLED in st <==> d.Place? && response.Posted? && response.success)
  {
    TraceShape(paused, Decide(paused, hasClient, trade, config, now, market, midpoint), response, now, trade);
  }

  lemma TraceShape(paused: bool, d: Decision, response: OrderResponse, now: int, trade: TradeSignal)
    ensures var st := StatusesOf(Trace(paused, d, response, now, trade));
      && 2 <= |st| <= 4
      && st[0] == DETECTED
      && Terminal(st[|st| - 1])
      && (forall i :: 0 <= i < |st| - 1 ==> !Terminal(st[i]))
      && (VALIDATING in st <==> !paused)
      && (PLACING in st <==> d.Place?)
      && (d.Place? ==> st[|st| - 2] == PLACING)
      && (FILLED in st <==> d.Place? && response.Posted? && response.success)
  {
    TailShape(d, response, now, trade);
    TraceStatuses(paused, d, response, now, trade);
    PrefixShape(paused, StatusesOf(Tail(d, response, now, trade)), d.Place?, d.Place? && response.Posted? && response.success);
  }

  /** The opening statuses put before a tail of one terminal status, possibly preceded by PLACING. */
  lemma PrefixShape(paused: bool, tail: seq<OrderStatus>, placed: bool, filled: bool)
    requires |tail| == (if placed then 2 else 1)
    requires Terminal(tail[|tail| - 1])
    requires placed ==> tail[0] == PLACING
    requires DETECTED !in tail && VALIDATING !in tail
    requires PLACING in tail <==> placed
    requires FILLED in tail <==> filled
    ensures var st := (if paused then [DETECTED] else [DETECTED, VALIDATING]) + tail;
      && 2 <= |st| <= 4
      && st[0] == DETECTED
      && Terminal(st[|st| - 1])
      && (forall i :: 0 <= i < |st| - 1 ==> !Terminal(st[i]))
      && (VALIDATING in st <==> !paused)
      && (PLACING in st <==> placed)
      && (placed ==> st[|st| - 2] == PLACING)
      && (FILLED in st <==> filled)
  {
    var st := (if paused then [DETECTED] else [DETECTED, VALIDATING]) + tail;
    assert forall x :: x in st <==> x == DETECTED || (!paused && x == VALIDATING) || x in tail;
  }

  /** The statuses of a run: DETECTED, VALIDATING unless paused, then those of the tail. */
  lemma TraceStatuses(paused: bool, d: Decision, response: OrderResponse, now: int, trade: TradeSignal)
    ensures StatusesOf(Trace(paused, d, response, now, trade)) ==
      (if paused then [DETECTED] else [DETECTED, VALIDATING]) + StatusesOf(Tail(d, response, now, trade))
  {
    var head := [StatusMsg(DETECTED, now, trade, None, None, None)] +
      (if paused then [] else [StatusMsg(VALIDATING, now, trade, None, None, None)]);
    var tail := Tail(d, response, now, trade);
    assert Trace(paused, d, response, now, trade) == head + tail;
    var st := StatusesOf(head + tail);
    assert forall i :: 0 <= i < |head| ==> st[i] == head[i].status;
    assert forall i :: 0 <= i < |tail| ==> st[|head| + i] == StatusesOf(tail)[i];
  }

  /** Every message of a run carries the trade, its wallet label and the run's timestamp. */
  lemma EventsCarryTrade(paused: bool, hasClient: bool, trade: TradeSignal, config: CopyTradeConfig, now: int,
                         market: Result<Market, string>, midpoint: Result<real, string>, response: OrderResponse)
    requires trade.price > 0.0
    ensures var ev := Events(paused, hasClient, trade, config, now, market, midpoint, response);
      forall i :: 0 <= i < |ev| ==> ev[i].trade == trade && ev[i].walletLabel == trade.walletLabel && ev[i].timestamp == now
  {
    var d := Decide(paused, hasClient, trade, config, now, market, midpoint);
    var ev := Trace(paused, d, response, now, trade);
    assert forall i :: 0 <= i < |Tail(d, response, now, trade)| ==> Tail(d, response, now, trade)[i].trade == trade;
  }

  /** The messages after the opening ones: one terminal status, preceded by PLACING exactly when an order is submitted. */
  lemma TailShape(d: Decision, r: OrderResponse, now: int, trade: TradeSignal)
    ensures var st := StatusesOf(Tail(d, r, now, trade));
      && |st| == (if d.Place? then 2 else 1)
      && Terminal(st[|st| - 1])
      && (d.Place? ==> st[0] == PLACING)
      && DETECTED !in st && VALIDATING !in st
      && (PLACING in st <==> d.Place?)
      && (FILLED in st <==> d.Place? && r.Posted? && r.success)
  {
  }

  /** A SKIPPED run carries its reason code, a FAILED run its error, and a FILLED one the exchange's order id. */
  lemma TerminalPayload(paused: bool, hasClient: bool, trade: TradeSignal, config: CopyTradeConfig, now: int,
                        market: Result<Market, string>, midpoint: Result<real, string>, response: OrderResponse)
    requires trade.price > 0.0
    ensures var ev := Events(paused, hasClient, trade, config, now, market, midpoint, response);
      var last := ev[|ev| - 1];
      var d := Decide(paused, hasClient, trade, config, now, market, midpoint);
      && (d.Skip? ==> last.status == SKIPPED && last.reason == Some(d.reason.Code()))
      && (d.Fail? ==> last.status == FAILED && last.error == Some(d.error))
      && (d.Place? && SubmitError(response).Some? ==> last.status == FAILED && last.error == SubmitError(response))
      && (d.Place? && SubmitError(response).None? ==> last.status == FILLED && last.orderId == response.orderId)
  {
  }

  /** Only a submitted order whose error mentions the balance trips the breaker; skips and gate failures never do. */
  lemma OnlySubmissionsTrip(paused: bool, hasClient: bool, trade: TradeSignal, config: CopyTradeConfig, now: int,
                            market: Result<Market, string>, midpoint: Result<real, string>, response: OrderResponse)
    requires trade.price > 0.0
    ensures Trips(paused, hasClient, trade, config, now, market, midpoint, response) ==>
      !paused && PLACING in StatusesOf(Events(paused, hasClient, trade, config, now, market, midpoint, response))
    ensures response.Posted? && response.success ==> !Trips(paused, hasClient, trade, config, now, market, midpoint, response)
  {
    EventsShape(paused, hasClient, trade, config, now, market, midpoint, response);
  }

  /** The heuristic ignores case: a text and its lower-cased form are judged alike. */
  lemma BalanceErrorIgnoresCase(text: string)
    ensures IsBalanceError(text) <==> IsBalanceError(Lower(text))
    ensures IsBalanceError("BALANCE")
  {
    LowerIdempotent(text);
    assert OccursAt(Lower("BALANCE"), "balance", 0);
  }

  /** A text without the letter 'b' or 'f' in either case cannot mention either word. */
  lemma NoKeyLetters(text: string)
    requires 'b' !in text && 'B' !in text && 'f' !in text && 'F' !in text
    ensures !IsBalanceError(text)
  {
    var u := Lower(text);
    forall i | 0 <= i <= |u| - 7 ensures !OccursAt(u, "balance", i) {
      assert text[i] in text;
      assert u[i..i + 7][0] == u[i];
    }
    forall i | 0 <= i <= |u| - 12 ensures !OccursAt(u, "insufficient", i) {
      assert text[i + 5] in text;
      assert u[i..i + 12][5] == u[i + 5];
    }
  }

  /** A rejection whose status is missing or empty ("unknown error") never trips the breaker. */
  lemma UnknownErrorDoesNotTrip(status: Option<string>)
    requires status.None? || status == Some("")
    ensures !IsBalanceError(RejectionText(status))
  {
    var t := RejectionText(status);
    assert t == "unknown error";
    NoKeyLetters(t);
  }
}
