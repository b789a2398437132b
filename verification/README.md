# polymarket-monitor: a verified model of the copy-trade core

polymarket-monitor is a dashboard that follows the trades and positions of selected Polymarket wallets ("whales"). A separate copy-trade server can replicate a whale's BUY trades on the exchange's central limit order book. This project models in Dafny the logic at the centre of both parts. It also proves what that logic promises.

- **The copy-trade server** (`Sanitise`, `Pipeline`, `Sizing` and `Server` modules):
  - `handleMessage` clamps the config and drops malformed trades.
  - `executeCopyTrade` runs a short-circuiting gate sequence: paused engine, BUY only, freshness, client present, market fetch, accepting orders, outcome match, midpoint fetch, midpoint band, price drift.
  - It then sizes the order: multiplier, USD cap, price improvement, the 0.99 cap, round-down to the tick, round-down to cents, the $1 minimum notional and the market's minimum size.
  - It submits exactly one order and broadcasts a status trace: DETECTED, then VALIDATING, PLACING and one terminal status.
  - The circuit breaker has two pollers. A balance error on a submitted order, or a start-up balance below $2, pauses the engine. The 60-second recovery poll resumes it.
  - Also modelled: the WebSocket token check, the connection handshake and the ERC-20 `balanceOf` calldata.
  - A run of the pipeline is a function of its inputs: the paused flag, client presence, the trade, the config, the clock, and the market and midpoint answers (each a value or an error). The server state is a class whose methods take balance reads and exchange answers as inputs.
- **Query logic** (`Filters` and `Tags`): trade and position filters, the position status label, the query-string helpers, keyword-based tag detection, manual tag overrides, and the sorted union of all known tags.
- **Bounded, de-duplicating caches and stores** (`TradeCacheModel`, `TradeStoreModel`, `SystemStoreModel`, `FilterStoreModel`, `Wallets`, `WalletStoreModel`, `TagStoreModel`, `PresetStoreModel` and `Keyed`):
  - Each store that is updated in place is a class.
  - JavaScript `Map` and `Set` insertion order is kept as a sequence without duplicates.
  - Persistence (localStorage, JSON files) is two things: the value read at start-up, which is absent, text that does not parse as JSON, or a parsed value of the declared type, and a `writes` list of everything saved.
- **Small helpers** (`Parse`, `Auth` and `Format`): record normalisation, the bearer-token decision, and the age suffix of `formatTimeWithAge`.

Numbers are exact `real`s. JavaScript's NaN and the infinities appear only where the code tests for them (`JsNumber`): the sanitiser, the freshness gate and `parseNum`. String case mapping covers ASCII letters.

## Model

| member | source | states |
|---|---|---|
| `Sizing.TickSize.Value` | server/copy-trade-server.ts:414-415 | each of the exchange's tick sizes ("0.1" to "0.0001") is strictly between 0 and 1 |
| `Sizing.RoundToTick` | server/copy-trade-server.ts:259-262 | the result is at most the price, less than one tick below it, and a whole number of ticks |
| `Sizing.RoundToTickIdempotent` | server/copy-trade-server.ts:259-262 | rounding an already rounded price to the tick changes nothing |
| `Sizing.RoundSize` | server/copy-trade-server.ts:264-266 | the result is at most the size, less than 0.01 below it, and a whole number of cents |
| `Sizing.RoundSizeIdempotent` | server/copy-trade-server.ts:264-266 | rounding an already rounded size changes nothing |
| `Sizing.FloorTo` | server/copy-trade-server.ts:260-261 | `floor(x / t) * t` is the largest multiple of the step `t` not above `x` |
| `Sizing.Ceil` | server/copy-trade-server.ts:444 | `Math.ceil(x)` is the least integer at or above `x` |
| `Sizing.CeilCents` | server/copy-trade-server.ts:444-450 | `ceil(x*100)/100` is the least whole number of cents at or above `x` |
| `Sizing.OrderPriceBounds` | server/copy-trade-server.ts:429-437 | the order price is at most 0.99 and at most the improved price, less than one tick below the smaller of the two, and on the tick |
| `Sizing.CappedSizeIsMin` | server/copy-trade-server.ts:420-426 | the capped size is min(size times multiplier, maxSingleTrade / price), so the order never spends more than maxSingleTrade at the trade's price |
| `Sizing.ApplyMinimumsSpec` | server/copy-trade-server.ts:442-451 | after the two minimums the order is worth at least $1, has at least the market's minimum size, only grew, and is unchanged when it already met both |
| `Sizing.UsdMinimumSpec` | server/copy-trade-server.ts:442-446 | for a positive price the $1 step leaves an order worth at least $1, never shrinks the size, and keeps a size already worth $1 |
| `Sizing.MarketMinimumSpec` | server/copy-trade-server.ts:448-451 | the market-minimum step leaves a positive size at least the market minimum, never shrinks it, and keeps an order worth $1 worth $1 |
| `Sizing.SizeOrder` | server/copy-trade-server.ts:413-463 | no order exactly when the price rounds to 0 (zero_order); otherwise the price is the rounded improved price in (0, 0.99] and the size meets both minimums, is at least the rounded capped size, and equals it when that already met both minimums; in every case the size is a cent amount less than a cent above the largest of the rounded capped size, $1 / price and the market minimum (with `Sizing.ApplyMinimumsLeast`, the least cent amount meeting both minimums and the rounded capped size) |
| `Sizing.SizeOrderMonotone` | server/copy-trade-server.ts:420-451 | for a non-negative trade size a larger multiplier never gives a smaller order, through the maxSingleTrade cap and both minimums, and the order price does not depend on it |
| `Sizing.ScenarioA` | server/copy-trade-server.ts:420-451 | 100 shares at 0.5 with multiplier 0.5, a $1 cap, 2% improvement, tick 0.01 and market minimum 5 give 5 shares at 0.51 |
| `Sizing.CappedSize` | server/copy-trade-server.ts:420-426 | the scaled size capped at maxSingleTrade / price; its contract is `Sizing.CappedSizeIsMin`, its growth with the multiplier `Sizing.CappedSizeMono` |
| `Sizing.CappedSizeMono` | server/copy-trade-server.ts:420-426 | for a non-negative trade size the capped size grows with the multiplier |
| `Sizing.RoundSizeMono` | server/copy-trade-server.ts:439-440 | rounding down to cents is monotone |
| `Sizing.OrderPrice` | server/copy-trade-server.ts:429-437 | the improved price capped at 0.99 and rounded down to the tick; its contract is `Sizing.OrderPriceBounds` |
| `Sizing.UsdMinimum` | server/copy-trade-server.ts:442-446 | the $1 step; its contract is `Sizing.UsdMinimumSpec` |
| `Sizing.MarketMinimum` | server/copy-trade-server.ts:448-451 | the market-minimum step; its contract is `Sizing.MarketMinimumSpec` |
| `Sizing.ApplyMinimums` | server/copy-trade-server.ts:442-451 | the two steps in order; its contracts are `Sizing.ApplyMinimumsSpec`, `Sizing.ApplyMinimumsLeast` and `Sizing.ApplyMinimumsOnCents` |
| `Sizing.ApplyMinimumsLeast` | server/copy-trade-server.ts:442-451 | no cent amount at or above the size that is worth $1 and reaches the market minimum lies below the result |
| `Sizing.ApplyMinimumsOnCents` | server/copy-trade-server.ts:442-451 | from a cent amount the result is a cent amount less than a cent above the largest of the size, $1 / price and the market minimum |
| `Sizing.CeilCentsLeast` | server/copy-trade-server.ts:444 | no cent amount at or above x lies below `Math.ceil(x * 100) / 100` |
| `Sanitise.ClampField` | server/copy-trade-server.ts:618-620 | `max(lo, min(hi, x or fallback))`: always in [lo, hi]; a falsy value (0, NaN, missing) takes the fallback; the infinities go to the bounds |
| `Sanitise.SanitiseConfig` | server/copy-trade-server.ts:617-620 | multiplier in [0.01, 10], maxSingleTrade in [0.5, 10000], priceImprovementPct in [0, 0.10]; a falsy field becomes 0.5, 1 or 0.02 |
| `Sanitise.SanitiseConfigKeepsValid` | server/copy-trade-server.ts:618-620 | a config already inside the ranges, with a non-zero improvement, passes through unchanged |
| `Sanitise.ZeroImprovementBecomesDefault` | server/copy-trade-server.ts:620 | an explicit price improvement of 0 is falsy and becomes 0.02 |
| `Sanitise.SanitiseConfigIdempotent` | server/copy-trade-server.ts:617-620 | clamping a clamped config with a non-zero improvement changes nothing |
| `Sanitise.ToSignal` | server/copy-trade-server.ts:623-629 | a trade that passed validation has a positive price and size |
| `Sanitise.SanitiseMessage` | server/copy-trade-server.ts:597-629 | a message is accepted exactly when it parses, has type copy_trade, carries trade and config, and the trade has non-empty conditionId, outcome and side with finite positive price and size; the result is that trade and the clamped config |
| `Pipeline.StatusMsg` | server/copy-trade-server.ts:141-154 | a status message carries its status, the timestamp it is given, the trade and its wallet label |
| `Pipeline.FindToken` | server/copy-trade-server.ts:358-359 | `find`: None exactly when no token's outcome equals the trade's ignoring case; otherwise the first token that matches |
| `Pipeline.SizedDecision` | server/copy-trade-server.ts:413-463 | after the gates: either the zero_order skip or an order for the matched token with the market's tick (default 0.01) and negRisk (default false) |
| `Pipeline.Decide` | server/copy-trade-server.ts:284-463 | an order is placed exactly when every gate passes and the order price is positive |
| `Pipeline.GatesInOrder` | server/copy-trade-server.ts:285-411 | the gates short-circuit in their fixed order, and the first failing gate decides the outcome: circuit_breaker, sell_trade, stale, no_client, the market error, market_closed, outcome_not_found, the midpoint error, resolved, price_drift |
| `Pipeline.GatesPass` | server/copy-trade-server.ts:285-411 | every gate passes; its contracts are `Pipeline.Decide`'s and `Pipeline.GatesInOrder` |
| `Pipeline.IsStale` | server/copy-trade-server.ts:311-313 | `now() - timestamp > 60` on a JavaScript number: never for NaN or +Infinity, always for -Infinity; its place among the gates is in `Pipeline.GatesInOrder` |
| `Pipeline.EarlyGatesNeverPlace` | server/copy-trade-server.ts:285-322 | a paused engine, a non-BUY or a stale trade is skipped, whatever the exchange would say |
| `Pipeline.PlacedOrderSpec` | server/copy-trade-server.ts:414-486 | a placed order is for the first token whose outcome matches; its price is in (0, 0.99], at most the improved price and on the market's tick; it is worth at least $1 and at least the market minimum; its size is the scaled, capped, cent-rounded size whenever that met both minimums, and otherwise a cent amount less than a cent above what the minimums demand |
| `Pipeline.ZeroPriceSkips` | server/copy-trade-server.ts:453-463 | when every gate passes but the price rounds down to 0 the run ends in SKIPPED zero_order, never PLACING |
| `Pipeline.RejectionText` | server/copy-trade-server.ts:499-501 | a rejected order's error is its truthy status, otherwise "unknown error"; never empty |
| `Pipeline.SubmitResult` | server/copy-trade-server.ts:478-529 | FILLED exactly when the response says success, carrying its order id; otherwise FAILED with the rejection text or the thrown message |
| `Pipeline.EventsShape` | server/copy-trade-server.ts:280-530 | every run broadcasts 2 to 4 messages: DETECTED first; VALIDATING exactly when not paused; PLACING exactly when an order is submitted, and then just before the last; exactly one terminal status (SKIPPED, FAILED, FILLED), last; FILLED exactly on a successful submission |
| `Pipeline.TraceShape` | server/copy-trade-server.ts:280-530 | the same shape for the trace of any decision |
| `Pipeline.TailShape` | server/copy-trade-server.ts:453-529 | after the opening messages: one terminal status, preceded by PLACING exactly when an order is submitted |
| `Pipeline.EventsCarryTrade` | server/copy-trade-server.ts:278-281 | every message of a run carries the trade, its wallet label and the one clock reading the run is given (see "## Left out") |
| `Pipeline.Events` | server/copy-trade-server.ts:280-530 | the messages a run broadcasts; its contracts are `Pipeline.EventsShape`, `Pipeline.EventsCarryTrade` and `Pipeline.TerminalPayload` |
| `Pipeline.Trips` | server/copy-trade-server.ts:510-528 | whether a run trips the breaker; its contracts are `Pipeline.OnlySubmissionsTrip` and `Pipeline.UnknownErrorDoesNotTrip` |
| `Pipeline.TerminalPayload` | server/copy-trade-server.ts:285-529 | a SKIPPED run ends with its reason code, a FAILED one with its error, a FILLED one with the exchange's order id |
| `Pipeline.OnlySubmissionsTrip` | server/copy-trade-server.ts:510-528 | only a submitted order (an unpaused run with PLACING) whose error mentions the balance trips the breaker; a successful order never does |
| `Pipeline.BalanceErrorIgnoresCase` | server/copy-trade-server.ts:511 | the balance-error test ignores case: a text and its lower-cased form are judged alike, and "BALANCE" counts |
| `Pipeline.UnknownErrorDoesNotTrip` | server/copy-trade-server.ts:499-513 | a rejection whose status is missing or empty ("unknown error") never trips the breaker |
| `Server.SignatureFor` | server/copy-trade-server.ts:556-565 | SIGNATURE_TYPE 1 selects POLY_PROXY and 2 selects POLY_GNOSIS_SAFE; anything else selects EOA |
| `Server.AsBroadcasts` | server/copy-trade-server.ts:132-138 | each status message is broadcast once, in order |
| `Server.TokenCheck` | server/copy-trade-server.ts:666-670 | with no token configured (unset or empty) every connection is accepted; otherwise exactly those presenting that token |
| `Server.TokenAccepted` | server/copy-trade-server.ts:666-670 | the token check; its contract is `Server.TokenCheck` |
| `Server.BalanceOfCalldataLayout` | server/copy-trade-server.ts:173-174 | for a 0x-prefixed 40-digit address the calldata is 74 characters: the selector 0x70a08231 (EIP-20 `balanceOf`), 24 zero digits (the ABI's left padding of a static `address` to 32 bytes), then the address's digits lower-cased |
| `Server.BalanceOfCalldata` | server/copy-trade-server.ts:173-174 | the `balanceOf` calldata; its contract is `Server.BalanceOfCalldataLayout` |
| `Server.CopyTradeServer.constructor` | server/copy-trade-server.ts:115-120 | no client, engine active, lastBalance -1, no poller, nothing broadcast |
| `Server.CopyTradeServer.ActivateCircuitBreaker` | server/copy-trade-server.ts:208-253 | a no-op when already paused; otherwise pauses, announces PAUSED, and swaps the regular poll for the recovery poll; paused exactly when the recovery poll runs is kept |
| `Server.CopyTradeServer.RegularPollTick` | server/copy-trade-server.ts:194-202 | the 30-second poll records and broadcasts a balance it read, and never pauses the engine; a failed read changes nothing |
| `Server.CopyTradeServer.RecoveryTick` | server/copy-trade-server.ts:225-252 | a recovery read of at least 2 resumes the engine, broadcasts ACTIVE and swaps back to the 30-second poll; a lower read only updates and broadcasts the balance; a failed read changes nothing |
| `Server.CopyTradeServer.InitClobClient` | server/copy-trade-server.ts:536-590 | without a key nothing happens; the funder is the proxy address when set; the client exists and the signature type is set once credentials are derived, and the signature type is kept otherwise; a start-up balance below 2 pauses an active engine, broadcasts PAUSED and starts the recovery poll, and nothing else is broadcast or changes the poller; a failure stops the sequence where it happened |
| `Server.CopyTradeServer.StartPolling` | server/copy-trade-server.ts:712-715 | the regular poll starts only with a wallet address and an active engine |
| `Server.CopyTradeServer.Shutdown` | server/copy-trade-server.ts:718-722 | both timers are cleared |
| `Server.CopyTradeServer.ExecuteCopyTrade` | server/copy-trade-server.ts:272-530 | broadcasts the run's trace, and pauses the engine (with the recovery poll) exactly when the run trips the breaker |
| `Server.CopyTradeServer.HandleMessage` | server/copy-trade-server.ts:597-635 | a dropped message changes nothing; an accepted one runs the pipeline on the validated trade and the clamped config: its messages are broadcast, the engine pauses and the recovery poll starts exactly when the run trips the breaker, and the balance, client, wallet, signature type and shutdown flag are unchanged |
| `Server.CopyTradeServer.Handshake` | server/copy-trade-server.ts:661-695 | a refused connection gets nothing; an accepted one gets the engine state first, then the last balance exactly when it is at least 0 |
| `Server.StartUpTripAndRecovery` | server/copy-trade-server.ts:207-252 | an example run, not an operation: a start-up balance of 1.5 pauses the engine, a recovery read of 2.5 resumes it on the regular poll, with the broadcasts in order |
| `Filters.PositionStatusLabel` | lib/shared/filters.ts:50-55 | not redeemable is "active"; otherwise "won" at 0.95 or more, "lost" at 0.05 or less, "resolving" strictly between (each label iff its condition) |
| `Filters.ItemTags` | lib/shared/filters.ts:92-96 | without an override the item's tags are detectTags of its title; with one they are resolveTags: the detected tags it keeps, then its added tags |
| `Filters.ItemTagsOverride` | lib/shared/filters.ts:92-96 | under an override the item's tags are duplicate-free and are exactly the detected tags not removed plus every added tag |
| `Filters.FilterTrades` | lib/shared/filters.ts:61-102 | a trade is kept exactly when it meets every criterion that is set; nothing else appears |
| `Filters.FilterTradesConcat` | lib/shared/filters.ts:66-101 | the kept trades stay in input order: filtering distributes over concatenation |
| `Filters.EmptyTradeFilterKeepsAll` | lib/shared/filters.ts:66-101 | with no criterion set (undefined, or an empty string or array) the input comes back unchanged |
| `Filters.TradeBoundsInclusive` | lib/shared/filters.ts:69-88 | size, price and time bounds are inclusive |
| `Filters.TradeTitleCriterion` | lib/shared/filters.ts:75-78 | titleSearch is a case-insensitive substring test |
| `Filters.TradeTitleCaseInsensitive` | lib/shared/filters.ts:75-78 | lower-casing the title or the search text changes no decision |
| `Filters.TradeOutcomeCriterion` | lib/shared/filters.ts:80-83 | outcome is a case-insensitive substring test |
| `Filters.TradeConditionCriterion` | lib/shared/filters.ts:90 | conditionId is an exact match |
| `Filters.TradeTagCriterion` | lib/shared/filters.ts:92-98 | a tag filter keeps a trade iff one filter tag is among its tags (resolveTags with an override, detectTags otherwise) |
| `Filters.FilterPositions` | lib/shared/filters.ts:104-144 | a position is kept exactly when it meets every criterion that is set |
| `Filters.FilterPositionsConcat` | lib/shared/filters.ts:109-143 | the kept positions stay in input order |
| `Filters.EmptyPositionFilterKeepsAll` | lib/shared/filters.ts:104-144 | with no criterion set the input comes back unchanged |
| `Filters.PositionBoundsInclusive` | lib/shared/filters.ts:115-125 | share, value, PnL and return bounds are inclusive |
| `Filters.PositionStatusCriterion` | lib/shared/filters.ts:110-113 | a status filter keeps a position iff its label is listed; an unredeemable one iff "active" is listed |
| `Filters.SplitComma` | lib/shared/filters.ts:150-153 | [] for null or ""; no piece is empty |
| `Filters.SplitCommaPieces` | lib/shared/filters.ts:150-153 | no piece holds a comma or starts or ends with white space |
| `Filters.TrimPiece` | lib/shared/filters.ts:150-153 | trimming a comma-free piece gives a comma-free piece with no white space at either end |
| `Filters.SplitCommaClean` | lib/shared/filters.ts:150-153 | splitting a comma-joined list of non-empty, space-free items gives the items back |
| `Filters.ParseNum` | lib/shared/filters.ts:155-159 | a number exactly when the text is non-empty and parses to a finite value, and then that value |
| `Filters.EmptyQueryKeepsAll` | lib/shared/filters.ts:161-218 | a query with no parameters builds filters that keep every trade and every position |
| `Filters.ParseTradeFilterFromQuery` | lib/shared/filters.ts:161-191 | each trade criterion read from its query parameter; its contracts are `Filters.SplitComma`, `Filters.ParseNum` and `Filters.EmptyQueryKeepsAll` |
| `Filters.ParsePositionFilterFromQuery` | lib/shared/filters.ts:193-218 | each position criterion read from its query parameter; its contracts are `Filters.SplitComma`, `Filters.ParseNum` and `Filters.EmptyQueryKeepsAll` |
| `Tags.Keywords` | lib/shared/tags.ts:5-88 | the keywords in the table's key order |
| `Tags.InsertByLengthCorrect` | lib/shared/tags.ts:91-93 | one insertion step of the stable sort keeps longest first and adds exactly the keyword |
| `Tags.SortByLengthDescCorrect` | lib/shared/tags.ts:91-93 | sorting by length is a permutation with non-increasing lengths |
| `Tags.SortedKeywordsSpec` | lib/shared/tags.ts:91-93 | SORTED_KEYWORDS has non-increasing lengths and is a permutation of the table's keys |
| `Tags.DetectUpToSpec` | lib/shared/tags.ts:103-109 | after any number of keywords the tag set is duplicate-free and holds exactly the tags of the keywords tried so far that occur |
| `Tags.DetectedSpec` | lib/shared/tags.ts:99-112 | detectTags is duplicate-free, and t is in it iff some keyword occurring in the lower-cased title maps to t |
| `Tags.AddTags` | lib/shared/tags.ts:105-107 | adding tags to a Set keeps it duplicate-free and adds exactly those tags |
| `Tags.DetectOver` | lib/shared/tags.ts:103-109 | the keyword loop computes the tag set of the keywords that occur |
| `Tags.DetectTags` | lib/shared/tags.ts:99-112 | duplicate-free, and t is in it iff some keyword in the lower-cased title maps to t |
| `Tags.ApplyOverrideSpec` | lib/shared/tags.ts:136-147 | the result is duplicate-free and contains every add tag; it omits every auto tag that is removed and not added; its members are (auto minus remove) plus add; the surviving auto tags come first, in order, then new add tags only |
| `Tags.PushMissing` | lib/shared/tags.ts:141-145 | the loop appends, in order, each add tag the list does not yet hold |
| `Tags.ResolvedNoOverride` | lib/shared/tags.ts:132-134 | with no override resolveTags equals detectTags |
| `Tags.ResolveTags` | lib/shared/tags.ts:128-148 | the loop computes the override's result: duplicate-free, holding every add tag |
| `Tags.SortStringsCorrect` | lib/shared/tags.ts:171 | sorting a duplicate-free list gives a strictly ascending permutation of it |
| `Tags.TitleTagsSpec` | lib/shared/tags.ts:159-163 | the tags gathered from the titles are exactly those detected in some title |
| `Tags.GatherTitleTags` | lib/shared/tags.ts:157-163 | the set built from the titles is duplicate-free and holds exactly the tags detected in some title |
| `Tags.GatherOverrideTags` | lib/shared/tags.ts:165-169 | adding every override's add tags to a duplicate-free set keeps it duplicate-free and holds exactly the old tags plus those add tags |
| `Tags.GetAllKnownTags` | lib/shared/tags.ts:153-172 | strictly ascending (so duplicate-free); t is in it iff it is detected in some title or is an add tag of some override; remove tags are not applied |
| `Tags.SortedUnion` | lib/shared/tags.ts:171 | sorting the gathered set gives the ascending union of title tags and add tags |
| `Keyed.OrderedMap.Get` | server/tag-store.ts:58-60 | `map.get(k)`: a value exactly when the key is present, and then its entry |
| `Keyed.OrderedMap.Put` | server/tag-store.ts:71 | `map.set`: the entry is replaced; an existing key keeps its place and a new key goes last; the map stays well formed |
| `Keyed.OrderedMap.Remove` | server/tag-store.ts:76 | `map.delete`: the entry and its key go, every other key stays, in its order (a subsequence) |
| `Keyed.OrderedMap.RemoveValid` | server/tag-store.ts:75-79 | deleting keeps the map well formed, and deleting an absent key changes nothing |
| `Keyed.OrderedMap.Values` | server/tag-store.ts:66-68 | `Array.from(map.values())`: one value per key, in key order |
| `Keyed.Empty` | server/tag-store.ts:22 | a new map is empty and well formed |
| `Keyed.Loaded` | server/tag-store.ts:35-38 | clearing and setting every item of the array in turn gives a well-formed map |
| `Keyed.KeysOf` | server/tag-store.ts:36-38 | the set of the items' keys |
| `Keyed.LoadedKeys` | server/tag-store.ts:35-38 | the loaded keys are exactly the items' keys |
| `Keyed.LoadedUnderOwnKey` | server/tag-store.ts:36-38 | every loaded entry is filed under its own key |
| `Keyed.LoadedLastWins` | server/tag-store.ts:36-38 | of several items with one key the last one wins |
| `TagStoreModel.TagStore.constructor` | server/tag-store.ts:24-46 | a parsed file is loaded in order (later duplicates win); a missing file or one that does not parse as JSON leaves the map empty; nothing is written |
| `TagStoreModel.TagStore.Get` | server/tag-store.ts:58-60 | an override exactly when one is filed under the condition, and it is that condition's |
| `TagStoreModel.TagStore.GetAll` | server/tag-store.ts:62-64 | a map answering every lookup as the store does, with the same key order; a value, so later changes on either side do not reach the other |
| `TagStoreModel.TagStore.GetAllArray` | server/tag-store.ts:66-68 | one override per condition, in the order the conditions were first set |
| `TagStoreModel.TagStore.Set` | server/tag-store.ts:70-73 | files {conditionId, addTags, removeTags} under the condition, leaves every other lookup unchanged, and writes the file |
| `TagStoreModel.TagStore.Delete` | server/tag-store.ts:75-79 | true iff the key was present; only then is the map changed and the file written; afterwards the key is absent |
| `PresetStoreModel.PresetStore.constructor` | server/preset-store.ts:27-44 | a parsed file is loaded keyed by id (later duplicates win); a missing file or one that does not parse as JSON leaves the map empty |
| `PresetStoreModel.PresetStore.Get` | server/preset-store.ts:60-62 | a preset exactly when one has the id, and it has that id |
| `PresetStoreModel.PresetStore.GetAll` | server/preset-store.ts:56-58 | exactly the stored presets, one per id, in first-set order |
| `PresetStoreModel.PresetStore.Set` | server/preset-store.ts:64-67 | upserts by id and writes the file; a following get(id) returns the preset; other ids are untouched |
| `PresetStoreModel.PresetStore.Delete` | server/preset-store.ts:69-73 | true iff the id existed; only then is the map changed and the file written |
| `TradeCacheModel.PushFront` | server/trade-cache.ts:35-40 | `unshift` then truncation: the trade first, then the newest of the old list that fit within the limit |
| `TradeCacheModel.Trimmed` | server/trade-cache.ts:27-32 | the trim removes the 1000 earliest-inserted hashes (all of them when fewer) |
| `TradeCacheModel.AdmitHash` | server/trade-cache.ts:20-33 | admitting an unseen hash to a duplicate-free set of at most 10000 keeps it duplicate-free and within 10000, with the new hash last, trimming the 1000 oldest only once it passes 10000 |
| `TradeCacheModel.InsertByTimestamp` | server/trade-cache.ts:63 | one insertion step adds exactly the trade |
| `TradeCacheModel.InsertByTimestampCounts` | server/trade-cache.ts:63 | one insertion step adds one occurrence of the trade |
| `TradeCacheModel.InsertByTimestampSorted` | server/trade-cache.ts:63 | one insertion step keeps newest first |
| `TradeCacheModel.SortByTimestampDesc` | server/trade-cache.ts:63 | the sort is a permutation, newest first |
| `TradeCacheModel.TradeCache.constructor` | server/trade-cache.ts:10-12 | empty cache and empty hash set |
| `TradeCacheModel.TradeCache.Get` | server/trade-cache.ts:49-51 | [] for an unknown (lower-cased) wallet; at most 500 trades, all of that wallet |
| `TradeCacheModel.TradeCache.Add` | server/trade-cache.ts:17-44 | false with nothing changed for a seen hash; otherwise true, the hash kept and the set trimmed of its 1000 oldest when past 10000 (so never above 10000, never losing the new hash), and the trade at the head of its lower-cased wallet's list (at most 500); other wallets untouched |
| `TradeCacheModel.TradeCache.Gathered` | server/trade-cache.ts:56-61 | the concatenation holds exactly the trades of the listed wallets |
| `TradeCacheModel.TradeCache.GetMultiple` | server/trade-cache.ts:56-65 | newest first, and a permutation of the listed wallets' lists concatenated (so its length is the sum of theirs) |
| `TradeCacheModel.TradeCache.Wallets` | server/trade-cache.ts:70-72 | each wallet with cached trades once |
| `TradeCacheModel.TradeCache.SumLengthsBound` | server/trade-cache.ts:77-87 | at most 500 trades per wallet in total |
| `TradeCacheModel.TradeCache.Stats` | server/trade-cache.ts:77-87 | wallets is the number of keys; totalTrades is the sum of the list lengths (at most 500 per wallet); seenHashes is the size of the set (at most 10000) |
| `TradeCacheModel.TradeCache.Clear` | server/trade-cache.ts:89-92 | empties both the cache and the hash set |
| `TradeStoreModel.EvictOldest` | lib/stores/trade-store.ts:22-26 | a full set drops its first-inserted hash; a set that is not full is unchanged |
| `TradeStoreModel.EvictOldestKeepsBound` | lib/stores/trade-store.ts:22-27 | eviction followed by admitting a new hash keeps the set duplicate-free, at most 10000 entries, with the new hash last |
| `TradeStoreModel.EmptyOldestHashGrows` | lib/stores/trade-store.ts:22-27 | as written, a full set whose oldest hash is "" grows by one |
| `TradeStoreModel.FullSetWithEmptyOldest` | lib/stores/trade-store.ts:23-25 | a full set of 10000 hashes whose oldest is "" |
| `TradeStoreModel.EmptyOldestHashOverflows` | lib/stores/trade-store.ts:22-27 | as written, a full set of distinct hashes with "" oldest holds 10001 after one more trade |
| `TradeStoreModel.TradeStore.constructor` | lib/stores/trade-store.ts:13-14 | no trades and no hashes |
| `TradeStoreModel.TradeStore.GetTradesForWallet` | lib/stores/trade-store.ts:41-43 | [] for an unknown (lower-cased) wallet; at most 100 trades, all of that wallet |
| `TradeStoreModel.TradeStore.AddTrade` | lib/stores/trade-store.ts:16-39 | false with nothing changed for a seen hash; otherwise true, the oldest hash evicted from a full set before the new one is added (never above 10000), the trade at the head of its lower-cased wallet's list cut to 100, other wallets untouched; it uses the corrected eviction, which also drops an empty oldest hash (see "## Findings") |
| `SystemStoreModel.PrependCapped` | lib/stores/system-store.ts:63 | `[x, ...s].slice(0, cap)`: x first, then the newest of s that fit |
| `SystemStoreModel.Incremented` | lib/stores/system-store.ts:73-87 | exactly the named counter grows by one; every other field is unchanged |
| `SystemStoreModel.IncrementedAddsOne` | lib/stores/system-store.ts:73-87 | each increment adds exactly one to filled + failed + skipped |
| `SystemStoreModel.NewestFirstDistinct` | lib/stores/system-store.ts:61 | log counters that strictly decrease give pairwise distinct ids |
| `SystemStoreModel.PrependKeepsNewestFirst` | lib/stores/system-store.ts:60-65 | prepending an entry numbered by the incremented counter keeps the counters strictly decreasing |
| `SystemStoreModel.SystemStore.constructor` | lib/stores/system-store.ts:21-37 | the initial status, empty lists, counter 0 |
| `SystemStoreModel.SystemStore.SetWsConnected` | lib/stores/system-store.ts:39-40 | only wsConnected changes |
| `SystemStoreModel.SystemStore.SetWsLastMessage` | lib/stores/system-store.ts:42-43 | only wsLastMessage changes |
| `SystemStoreModel.SystemStore.SetPollLastSuccess` | lib/stores/system-store.ts:45-46 | only pollLastSuccess changes |
| `SystemStoreModel.SystemStore.SetCopyTradeEngine` | lib/stores/system-store.ts:48-55 | only the engine state and its message change |
| `SystemStoreModel.SystemStore.SetUserBalance` | lib/stores/system-store.ts:57-58 | only userBalance changes |
| `SystemStoreModel.SystemStore.AddLogEntry` | lib/stores/system-store.ts:60-65 | the entry with the next id goes first; at most 200 entries, newest first; ids pairwise distinct |
| `SystemStoreModel.SystemStore.AddOrderStatus` | lib/stores/system-store.ts:67-71 | the status goes first; at most 100 kept; ordersTotal grows by exactly 1 |
| `SystemStoreModel.SystemStore.IncrementOrders` | lib/stores/system-store.ts:73-87 | exactly the named counter grows by one |
| `FilterStoreModel.WithoutPreset` | lib/stores/filter-store.ts:99-105 | exactly the presets with other ids remain, in their order (a subsequence) |
| `FilterStoreModel.WithPreset` | lib/stores/filter-store.ts:90-97 | the presets with other ids in their order, then the new preset last |
| `FilterStoreModel.WithPresetUnique` | lib/stores/filter-store.ts:90-97 | after a save exactly one preset has the id, and it is the last |
| `FilterStoreModel.WithPresetIdempotent` | lib/stores/filter-store.ts:90-97 | saving the same preset twice is saving it once |
| `FilterStoreModel.DeleteUndoesSave` | lib/stores/filter-store.ts:90-105 | deleting a just-saved preset leaves what deleting it from the old list leaves |
| `FilterStoreModel.FilterStore.constructor` | lib/stores/filter-store.ts:49-52 | no filters and no presets |
| `FilterStoreModel.FilterStore.UseTradeFilter` | lib/stores/filter-store.ts:120-124 | the wallet's (lower-cased) trade filter, or the empty filter when it has none |
| `FilterStoreModel.FilterStore.UsePositionFilter` | lib/stores/filter-store.ts:126-130 | the wallet's position filter, or the empty filter |
| `FilterStoreModel.FilterStore.SetTradeFilter` | lib/stores/filter-store.ts:54-59 | stores the filter under the lower-cased wallet; other keys unchanged |
| `FilterStoreModel.FilterStore.SetPositionFilter` | lib/stores/filter-store.ts:61-66 | stores the filter under the lower-cased wallet; other keys unchanged |
| `FilterStoreModel.FilterStore.ClearTradeFilter` | lib/stores/filter-store.ts:68-75 | removes only that wallet's key; its filter reads as empty afterwards |
| `FilterStoreModel.FilterStore.ClearPositionFilter` | lib/stores/filter-store.ts:77-84 | removes only that wallet's key |
| `FilterStoreModel.FilterStore.LoadPresets` | lib/stores/filter-store.ts:34-42 | the stored list, or [] when there is none, it does not parse, or this is the server |
| `FilterStoreModel.FilterStore.SavePreset` | lib/stores/filter-store.ts:90-97 | the list becomes the upsert result and is written out |
| `FilterStoreModel.FilterStore.DeletePreset` | lib/stores/filter-store.ts:99-105 | every preset with the id goes, and the list is written out |
| `FilterStoreModel.FilterStore.ApplyPreset` | lib/stores/filter-store.ts:107-113 | scope "trades" sets the trade filter, any other scope the position filter; nothing else changes |
| `Wallets.GetDefaultWallets` | lib/wallets.ts:7-15 | one wallet per bundled entry, address lower-cased, copy-trade off, default config |
| `Wallets.LoadWallets` | lib/wallets.ts:17-26 | the stored list when there is one that parses in the browser; the defaults otherwise |
| `Wallets.AddWallet` | lib/wallets.ts:33-47 | unchanged when the lower-cased address is present; otherwise exactly one new wallet at the end (copy-trade off, default config) |
| `Wallets.AddWalletKeepsUnique` | lib/wallets.ts:33-46 | adding keeps addresses unique |
| `Wallets.RemoveWallet` | lib/wallets.ts:49-53 | every wallet with the lower-cased address goes; the rest stay in their order (a subsequence); absent address leaves the list as it was |
| `Wallets.RemoveUndoesAdd` | lib/wallets.ts:33-53 | removing a wallet just added restores the list |
| `Wallets.RemoveWalletKeepsUnique` | lib/wallets.ts:49-53 | removing keeps addresses unique |
| `WalletStoreModel.MergeConfig` | lib/stores/wallet-store.ts:54 | `{...c, ...p}`: each field the partial mentions replaces the old one, the others stay |
| `WalletStoreModel.MergeConfigIdempotent` | lib/stores/wallet-store.ts:54 | merging a partial twice is merging it once; an empty partial changes nothing |
| `WalletStoreModel.Toggled` | lib/stores/wallet-store.ts:39-43 | flips copyTradeEnabled on exactly the wallets with the lower-cased address; nothing else changes |
| `WalletStoreModel.ToggleTwice` | lib/stores/wallet-store.ts:38-46 | toggling twice restores the list |
| `WalletStoreModel.Reconfigured` | lib/stores/wallet-store.ts:52-56 | the matching wallets get the merged config; nothing else changes |
| `WalletStoreModel.ReconfiguredIdempotent` | lib/stores/wallet-store.ts:48-59 | applying the same update twice is applying it once |
| `WalletStoreModel.WalletStore.constructor` | lib/stores/wallet-store.ts:19-20 | no wallets, not initialized |
| `WalletStoreModel.WalletStore.Init` | lib/stores/wallet-store.ts:22-26 | loads the wallets the first time; once initialized, later calls change nothing |
| `WalletStoreModel.WalletStore.Add` | lib/stores/wallet-store.ts:28-31 | the list becomes addWallet of the current one, written out only when it grew |
| `WalletStoreModel.WalletStore.Remove` | lib/stores/wallet-store.ts:33-36 | the list becomes removeWallet of the current one, and is written out |
| `WalletStoreModel.WalletStore.ToggleCopyTrade` | lib/stores/wallet-store.ts:38-46 | the list becomes the toggled list, and is written out |
| `WalletStoreModel.WalletStore.UpdateCopyTradeConfig` | lib/stores/wallet-store.ts:48-59 | the list becomes the reconfigured list, and is written out |
| `Parse.MarketTitle` | lib/shared/parse.ts:6 | the raw title when non-empty; otherwise "Market ", the first 10 characters of the condition id, then "..." |
| `Parse.ParseTrade` | lib/shared/parse.ts:3-16 | the wallet lower-cased, size and price parsed, the title defaulted, source and the identifiers copied |
| `Parse.ParseTradeWalletNormalised` | lib/shared/parse.ts:13 | a parsed trade's wallet has no upper-case letter and lower-casing it again changes nothing |
| `Parse.ParseOr0` | lib/shared/parse.ts:34-39 | `parseFloat(x ?? "0")` |
| `Parse.ParsePosition` | lib/shared/parse.ts:18-44 | marketValue = curPrice times size and unrealizedPnl = (curPrice - avgPrice) times size; present optional fields are copied (endDate, slug, icon, eventSlug, redeemable) or parsed (cashPnl, realizedPnl, initialValue, currentValue, totalBought, percentPnl); missing ones default to false, "" or the parse of "0" |
| `Parse.PositionPnlIsValueLessCost` | lib/shared/parse.ts:29-30 | unrealised PnL is market value less cost basis |
| `Auth.AuthDecision` | server/auth-middleware.ts:10-34 | no configured token passes everything; a missing header or one not starting with "Bearer " gives 401; a different token after the prefix gives 403; an exact match passes |
| `Auth.AuthPassesExactly` | server/auth-middleware.ts:21-33 | with a token configured, a request passes iff its header is exactly "Bearer " and the token |
| `Format.AgeSeconds` | lib/format.ts:51 | `max(0, floor((now - ts*1000)/1000))`: never negative, and the whole seconds elapsed |
| `Format.AgeBucket` | lib/format.ts:53-56 | seconds below 60; whole minutes in [1, 59] below 3600; whole hours (at least 1) beyond |
| `Format.AgeText` | lib/format.ts:54-56 | the age bucket's count in decimal without leading zeros (it reads back as the count), then its unit letter (s, m or h), then " ago" |
| `Format.FormatTimeWithAge` | lib/format.ts:49-59 | the time, " (", the age, ")" |
| `Format.FutureIsZeroSeconds` | lib/format.ts:51-54 | a timestamp in the future reads "0s ago" |
| `Text.Lower` | lib/shared/tags.ts:100 | `toLowerCase` on ASCII: same length, each letter mapped |
| `Text.LowerIdempotent` | lib/shared/parse.ts:13 | a lower-cased string has no upper-case letter and is fixed by lower-casing |

## Left out

- Network, WebSocket, file and localStorage I/O, timers and the clock are inputs or parameters: exchange answers, balance reads, the stored file or key content, `now`. Writes are recorded in a `writes` or `broadcasts` list. Directory creation and path normalisation in the file-backed stores are not modelled.
- Log lines and the human-readable `message` texts of status and engine messages are not modelled. Their codes (`reason`, `error`, status) are.
- IEEE-754 floating point is not modelled. Numbers are exact reals, so the following are absent:
  - `toFixed(4)` in roundToTick, which is the identity on exact reals;
  - float error in `floor(x*100)/100`;
  - a NaN midpoint from `parseFloat`.
  `parseFloat` in the parse helpers is an uninterpreted function to reals, so a NaN it may produce there is outside the model.
- A tick size outside the exchange's four published values is not modelled.
- A market price that rounds to zero would make the JavaScript size infinite before the zero_order check. The model goes straight to zero_order, which gives the same broadcast outcome.
- `toLowerCase` is modelled for ASCII letters only.
- JavaScript concurrency is not modelled. Overlapping `executeCopyTrade` runs may interleave with a circuit-breaker trip. Each run here reads the engine flag once, at its start.
- Aliasing is not modelled. `TradeCache.get` returns the cache's own array, which a caller could mutate. Values here are immutable.
- The React components, API route handlers, transport clients (RTDS, data API), the relay to the server and Intl time formatting are not part of this model.
- The log id string `log-{n}-{ms}` is kept as its two numbers. The module-level `logCounter` is a field of the store.
- Browser detection (`typeof window`) is a boolean parameter of the loaders. The save helpers are assumed to run in the browser.
- `TradeCacheModel.TradeCache.GetMultiple`: does not state that the sort is stable, only that the result is sorted and a permutation. The model's sort is stable.
- `TradeCacheModel.TradeCache.Wallets`: states the members and their uniqueness, not the first-insertion order of the keys, although the model keeps that order.
- `Sanitise.SanitiseConfigIdempotent`: holds only for a non-zero improvement. An improvement clamped to 0 is falsy and becomes 0.02 on a second pass (see `Sanitise.ZeroImprovementBecomesDefault`).
- `Sanitise.SanitiseMessage`: the model assumes every field of an incoming message has its declared type, as the source's cast of `JSON.parse` does (copy-trade-server.ts:599), and handles only the non-number values of a number field (NaN, the infinities). Outside that the source behaves as follows, and the model does not capture it:
  - A non-numeric truthy config value such as `"abc"` clamps to NaN. So `Sanitise.ClampField`, `Sanitise.SanitiseConfigKeepsValid` and the ranges in `Server.CopyTradeServer.HandleMessage` do not hold, and a NaN size passes the sizing tests.
  - A non-string `outcome` throws at `toLowerCase`, which no handler in the run catches. The run then ends without a terminal status, unlike `Pipeline.EventsShape`.
  - A `null` message throws at `parsed.type`, outside the JSON try block.
- `TagStoreModel.TagStore.constructor` and `PresetStoreModel.PresetStore.constructor`: stored JSON is assumed to be an array of elements of the declared type. The source clears the map and then sets the entries one by one inside its try block (server/tag-store.ts:33-38, server/preset-store.ts:32-37). A file that parses but holds a malformed element, such as `[{"conditionId":"a","addTags":[],"removeTags":[]}, null]`, throws after the earlier entries were set, and the catch does not clear them, so the store starts partly loaded. The model has no such input (`Common.Stored` is absent, unparsable or a well-typed value), so it does not capture the partial load.
- `FilterStoreModel.FilterStore.LoadPresets` and `Wallets.LoadWallets`: the same assumption on stored JSON. Text that parses to something other than an array, such as `null` or `{}`, is returned as is by the source (lib/stores/filter-store.ts:38, lib/wallets.ts:22). The model does not capture that.
- `Server.CopyTradeServer.InitClobClient`, `Server.CopyTradeServer.RegularPollTick` and `Server.CopyTradeServer.RecoveryTick` take a balance read that either is a number or failed by throwing. A JSON-RPC reply without `result` gives `parseInt(undefined, 16) / 1e6`, which is NaN and throws nothing. The source then stores and broadcasts NaN. NaN does not trip the breaker at start-up, and the handshake leaves it out because it fails `lastBalance >= 0`. The model does not capture this.
- `Pipeline.EventsCarryTrade`: each run reads the clock once, and every message carries that one reading. The source calls `now()` for each message, some of them after awaits, so its timestamps can differ within a run. `Pipeline.StatusMsg` takes the timestamp as an argument for that reason.
- `TradeStoreModel.TradeStore.AddTrade`: uses the corrected eviction `TradeStoreModel.EvictOldest`. The source's `if (oldest)` keeps an empty oldest hash, and the set then grows past 10000. That behaviour is `TradeStoreModel.EvictAsWritten`, and "## Findings" exhibits it.
- `Tags.SortStringsCorrect`: strings are ordered by code point. JavaScript's default `sort` compares UTF-16 code units. The two orders differ only for characters outside the Basic Multilingual Plane.
- A freshness check on a missing (NaN) timestamp is never stale, as in the code. The model keeps this behaviour rather than treating it as an error.

## Findings

| source | as written | input that shows it | evidently intended | confidence | as-written member | corrected member |
|---|---|---|---|---|---|---|
| lib/stores/trade-store.ts:22-26 | a full set drops its oldest hash only when that hash is truthy (`if (oldest)`) | a full set of 10000 distinct hashes whose oldest is "" (a trade relayed without a hash gets ""), then one more trade with hash "b": the set holds 10001 and keeps growing | drop the oldest hash whenever the set is full, so it never exceeds DEDUP_SET_MAX_SIZE | not executed | `TradeStoreModel.EmptyOldestHashOverflows` | `TradeStoreModel.EvictOldestKeepsBound` |
