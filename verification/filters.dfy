/**
 * Trade and position filtering (lib/shared/filters.ts): each filter is a
 * conjunction of optional criteria; a criterion that is not set keeps
 * everything. Also the query-string builders and their two helpers.
 */
module Filters {
  import opened Common
  import opened Text
  import opened Types
  import opened Tags

  datatype TradeFilter = TradeFilter(
    side: Option<seq<string>>,
    minSize: Option<real>,
    maxSize: Option<real>,
    minPrice: Option<real>,
    maxPrice: Option<real>,
    titleSearch: Option<string>,
    outcome: Option<string>,
    tags: Option<seq<string>>,
    source: Option<seq<string>>,
    since: Option<real>,
    until: Option<real>,
    conditionId: Option<string>)

  datatype PositionFilter = PositionFilter(
    status: Option<seq<string>>,
    minShares: Option<real>,
    maxShares: Option<real>,
    minValue: Option<real>,
    maxValue: Option<real>,
    minPnl: Option<real>,
    maxPnl: Option<real>,
    minReturn: Option<real>,
    maxReturn: Option<real>,
    titleSearch: Option<string>,
    tags: Option<seq<string>>,
    conditionId: Option<string>)

  /**
   * A saved preset. Its `filters` object is one JSON value that the store
   * reads, with an unchecked cast, as a trade filter or as a position filter
   * depending on `scope`; the two fields are that one object seen both ways.
   */
  datatype FilterPreset = FilterPreset(
    id: string,
    name: string,
    scope: string,
    asTradeFilter: TradeFilter,
    asPositionFilter: PositionFilter,
    wallets: Option<seq<string>>)

  /** `{}` as a TradeFilter. */
  const EmptyTradeFilter := TradeFilter(None, None, None, None, None, None, None, None, None, None, None, None)

  /** `{}` as a PositionFilter. */
  const EmptyPositionFilter := PositionFilter(None, None, None, None, None, None, None, None, None, None, None, None)

  /** JavaScript truthiness of an optional string and of an optional array's length. */
  predicate SetStr(s: Option<string>) { s.Some? && s.value != "" }
  predicate SetList<T>(s: Option<seq<T>>) { s.Some? && s.value != [] }

  /** The criteria of a filter that are inactive: undefined, or an empty string or array. */
  predicate IsEmptyTradeFilter(f: TradeFilter) {
    !SetList(f.side) && f.minSize.None? && f.maxSize.None? && f.minPrice.None? && f.maxPrice.None? &&
    !SetStr(f.titleSearch) && !SetStr(f.outcome) && !SetList(f.tags) && !SetList(f.source) &&
    f.since.None? && f.until.None? && !SetStr(f.conditionId)
  }

  predicate IsEmptyPositionFilter(f: PositionFilter) {
    !SetList(f.status) && f.minShares.None? && f.maxShares.None? && f.minValue.None? && f.maxValue.None? &&
    f.minPnl.None? && f.maxPnl.None? && f.minReturn.None? && f.maxReturn.None? &&
    !SetStr(f.titleSearch) && !SetList(f.tags) && !SetStr(f.conditionId)
  }

  // ---------------------------------------------------------------------------
  // Position status
  // ---------------------------------------------------------------------------

  /** positionStatusLabel: not redeemable is "active"; a redeemable position is "won" at a
      price of 0.95 or more, "lost" at 0.05 or less, and "resolving" in between. */
  function PositionStatusLabel(redeemable: bool, curPrice: real): (r: string)
    ensures r == "active" || r == "won" || r == "lost" || r == "resolving"
    ensures r == "active" <==> !redeemable
    ensures r == "won" <==> redeemable && curPrice >= 0.95
    ensures r == "lost" <==> redeemable && curPrice <= 0.05
    ensures r == "resolving" <==> redeemable && 0.05 < curPrice < 0.95
  {
    if !redeemable then "active"
    else if curPrice >= 0.95 then "won"
    else if curPrice <= 0.05 then "lost"
    else "resolving"
  }

  // ---------------------------------------------------------------------------
  // Criteria shared by both filters
  // ---------------------------------------------------------------------------

  /** An optional inclusive lower / upper bound. */
  predicate AtLeast(bound: Option<real>, x: real) { bound.None? || x >= bound.value }
  predicate AtMost(bound: Option<real>, x: real) { bound.None? || x <= bound.value }

  /** A case-insensitive substring search that is skipped when the search text is empty. */
  predicate SearchOk(search: Option<string>, text: string) {
    !SetStr(search) || Contains(Lower(text), Lower(search.value))
  }

  /** The override registered for a market, if the caller passed any overrides. */
  function OverrideFor(overrides: Option<map<string, TagOverride>>, conditionId: string): Option<TagOverride> {
    if overrides.Some? && conditionId in overrides.value then Some(overrides.value[conditionId]) else None
  }

  /** The tags of a market: resolveTags when an override exists, detectTags otherwise. */
  function ItemTags(title: string, conditionId: string, overrides: Option<map<string, TagOverride>>): (r: seq<string>)
    ensures OverrideFor(overrides, conditionId).None? ==> r == Detected(title)
    ensures OverrideFor(overrides, conditionId).Some? ==> r == ApplyOverride(Detected(title), OverrideFor(overrides, conditionId).value)
  {
    var o := OverrideFor(overrides, conditionId);
    if o.Some? then Resolved(title, o) else Detected(title)
  }

  /**
   * Under an override a market's tags are, each once, the detected tags it
   * does not remove together with all the tags it adds.
   */
  lemma ItemTagsOverride(title: string, conditionId: string, overrides: Option<map<string, TagOverride>>)
    requires OverrideFor(overrides, conditionId).Some?
    ensures var ov := OverrideFor(overrides, conditionId).value;
      var r := ItemTags(title, conditionId, overrides);
      && NoDup(r)
      && forall t :: t in r <==> (Matches(Lower(title), t) && t !in ov.removeTags) || t in ov.addTags
  {
    DetectedSpec(title);
    ApplyOverrideSpec(Detected(title), OverrideFor(overrides, conditionId).value);
  }

  /** A tag criterion keeps an item iff at least one filter tag is among the item's tags. */
  predicate TagsOk(tags: Option<seq<string>>, itemTags: seq<string>) {
    !SetList(tags) || exists ft :: ft in tags.value && ft in itemTags
  }

  // ---------------------------------------------------------------------------
  // filterTrades
  // ---------------------------------------------------------------------------

  /** The callback of filterTrades: every criterion that is set must hold. */
  predicate TradeMatches(t: Trade, f: TradeFilter, overrides: Option<map<string, TagOverride>>) {
    (!SetList(f.side) || t.side in f.side.value) &&
    AtLeast(f.minSize, t.size) && AtMost(f.maxSize, t.size) &&
    AtLeast(f.minPrice, t.price) && AtMost(f.maxPrice, t.price) &&
    SearchOk(f.titleSearch, t.title) &&
    SearchOk(f.outcome, t.outcome) &&
    (!SetList(f.source) || t.source in f.source.value) &&
    AtLeast(f.since, t.timestamp as real) && AtMost(f.until, t.timestamp as real) &&
    (!SetStr(f.conditionId) || t.conditionId == f.conditionId.value) &&
    TagsOk(f.tags, ItemTags(t.title, t.conditionId, overrides))
  }

  function TradeKeep(f: TradeFilter, overrides: Option<map<string, TagOverride>>): Trade -> bool {
    t => TradeMatches(t, f, overrides)
  }

  /** filterTrades: the order-preserving subsequence of the trades that satisfy every set criterion. */
  function FilterTrades(trades: seq<Trade>, f: TradeFilter, overrides: Option<map<string, TagOverride>>): (r: seq<Trade>)
    ensures |r| <= |trades|
    ensures forall t :: t in r <==> t in trades && TradeMatches(t, f, overrides)
  {
    Filter(trades, TradeKeep(f, overrides))
  }

  /** Filtering keeps the input order: it distributes over concatenation. */
  lemma FilterTradesConcat(a: seq<Trade>, b: seq<Trade>, f: TradeFilter, overrides: Option<map<string, TagOverride>>)
    ensures FilterTrades(a + b, f, overrides) == FilterTrades(a, f, overrides) + FilterTrades(b, f, overrides)
  {
    FilterConcat(a, b, TradeKeep(f, overrides));
  }

  /** With no criterion set, filterTrades returns its input unchanged. */
  lemma EmptyTradeFilterKeepsAll(trades: seq<Trade>, f: TradeFilter, overrides: Option<map<string, TagOverride>>)
    requires IsEmptyTradeFilter(f)
    ensures FilterTrades(trades, f, overrides) == trades
  {
    FilterAllTrue(trades, TradeKeep(f, overrides));
  }

  /** Size, price and time bounds are inclusive: only values strictly outside are rejected. */
  lemma TradeBoundsInclusive(t: Trade, lo: real, hi: real, overrides: Option<map<string, TagOverride>>)
    ensures TradeMatches(t, EmptyTradeFilter.(minSize := Some(lo), maxSize := Some(hi)), overrides) <==> lo <= t.size <= hi
    ensures TradeMatches(t, EmptyTradeFilter.(minPrice := Some(lo), maxPrice := Some(hi)), overrides) <==> lo <= t.price <= hi
    ensures TradeMatches(t, EmptyTradeFilter.(since := Some(lo), until := Some(hi)), overrides) <==> lo <= t.timestamp as real <= hi
  {
  }

  /** titleSearch is a case-insensitive substring test. */
  lemma TradeTitleCriterion(t: Trade, q: string, overrides: Option<map<string, TagOverride>>)
    requires q != ""
    ensures TradeMatches(t, EmptyTradeFilter.(titleSearch := Some(q)), overrides) <==> Contains(Lower(t.title), Lower(q))
  {
  }

  /** Upper and lower case make no difference to the title search, on either side. */
  lemma TradeTitleCaseInsensitive(t: Trade, q: string, overrides: Option<map<string, TagOverride>>)
    requires q != ""
    ensures TradeMatches(t, EmptyTradeFilter.(titleSearch := Some(q)), overrides) ==
            TradeMatches(t.(title := Lower(t.title)), EmptyTradeFilter.(titleSearch := Some(Lower(q))), overrides)
  {
    LowerIdempotent(t.title);
    LowerIdempotent(q);
    assert Lower(q) != "";
    TradeTitleCriterion(t, q, overrides);
    TradeTitleCriterion(t.(title := Lower(t.title)), Lower(q), overrides);
  }

  /** outcome is a case-insensitive substring test too. */
  lemma TradeOutcomeCriterion(t: Trade, q: string, overrides: Option<map<string, TagOverride>>)
    requires q != ""
    ensures TradeMatches(t, EmptyTradeFilter.(outcome := Some(q)), overrides) <==> Contains(Lower(t.outcome), Lower(q))
  {
  }

  /** conditionId is an exact match. */
  lemma TradeConditionCriterion(t: Trade, q: string, overrides: Option<map<string, TagOverride>>)
    requires q != ""
    ensures TradeMatches(t, EmptyTradeFilter.(conditionId := Some(q)), overrides) <==> t.conditionId == q
  {
  }

  /** A tag filter keeps a trade iff one of the filter tags is among its tags, which are
      resolveTags when an override exists and detectTags otherwise. */
  lemma TradeTagCriterion(t: Trade, tags: seq<string>, overrides: Option<map<string, TagOverride>>)
    requires tags != []
    ensures TradeMatches(t, EmptyTradeFilter.(tags := Some(tags)), overrides) <==>
      exists ft :: ft in tags && ft in ItemTags(t.title, t.conditionId, overrides)
  {
    var f := EmptyTradeFilter.(tags := Some(tags));
    assert !SetList(f.side) && !SetList(f.source) && SetList(f.tags);
    assert !SetStr(f.titleSearch) && !SetStr(f.outcome) && !SetStr(f.conditionId);
  }

  // ---------------------------------------------------------------------------
  // filterPositions
  // ---------------------------------------------------------------------------

  /** The callback of filterPositions. */
  predicate PositionMatches(p: Position, f: PositionFilter, overrides: Option<map<string, TagOverride>>) {
    (!SetList(f.status) || PositionStatusLabel(p.redeemable, p.curPrice) in f.status.value) &&
    AtLeast(f.minShares, p.size) && AtMost(f.maxShares, p.size) &&
    AtLeast(f.minValue, p.marketValue) && AtMost(f.maxValue, p.marketValue) &&
    AtLeast(f.minPnl, p.unrealizedPnl) && AtMost(f.maxPnl, p.unrealizedPnl) &&
    AtLeast(f.minReturn, p.percentPnl) && AtMost(f.maxReturn, p.percentPnl) &&
    SearchOk(f.titleSearch, p.title) &&
    (!SetStr(f.conditionId) || p.conditionId == f.conditionId.value) &&
    TagsOk(f.tags, ItemTags(p.title, p.conditionId, overrides))
  }

  function PositionKeep(f: PositionFilter, overrides: Option<map<string, TagOverride>>): Position -> bool {
    p => PositionMatches(p, f, overrides)
  }

  /** filterPositions: the order-preserving subsequence of the positions that satisfy every set criterion. */
  function FilterPositions(positions: seq<Position>, f: PositionFilter, overrides: Option<map<string, TagOverride>>): (r: seq<Position>)
    ensures |r| <= |positions|
    ensures forall p :: p in r <==> p in positions && PositionMatches(p, f, overrides)
  {
    Filter(positions, PositionKeep(f, overrides))
  }

  lemma FilterPositionsConcat(a: seq<Position>, b: seq<Position>, f: PositionFilter, overrides: Option<map<string, TagOverride>>)
    ensures FilterPositions(a + b, f, overrides) == FilterPositions(a, f, overrides) + FilterPositions(b, f, overrides)
  {
    FilterConcat(a, b, PositionKeep(f, overrides));
  }

  /** With no criterion set, filterPositions returns its input unchanged. */
  lemma EmptyPositionFilterKeepsAll(positions: seq<Position>, f: PositionFilter, overrides: Option<map<string, TagOverride>>)
    requires IsEmptyPositionFilter(f)
    ensures FilterPositions(positions, f, overrides) == positions
  {
    FilterAllTrue(positions, PositionKeep(f, overrides));
  }

  /** Share, value, P&L and return bounds are inclusive. */
  lemma PositionBoundsInclusive(p: Position, lo: real, hi: real, overrides: Option<map<string, TagOverride>>)
    ensures PositionMatches(p, EmptyPositionFilter.(minShares := Some(lo), maxShares := Some(hi)), overrides) <==> lo <= p.size <= hi
    ensures PositionMatches(p, EmptyPositionFilter.(minValue := Some(lo), maxValue := Some(hi)), overrides) <==> lo <= p.marketValue <= hi
    ensures PositionMatches(p, EmptyPositionFilter.(minPnl := Some(lo), maxPnl := Some(hi)), overrides) <==> lo <= p.unrealizedPnl <= hi
    ensures PositionMatches(p, EmptyPositionFilter.(minReturn := Some(lo), maxReturn := Some(hi)), overrides) <==> lo <= p.percentPnl <= hi
  {
    PositionBoundsOnly(p, EmptyPositionFilter.(minShares := Some(lo), maxShares := Some(hi)), overrides);
    PositionBoundsOnly(p, EmptyPositionFilter.(minValue := Some(lo), maxValue := Some(hi)), overrides);
    PositionBoundsOnly(p, EmptyPositionFilter.(minPnl := Some(lo), maxPnl := Some(hi)), overrides);
    PositionBoundsOnly(p, EmptyPositionFilter.(minReturn := Some(lo), maxReturn := Some(hi)), overrides);
  }

  /** With no status, search, market or tag criterion, only the numeric bounds decide. */
  lemma PositionBoundsOnly(p: Position, f: PositionFilter, overrides: Option<map<string, TagOverride>>)
    requires !SetList(f.status) && !SetStr(f.titleSearch) && !SetStr(f.conditionId) && !SetList(f.tags)
    ensures PositionMatches(p, f, overrides) <==>
      AtLeast(f.minShares, p.size) && AtMost(f.maxShares, p.size) &&
      AtLeast(f.minValue, p.marketValue) && AtMost(f.maxValue, p.marketValue) &&
      AtLeast(f.minPnl, p.unrealizedPnl) && AtMost(f.maxPnl, p.unrealizedPnl) &&
      AtLeast(f.minReturn, p.percentPnl) && AtMost(f.maxReturn, p.percentPnl)
  {
  }

  /** A status filter keeps a position iff its label is listed. */
  lemma PositionStatusCriterion(p: Position, status: seq<string>, overrides: Option<map<string, TagOverride>>)
    requires status != []
    ensures PositionMatches(p, EmptyPositionFilter.(status := Some(status)), overrides) <==>
      PositionStatusLabel(p.redeemable, p.curPrice) in status
    ensures !p.redeemable ==>
      (PositionMatches(p, EmptyPositionFilter.(status := Some(status)), overrides) <==> "active" in status)
  {
  }

  // ---------------------------------------------------------------------------
  // Query-string parsing
  // ---------------------------------------------------------------------------

  function Trimmed(pieces: seq<string>): (r: seq<string>)
    ensures |r| == |pieces|
    ensures forall k :: 0 <= k < |r| ==> r[k] == Trim(pieces[k])
  {
    seq(|pieces|, k requires 0 <= k < |pieces| => Trim(pieces[k]))
  }

  function NonEmpty(): string -> bool {
    s => s != ""
  }

  /** splitComma: the trimmed, non-empty comma-separated pieces; [] for null or "". */
  function SplitComma(val: Option<string>): (r: seq<string>)
    ensures !SetStr(val) ==> r == []
    ensures forall p :: p in r ==> p != ""
  {
    if !SetStr(val) then [] else Filter(Trimmed(Split(val.value, ',')), NonEmpty())
  }

  /** No piece holds a comma or starts or ends with white space. */
  lemma SplitCommaPieces(val: Option<string>)
    ensures forall p :: p in SplitComma(val) ==> ',' !in p && !IsSpace(p[0]) && !IsSpace(p[|p| - 1])
  {
    if SetStr(val) {
      var tr := Trimmed(Split(val.value, ','));
      TrimmedPieces(Split(val.value, ','));
      assert SplitComma(val) == Filter(tr, NonEmpty());
    }
  }

  /** Trimming pieces without a comma gives non-empty pieces without a comma or white space at either end. */
  lemma TrimmedPieces(pieces: seq<string>)
    requires forall k :: 0 <= k < |pieces| ==> ',' !in pieces[k]
    ensures forall p :: p in Trimmed(pieces) ==> CleanPiece(p)
  {
    var tr := Trimmed(pieces);
    forall p | p in tr ensures CleanPiece(p) {
      var k :| 0 <= k < |tr| && tr[k] == p;
      TrimPiece(pieces[k]);
    }
  }

  /** A piece with no comma and, when non-empty, no white space at either end. */
  ghost predicate CleanPiece(p: string) {
    ',' !in p && (p != "" ==> !IsSpace(p[0]) && !IsSpace(p[|p| - 1]))
  }

  lemma TrimPiece(piece: string)
    requires ',' !in piece
    ensures CleanPiece(Trim(piece))
  {
    TrimSubstring(piece);
  }

  /** On a list with no spaces and no empty item, splitComma gives back exactly the items. */
  lemma {:induction false} SplitCommaClean(items: seq<string>)
    requires |items| >= 1
    requires forall k :: 0 <= k < |items| ==> items[k] != "" && ',' !in items[k]
    requires forall k, j :: 0 <= k < |items| && 0 <= j < |items[k]| ==> !IsSpace(items[k][j])
    ensures SplitComma(Some(Join(items, ','))) == items
  {
    var s := Join(items, ',');
    JoinSplit(items, ',');
    assert s != "" by { assert |s| >= |items[0]|; JoinLength(items, ','); }
    forall k | 0 <= k < |items| ensures Trim(items[k]) == items[k] {
      NoSpaceTrim(items[k]);
    }
    assert Trimmed(items) == items;
    FilterAllTrue(items, NonEmpty());
  }

  lemma {:induction false} JoinLength(items: seq<string>, sep: char)
    requires |items| >= 1
    ensures |Join(items, sep)| >= |items[0]|
  {
    if |items| > 1 {
      JoinLength(items[1..], sep);
    }
  }

  /** Joining items that hold no separator and splitting again gives the items back. */
  lemma {:induction false} JoinSplit(items: seq<string>, sep: char)
    requires |items| >= 1
    requires forall k :: 0 <= k < |items| ==> sep !in items[k]
    ensures Split(Join(items, sep), sep) == items
  {
    if |items| == 1 {
      SplitNoSep(items[0], sep, []);
    } else {
      JoinSplit(items[1..], sep);
      SplitNoSep(items[0], sep, items[1..]);
    }
  }

  /** Splitting `a + [sep] + Join(rest)` where `a` holds no separator. */
  lemma {:induction false} SplitNoSep(a: string, sep: char, rest: seq<string>)
    requires sep !in a
    requires rest != [] ==> Split(Join(rest, sep), sep) == rest
    ensures rest == [] ==> Split(a, sep) == [a]
    ensures rest != [] ==> Split(a + [sep] + Join(rest, sep), sep) == [a] + rest
  {
    if a == [] {
      if rest != [] {
        assert a + [sep] + Join(rest, sep) == [sep] + Join(rest, sep);
        assert ([sep] + Join(rest, sep))[1..] == Join(rest, sep);
      }
    } else {
      SplitNoSep(a[1..], sep, rest);
      if rest == [] {
        assert a == [a[0]] + a[1..];
      } else {
        var s := a + [sep] + Join(rest, sep);
        assert a[0] in a;
        assert s[0] == a[0] != sep;
        assert s[1..] == a[1..] + [sep] + Join(rest, sep);
        var r := Split(s[1..], sep);
        assert r == [a[1..]] + rest;
        assert Split(s, sep) == [[a[0]] + r[0]] + r[1..];
        assert [a[0]] + a[1..] == a;
      }
    }
  }

  lemma NoSpaceTrim(s: string)
    requires forall j :: 0 <= j < |s| ==> !IsSpace(s[j])
    ensures Trim(s) == s
  {
  }

  /** parseNum: undefined for null, "" or a non-finite parse; `parseFloat` itself is a parameter. */
  function ParseNum(val: Option<string>, parseFloat: string -> JsNumber): (r: Option<real>)
    ensures r.Some? <==> SetStr(val) && parseFloat(val.value).IsFinite()
    ensures r.Some? ==> parseFloat(val.value) == Finite(r.value)
  {
    if !SetStr(val) then None
    else match parseFloat(val.value)
      case Finite(n) => Some(n)
      case _ => None
  }

  function NonEmptyList(l: seq<string>): Option<seq<string>> {
    if l != [] then Some(l) else None
  }

  function NonEmptyStr(s: Option<string>): Option<string> {
    if SetStr(s) then s else None
  }

  /** parseTradeFilterFromQuery; `get` stands for URLSearchParams.get. */
  function ParseTradeFilterFromQuery(get: string -> Option<string>, parseFloat: string -> JsNumber): TradeFilter {
    TradeFilter(
      side := NonEmptyList(SplitComma(get("side"))),
      minSize := ParseNum(get("minSize"), parseFloat),
      maxSize := ParseNum(get("maxSize"), parseFloat),
      minPrice := ParseNum(get("minPrice"), parseFloat),
      maxPrice := ParseNum(get("maxPrice"), parseFloat),
      titleSearch := NonEmptyStr(get("titleSearch")),
      outcome := NonEmptyStr(get("outcome")),
      tags := NonEmptyList(SplitComma(get("tags"))),
      source := NonEmptyList(SplitComma(get("source"))),
      since := ParseNum(get("since"), parseFloat),
      until := ParseNum(get("until"), parseFloat),
      conditionId := NonEmptyStr(get("conditionId")))
  }

  /** parsePositionFilterFromQuery. */
  function ParsePositionFilterFromQuery(get: string -> Option<string>, parseFloat: string -> JsNumber): PositionFilter {
    PositionFilter(
      status := NonEmptyList(SplitComma(get("status"))),
      minShares := ParseNum(get("minShares"), parseFloat),
      maxShares := ParseNum(get("maxShares"), parseFloat),
      minValue := ParseNum(get("minValue"), parseFloat),
      maxValue := ParseNum(get("maxValue"), parseFloat),
      minPnl := ParseNum(get("minPnl"), parseFloat),
      maxPnl := ParseNum(get("maxPnl"), parseFloat),
      minReturn := ParseNum(get("minReturn"), parseFloat),
      maxReturn := ParseNum(get("maxReturn"), parseFloat),
      titleSearch := NonEmptyStr(get("titleSearch")),
      tags := NonEmptyList(SplitComma(get("tags"))),
      conditionId := NonEmptyStr(get("conditionId")))
  }

  /** A query with no parameters builds filters that keep every trade and every position. */
  lemma EmptyQueryKeepsAll(trades: seq<Trade>, positions: seq<Position>, parseFloat: string -> JsNumber,
                           overrides: Option<map<string, TagOverride>>)
    ensures var none := (_: string) => None;
      && FilterTrades(trades, ParseTradeFilterFromQuery(none, parseFloat), overrides) == trades
      && FilterPositions(positions, ParsePositionFilterFromQuery(none, parseFloat), overrides) == positions
  {
    var none := (_: string) => None;
    EmptyTradeFilterKeepsAll(trades, ParseTradeFilterFromQuery(none, parseFloat), overrides);
    EmptyPositionFilterKeepsAll(positions, ParsePositionFilterFromQuery(none, parseFloat), overrides);
  }
}
