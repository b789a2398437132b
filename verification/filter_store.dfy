/**
 * The dashboard's filter store (lib/stores/filter-store.ts): the active trade
 * and position filter of each wallet (keyed by lower-cased address) and the
 * list of saved presets. Every localStorage write of the presets is recorded,
 * in order, in `writes`.
 */
module FilterStoreModel {
  import opened Common
  import opened Text
  import opened Filters

  function IdIsNot(id: string): FilterPreset -> bool {
    (p: FilterPreset) => p.id != id
  }

  /** deletePreset on a list: every preset with the id goes, the others keep their order. */
  function WithoutPreset(presets: seq<FilterPreset>, id: string): (r: seq<FilterPreset>)
    ensures forall p :: p in r <==> p in presets && p.id != id
    ensures |r| <= |presets|
    ensures IsSubsequence(r, presets)
  {
    FilterSubsequence(presets, IdIsNot(id));
    Filter(presets, IdIsNot(id))
  }

  /** savePreset on a list: the presets with other ids in their order, then the new one. */
  function WithPreset(presets: seq<FilterPreset>, preset: FilterPreset): (r: seq<FilterPreset>)
    ensures |r| >= 1
    ensures r[..|r| - 1] == WithoutPreset(presets, preset.id)
    ensures r[|r| - 1] == preset
    ensures forall i :: 0 <= i < |r| - 1 ==> r[i].id != preset.id
  {
    var rest := WithoutPreset(presets, preset.id);
    assert forall i :: 0 <= i < |rest| ==> rest[i] in rest;
    rest + [preset]
  }

  /** After a save exactly one preset has the id, and it is the last. */
  lemma WithPresetUnique(presets: seq<FilterPreset>, preset: FilterPreset)
    ensures var r := WithPreset(presets, preset);
      forall i :: 0 <= i < |r| ==> (r[i].id == preset.id <==> i == |r| - 1)
  {
  }

  /** Saving the same preset twice is saving it once. */
  lemma {:induction false} WithPresetIdempotent(presets: seq<FilterPreset>, preset: FilterPreset)
    ensures WithPreset(WithPreset(presets, preset), preset) == WithPreset(presets, preset)
  {
    var rest := WithoutPreset(presets, preset.id);
    var p := IdIsNot(preset.id);
    FilterConcat(rest, [preset], p);
    FilterIdempotent(presets, p);
  }

  /** Deleting a preset that was just saved leaves what deleting it from the old list leaves. */
  lemma DeleteUndoesSave(presets: seq<FilterPreset>, preset: FilterPreset)
    ensures WithoutPreset(WithPreset(presets, preset), preset.id) == WithoutPreset(presets, preset.id)
  {
    var p := IdIsNot(preset.id);
    FilterConcat(WithoutPreset(presets, preset.id), [preset], p);
    FilterIdempotent(presets, p);
  }

  lemma {:induction false} FilterIdempotent(s: seq<FilterPreset>, p: FilterPreset -> bool)
    ensures Filter(Filter(s, p), p) == Filter(s, p)
  {
    FilterAllTrue(Filter(s, p), p);
  }

  class FilterStore {
    var tradeFilters: map<string, TradeFilter>
    var positionFilters: map<string, PositionFilter>
    var presets: seq<FilterPreset>
    /** The preset lists written to localStorage, oldest first. */
    var writes: seq<seq<FilterPreset>>

    constructor()
      ensures tradeFilters == map[] && positionFilters == map[] && presets == [] && writes == []
    {
      tradeFilters := map[];
      positionFilters := map[];
      presets := [];
      writes := [];
    }

    /** useTradeFilter: the wallet's trade filter, or the empty filter when it has none. */
    function UseTradeFilter(wallet: string): (r: TradeFilter)
      reads this
      ensures Lower(wallet) in tradeFilters ==> r == tradeFilters[Lower(wallet)]
      ensures Lower(wallet) !in tradeFilters ==> IsEmptyTradeFilter(r)
    {
      if Lower(wallet) in tradeFilters then tradeFilters[Lower(wallet)] else EmptyTradeFilter
    }

    /** usePositionFilter: the wallet's position filter, or the empty filter when it has none. */
    function UsePositionFilter(wallet: string): (r: PositionFilter)
      reads this
      ensures Lower(wallet) in positionFilters ==> r == positionFilters[Lower(wallet)]
      ensures Lower(wallet) !in positionFilters ==> IsEmptyPositionFilter(r)
    {
      if Lower(wallet) in positionFilters then positionFilters[Lower(wallet)] else EmptyPositionFilter
    }

    method SetTradeFilter(wallet: string, filter: TradeFilter)
      modifies this
      ensures tradeFilters == old(tradeFilters)[Lower(wallet) := filter]
      ensures UseTradeFilter(wallet) == filter
      ensures positionFilters == old(positionFilters) && presets == old(presets) && writes == old(writes)
    {
      tradeFilters := tradeFilters[Lower(wallet) := filter];
    }

    method SetPositionFilter(wallet: string, filter: PositionFilter)
      modifies this
      ensures positionFilters == old(positionFilters)[Lower(wallet) := filter]
      ensures UsePositionFilter(wallet) == filter
      ensures tradeFilters == old(tradeFilters) && presets == old(presets) && writes == old(writes)
    {
      positionFilters := positionFilters[Lower(wallet) := filter];
    }

    method ClearTradeFilter(wallet: string)
      modifies this
      ensures tradeFilters == old(tradeFilters) - {Lower(wallet)}
      ensures IsEmptyTradeFilter(UseTradeFilter(wallet))
      ensures positionFilters == old(positionFilters) && presets == old(presets) && writes == old(writes)
    {
      tradeFilters := tradeFilters - {Lower(wallet)};
    }

    method ClearPositionFilter(wallet: string)
      modifies this
      ensures positionFilters == old(positionFilters) - {Lower(wallet)}
      ensures IsEmptyPositionFilter(UsePositionFilter(wallet))
      ensures tradeFilters == old(tradeFilters) && presets == old(presets) && writes == old(writes)
    {
      positionFilters := positionFilters - {Lower(wallet)};
    }

    /** loadPresets: the stored list, or [] when there is none, it does not parse, or this is the server. */
    method LoadPresets(onServer: bool, stored: Stored<seq<FilterPreset>>)
      modifies this
      ensures presets == if !onServer && stored.Parsed? then stored.value else []
      ensures tradeFilters == old(tradeFilters) && positionFilters == old(positionFilters) && writes == old(writes)
    {
      if !onServer && stored.Parsed? {
        presets := stored.value;
      } else {
        presets := [];
      }
    }

    /** savePreset: replaces any preset with the same id by the new one, at the end, and writes the list out. */
    method SavePreset(preset: FilterPreset)
      modifies this
      ensures presets == WithPreset(old(presets), preset)
      ensures writes == old(writes) + [presets]
      ensures tradeFilters == old(tradeFilters) && positionFilters == old(positionFilters)
    {
      presets := WithPreset(presets, preset);
      writes := writes + [presets];
    }

    /** deletePreset: removes every preset with the id and writes the list out. */
    method DeletePreset(id: string)
      modifies this
      ensures presets == WithoutPreset(old(presets), id)
      ensures writes == old(writes) + [presets]
      ensures tradeFilters == old(tradeFilters) && positionFilters == old(positionFilters)
    {
      presets := WithoutPreset(presets, id);
      writes := writes + [presets];
    }

    /** applyPreset: a "trades" preset becomes the wallet's trade filter, any other its position filter. */
    method ApplyPreset(wallet: string, preset: FilterPreset)
      modifies this
      ensures preset.scope == "trades" ==>
        tradeFilters == old(tradeFilters)[Lower(wallet) := preset.asTradeFilter] && positionFilters == old(positionFilters)
      ensures preset.scope != "trades" ==>
        positionFilters == old(positionFilters)[Lower(wallet) := preset.asPositionFilter] && tradeFilters == old(tradeFilters)
      ensures presets == old(presets) && writes == old(writes)
    {
      if preset.scope == "trades" {
        SetTradeFilter(wallet, preset.asTradeFilter);
      } else {
        SetPositionFilter(wallet, preset.asPositionFilter);
      }
    }
  }
}
