/**
 * The dashboard's wallet store (lib/stores/wallet-store.ts): the tracked
 * wallets, loaded once, with add, remove, the copy-trade switch and the
 * per-wallet config editor. Every localStorage write is recorded, in order,
 * in `writes`.
 */
module WalletStoreModel {
  import opened Common
  import opened Text
  import opened Types
  import opened Wallets

  /** `Partial<CopyTradeConfig>`: None for a field the update does not mention. */
  datatype PartialConfig = PartialConfig(multiplier: Option<real>, maxSingleTrade: Option<real>, priceImprovementPct: Option<real>)

  /** `{ ...c, ...p }`: each field the partial mentions replaces the old one. */
  function MergeConfig(c: CopyTradeConfig, p: PartialConfig): (r: CopyTradeConfig)
    ensures r.multiplier == if p.multiplier.Some? then p.multiplier.value else c.multiplier
    ensures r.maxSingleTrade == if p.maxSingleTrade.Some? then p.maxSingleTrade.value else c.maxSingleTrade
    ensures r.priceImprovementPct == if p.priceImprovementPct.Some? then p.priceImprovementPct.value else c.priceImprovementPct
  {
    CopyTradeConfig(p.multiplier.GetOr(c.multiplier), p.maxSingleTrade.GetOr(c.maxSingleTrade),
                    p.priceImprovementPct.GetOr(c.priceImprovementPct))
  }

  /** Merging the same partial twice is merging it once; merging an empty one changes nothing. */
  lemma MergeConfigIdempotent(c: CopyTradeConfig, p: PartialConfig)
    ensures MergeConfig(MergeConfig(c, p), p) == MergeConfig(c, p)
    ensures MergeConfig(c, PartialConfig(None, None, None)) == c
  {
  }

  /** toggleCopyTrade on a list: the wallets with the lower-cased address flip their switch; nothing else changes. */
  function Toggled(ws: seq<TrackedWallet>, address: string): (r: seq<TrackedWallet>)
    ensures |r| == |ws|
    ensures forall i :: 0 <= i < |ws| ==>
      && r[i].(copyTradeEnabled := ws[i].copyTradeEnabled) == ws[i]
      && (r[i].copyTradeEnabled <==> (ws[i].copyTradeEnabled != (ws[i].address == Lower(address))))
  {
    seq(|ws|, i requires 0 <= i < |ws| =>
      if ws[i].address == Lower(address) then ws[i].(copyTradeEnabled := !ws[i].copyTradeEnabled) else ws[i])
  }

  /** Toggling twice restores the list. */
  lemma ToggleTwice(ws: seq<TrackedWallet>, address: string)
    ensures Toggled(Toggled(ws, address), address) == ws
  {
    var once := Toggled(ws, address);
    var twice := Toggled(once, address);
    forall i | 0 <= i < |ws| ensures twice[i] == ws[i] {
      assert once[i].address == ws[i].address;
    }
  }

  /** updateCopyTradeConfig on a list: the matching wallets get the merged config; nothing else changes. */
  function Reconfigured(ws: seq<TrackedWallet>, address: string, p: PartialConfig): (r: seq<TrackedWallet>)
    ensures |r| == |ws|
    ensures forall i :: 0 <= i < |ws| ==>
      && r[i].(copyTradeConfig := ws[i].copyTradeConfig) == ws[i]
      && r[i].copyTradeConfig == (if ws[i].address == Lower(address) then MergeConfig(ws[i].copyTradeConfig, p) else ws[i].copyTradeConfig)
  {
    seq(|ws|, i requires 0 <= i < |ws| =>
      if ws[i].address == Lower(address) then ws[i].(copyTradeConfig := MergeConfig(ws[i].copyTradeConfig, p)) else ws[i])
  }

  /** Applying the same update twice is applying it once. */
  lemma ReconfiguredIdempotent(ws: seq<TrackedWallet>, address: string, p: PartialConfig)
    ensures Reconfigured(Reconfigured(ws, address, p), address, p) == Reconfigured(ws, address, p)
  {
    var once := Reconfigured(ws, address, p);
    var twice := Reconfigured(once, address, p);
    forall i | 0 <= i < |ws| ensures twice[i] == once[i] {
      assert once[i].address == ws[i].address;
      MergeConfigIdempotent(ws[i].copyTradeConfig, p);
    }
  }

  class WalletStore {
    var wallets: seq<TrackedWallet>
    var initialized: bool
    /** The lists written to localStorage, oldest first. */
    var writes: seq<seq<TrackedWallet>>

    constructor()
      ensures wallets == [] && !initialized && writes == []
    {
      wallets := [];
      initialized := false;
      writes := [];
    }

    /** init: loads the wallets the first time only; later calls change nothing. */
    method Init(stored: Stored<seq<TrackedWallet>>, defaults: seq<DefaultWallet>)
      modifies this
      ensures old(initialized) ==> unchanged(this)
      ensures !old(initialized) ==> wallets == LoadWallets(false, stored, defaults) && writes == old(writes)
      ensures initialized
    {
      if initialized {
        return;
      }
      wallets := LoadWallets(false, stored, defaults);
      initialized := true;
    }

    /** add: the list becomes addWallet of the current one, written out only when it grew. */
    method Add(address: string, walletLabel: string)
      modifies this
      ensures wallets == AddWallet(old(wallets), address, walletLabel)
      ensures writes == if HasAddress(old(wallets), Lower(address)) then old(writes) else old(writes) + [wallets]
      ensures initialized == old(initialized)
    {
      var updated := AddWallet(wallets, address, walletLabel);
      if !HasAddress(wallets, Lower(address)) {
        writes := writes + [updated];
      }
      wallets := updated;
    }

    /** remove: the list becomes removeWallet of the current one, and is written out. */
    method Remove(address: string)
      modifies this
      ensures wallets == RemoveWallet(old(wallets), address)
      ensures writes == old(writes) + [wallets]
      ensures initialized == old(initialized)
    {
      wallets := RemoveWallet(wallets, address);
      writes := writes + [wallets];
    }

    method ToggleCopyTrade(address: string)
      modifies this
      ensures wallets == Toggled(old(wallets), address)
      ensures writes == old(writes) + [wallets]
      ensures initialized == old(initialized)
    {
      wallets := Toggled(wallets, address);
      writes := writes + [wallets];
    }

    method UpdateCopyTradeConfig(address: string, config: PartialConfig)
      modifies this
      ensures wallets == Reconfigured(old(wallets), address, config)
      ensures writes == old(writes) + [wallets]
      ensures initialized == old(initialized)
    {
      wallets := Reconfigured(wallets, address, config);
      writes := writes + [wallets];
    }
  }
}
