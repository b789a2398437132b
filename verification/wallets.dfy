/**
 * The tracked-wallet list (lib/wallets.ts): the defaults shipped with the
 * dashboard, adding a wallet once per (lower-cased) address, removing one.
 * The localStorage copy is modelled as the value last written, handed to
 * `LoadWallets` as its input.
 */
module Wallets {
  import opened Common
  import opened Text
  import opened Types

  /** An entry of the bundled wallets file. */
  datatype DefaultWallet = DefaultWallet(address: string, walletLabel: string, notes: Option<string>)

  /** No two wallets share an address. */
  ghost predicate UniqueAddresses(ws: seq<TrackedWallet>) {
    forall i, j :: 0 <= i < j < |ws| ==> ws[i].address != ws[j].address
  }

  /** getDefaultWallets: one wallet per bundled entry, address lower-cased, copy-trade off, default config. */
  function GetDefaultWallets(defaults: seq<DefaultWallet>): (r: seq<TrackedWallet>)
    ensures |r| == |defaults|
    ensures forall i :: 0 <= i < |r| ==>
      && r[i].address == Lower(defaults[i].address)
      && r[i].walletLabel == defaults[i].walletLabel
      && r[i].notes == defaults[i].notes
      && !r[i].copyTradeEnabled
      && r[i].copyTradeConfig == DefaultCopyTradeConfig
  {
    if defaults == [] then []
    else
      var d := defaults[0];
      [TrackedWallet(Lower(d.address), d.walletLabel, d.notes, false, DefaultCopyTradeConfig)] + GetDefaultWallets(defaults[1..])
  }

  /** loadWallets: the stored list when there is one that parses, the defaults otherwise (and always on the server). */
  function LoadWallets(onServer: bool, stored: Stored<seq<TrackedWallet>>, defaults: seq<DefaultWallet>): (r: seq<TrackedWallet>)
    ensures onServer || !stored.Parsed? ==> r == GetDefaultWallets(defaults)
    ensures !onServer && stored.Parsed? ==> r == stored.value
  {
    if onServer then GetDefaultWallets(defaults)
    else match stored
      case Parsed(ws) => ws
      case _ => GetDefaultWallets(defaults)
  }

  predicate HasAddress(ws: seq<TrackedWallet>, address: string) {
    exists w :: w in ws && w.address == address
  }

  /** The wallet addWallet appends. */
  function NewWallet(address: string, walletLabel: string): TrackedWallet {
    TrackedWallet(Lower(address), walletLabel, None, false, DefaultCopyTradeConfig)
  }

  /**
   * addWallet: the list unchanged when a wallet already has the lower-cased
   * address, otherwise the list with exactly one new wallet at the end
   * (copy-trade off, default config).
   */
  function AddWallet(ws: seq<TrackedWallet>, address: string, walletLabel: string): (r: seq<TrackedWallet>)
    ensures HasAddress(ws, Lower(address)) ==> r == ws
    ensures !HasAddress(ws, Lower(address)) ==> r == ws + [NewWallet(address, walletLabel)]
    ensures HasAddress(r, Lower(address))
  {
    if HasAddress(ws, Lower(address)) then ws else ws + [NewWallet(address, walletLabel)]
  }

  /** Adding keeps addresses unique. */
  lemma AddWalletKeepsUnique(ws: seq<TrackedWallet>, address: string, walletLabel: string)
    requires UniqueAddresses(ws)
    ensures UniqueAddresses(AddWallet(ws, address, walletLabel))
  {
    var r := AddWallet(ws, address, walletLabel);
    if !HasAddress(ws, Lower(address)) {
      forall i, j | 0 <= i < j < |r| ensures r[i].address != r[j].address {
        if j == |ws| {
          assert r[i] in ws;
        }
      }
    }
  }

  function AddressIsNot(address: string): TrackedWallet -> bool {
    (w: TrackedWallet) => w.address != address
  }

  /** removeWallet: every wallet with the lower-cased address goes, the others stay in order. */
  function RemoveWallet(ws: seq<TrackedWallet>, address: string): (r: seq<TrackedWallet>)
    ensures forall w :: w in r <==> w in ws && w.address != Lower(address)
    ensures !HasAddress(r, Lower(address))
    ensures !HasAddress(ws, Lower(address)) ==> r == ws
    ensures IsSubsequence(r, ws)
  {
    var keep := AddressIsNot(Lower(address));
    FilterSubsequence(ws, keep);
    if HasAddress(ws, Lower(address)) then Filter(ws, keep)
    else FilterAllTrue(ws, keep); Filter(ws, keep)
  }

  /** Removing what was just added restores the list. */
  lemma RemoveUndoesAdd(ws: seq<TrackedWallet>, address: string, walletLabel: string)
    requires !HasAddress(ws, Lower(address))
    ensures RemoveWallet(AddWallet(ws, address, walletLabel), address) == ws
  {
    var p := AddressIsNot(Lower(address));
    FilterConcat(ws, [NewWallet(address, walletLabel)], p);
    FilterAllTrue(ws, p);
    LowerIdempotent(address);
  }

  /** Removing keeps addresses unique. */
  lemma RemoveWalletKeepsUnique(ws: seq<TrackedWallet>, address: string)
    requires UniqueAddresses(ws)
    ensures UniqueAddresses(RemoveWallet(ws, address))
  {
    RemoveKeepsUniqueBy(ws, AddressIsNot(Lower(address)));
  }

  lemma {:induction false} RemoveKeepsUniqueBy(ws: seq<TrackedWallet>, p: TrackedWallet -> bool)
    requires UniqueAddresses(ws)
    ensures UniqueAddresses(Filter(ws, p))
  {
    if ws != [] {
      RemoveKeepsUniqueBy(ws[1..], p);
      var rest := Filter(ws[1..], p);
      if p(ws[0]) {
        var r := Filter(ws, p);
        assert r == [ws[0]] + rest;
        forall j | 0 <= j < |rest| ensures rest[j].address != ws[0].address {
          assert rest[j] in ws[1..];
        }
      }
    }
  }
}
