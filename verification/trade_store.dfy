/**
 * The dashboard's trade store (lib/stores/trade-store.ts): the last 100
 * trades of each wallet, newest first, and a de-duplication set of
 * transaction hashes bounded by DEDUP_SET_MAX_SIZE (10000) that drops its
 * oldest hash before admitting a new one when full.
 *
 * The store's eviction guards the deletion with the truthiness of the oldest
 * hash, so an empty hash at the head of the set is never removed and the set
 * then grows without bound. `EvictAsWritten` models that guard and
 * `EmptyOldestHashOverflows` exhibits the overflow; the store itself uses the
 * intended `EvictOldest`, which keeps the bound.
 */
module TradeStoreModel {
  import opened Common
  import opened Text
  import opened Types

  /** The number of trades kept per wallet (`slice(0, 100)`). */
  const MaxTradesPerWallet: nat := 100

  /** The eviction as written: the oldest hash goes only when it is a non-empty string. */
  function EvictAsWritten(seen: seq<string>): seq<string> {
    if |seen| >= DedupSetMaxSize && seen[0] != "" then seen[1..] else seen
  }

  /** The intended eviction: when the set is full, its oldest hash goes, whatever it is. */
  function EvictOldest(seen: seq<string>): (r: seq<string>)
    ensures |seen| >= DedupSetMaxSize ==> r == seen[1..]
    ensures |seen| < DedupSetMaxSize ==> r == seen
  {
    if |seen| >= DedupSetMaxSize then seen[1..] else seen
  }

  /** Admitting a new hash after the intended eviction keeps the set duplicate-free, within its bound and holding the new hash. */
  lemma EvictOldestKeepsBound(seen: seq<string>, h: string)
    requires NoDup(seen) && |seen| <= DedupSetMaxSize && h !in seen
    ensures var r := SetAdd(EvictOldest(seen), h);
      NoDup(r) && |r| <= DedupSetMaxSize && h in r && r[|r| - 1] == h
  {
    var e := EvictOldest(seen);
    assert NoDup(e) by {
      if |seen| >= DedupSetMaxSize {
        forall a, b | 0 <= a < b < |e| ensures e[a] != e[b] {
          assert e[a] == seen[a + 1] && e[b] == seen[b + 1];
        }
      }
    }
    assert h !in e by {
      if |seen| >= DedupSetMaxSize {
        forall a | 0 <= a < |e| ensures e[a] != h {
          assert e[a] == seen[a + 1];
        }
      }
    }
  }

  /** Once an empty hash is the oldest of a full set, the as-written eviction removes nothing: the set grows by one. */
  lemma EmptyOldestHashGrows(seen: seq<string>, h: string)
    requires |seen| >= DedupSetMaxSize && seen[0] == "" && h !in seen
    ensures var r := SetAdd(EvictAsWritten(seen), h);
      |r| == |seen| + 1 && r[0] == ""
  {
  }

  /** A full set of 10000 distinct hashes, the oldest of them empty: here "", "a", "aa", … */
  function FullSetWithEmptyOldest(): (s: seq<string>)
    ensures |s| == DedupSetMaxSize && s[0] == ""
    ensures forall i :: 0 <= i < |s| ==> |s[i]| == i && forall c :: c in s[i] ==> c == 'a'
  {
    seq(DedupSetMaxSize, (i: nat) => seq(i, _ => 'a'))
  }

  /**
   * The overflow the guard allows: a reachable full set (distinct hashes, the
   * oldest one empty, as a trade without a hash carries) exceeds
   * DEDUP_SET_MAX_SIZE after one more trade.
   */
  lemma EmptyOldestHashOverflows()
    ensures var s := FullSetWithEmptyOldest();
      NoDup(s) && "b" !in s && |SetAdd(EvictAsWritten(s), "b")| == DedupSetMaxSize + 1
  {
    var s := FullSetWithEmptyOldest();
    assert NoDup(s) by {
      forall i, j | 0 <= i < j < |s| ensures s[i] != s[j] {
        assert |s[i]| == i && |s[j]| == j;
      }
    }
    assert "b" !in s by {
      forall i | 0 <= i < |s| ensures s[i] != "b" {
        if |s[i]| == 1 {
          assert s[i][0] in s[i];
        }
      }
    }
    EmptyOldestHashGrows(s, "b");
  }

  /** Each wallet's list holds between 1 and 100 trades, all of that wallet. */
  ghost predicate WalletLists(m: map<string, seq<Trade>>) {
    && (forall w :: w in m ==> 1 <= |m[w]| <= MaxTradesPerWallet)
    && (forall w, t :: w in m && t in m[w] ==> Lower(t.walletAddress) == w)
  }

  /** Storing a fitting list under a wallet keeps every list fitting. */
  lemma WalletListsKept(m: map<string, seq<Trade>>, w: string, list: seq<Trade>)
    requires WalletLists(m)
    requires 1 <= |list| <= MaxTradesPerWallet
    requires forall t :: t in list ==> Lower(t.walletAddress) == w
    ensures WalletLists(m[w := list])
  {
  }

  class TradeStore {
    var tradesByWallet: map<string, seq<Trade>>
    /** The Set of seen hashes in insertion order. */
    var seenTxHashes: seq<string>

    /**
     * Every wallet key is lower case and its list holds between 1 and 100 of
     * that wallet's trades; the hash set has no duplicate and at most 10000 entries.
     */
    ghost predicate Valid()
      reads this
    {
      && WalletLists(tradesByWallet)
      && NoDup(seenTxHashes)
      && |seenTxHashes| <= DedupSetMaxSize
    }

    constructor()
      ensures Valid()
      ensures tradesByWallet == map[] && seenTxHashes == []
    {
      tradesByWallet := map[];
      seenTxHashes := [];
    }

    /** getTradesForWallet: the wallet's trades, newest first, or [] (the address is lower-cased). */
    function GetTradesForWallet(address: string): (r: seq<Trade>)
      reads this
      ensures Lower(address) !in tradesByWallet ==> r == []
      ensures Valid() ==> |r| <= MaxTradesPerWallet
      ensures Valid() ==> forall t :: t in r ==> Lower(t.walletAddress) == Lower(address)
    {
      var w := Lower(address);
      if w in tradesByWallet then tradesByWallet[w] else []
    }

    /**
     * addTrade: a trade whose hash was seen is rejected and changes nothing; a
     * new one enters the hash set (after the oldest hash left a full set) and
     * the head of its wallet's list, which keeps its 100 newest trades; no
     * other wallet changes.
     */
    method AddTrade(trade: Trade) returns (isNew: bool)
      requires Valid()
      modifies this
      ensures Valid()
      ensures isNew <==> trade.transactionHash !in old(seenTxHashes)
      ensures !isNew ==> unchanged(this)
      ensures isNew ==> seenTxHashes == EvictOldest(old(seenTxHashes)) + [trade.transactionHash]
      ensures isNew ==> tradesByWallet == old(tradesByWallet)[Lower(trade.walletAddress) :=
        var l := [trade] + old(GetTradesForWallet(trade.walletAddress));
        l[..if |l| < MaxTradesPerWallet then |l| else MaxTradesPerWallet]]
      ensures isNew ==> GetTradesForWallet(trade.walletAddress)[0] == trade
    {
      if trade.transactionHash in seenTxHashes {
        return false;
      }
      var newSet := EvictOldest(seenTxHashes);
      EvictOldestKeepsBound(seenTxHashes, trade.transactionHash);
      newSet := SetAdd(newSet, trade.transactionHash);

      var wallet := Lower(trade.walletAddress);
      var existing := if wallet in tradesByWallet then tradesByWallet[wallet] else [];
      var l := [trade] + existing;
      var updated := l[..if |l| < MaxTradesPerWallet then |l| else MaxTradesPerWallet];
      LowerIdempotent(trade.walletAddress);
      assert forall t :: t in updated ==> t in l;
      WalletListsKept(tradesByWallet, wallet, updated);

      tradesByWallet := tradesByWallet[wallet := updated];
      seenTxHashes := newSet;
      isNew := true;
    }
  }
}
