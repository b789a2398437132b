/**
 * The server's in-memory trade cache (server/trade-cache.ts): per-wallet
 * lists of trades, newest first, at most 500 each, and a set of seen
 * transaction hashes for de-duplication that sheds its 1000 oldest entries
 * once it holds more than 10000.
 *
 * The JavaScript Map and Set keep insertion order, which `wallets()` and the
 * eviction expose; both are modelled as sequences without duplicates.
 */
module TradeCacheModel {
  import opened Common
  import opened Text
  import opened Types

  /** MAX_TRADES_PER_WALLET. */
  const MaxTradesPerWallet: nat := 500

  /** The seen-hash set is trimmed once it holds more than this many hashes. */
  const MaxSeenHashes: nat := MaxTradesPerWallet * 20

  /** How many of the oldest hashes one trim removes. */
  const EvictBatch: nat := 1000

  function MinNat(a: nat, b: nat): nat { if a <= b then a else b }

  /** `list.unshift(t)` followed by `list.length = n` when the list grew past `n`. */
  function PushFront(list: seq<Trade>, t: Trade, n: nat): (r: seq<Trade>)
    requires n >= 1
    ensures |r| == MinNat(|list| + 1, n)
    ensures r[0] == t
    ensures r[1..] == list[..|r| - 1]
    ensures forall x :: x in r ==> x == t || x in list
  {
    var l := [t] + list;
    if |l| > n then l[..n] else l
  }

  /** The insertion-ordered set after the trim: its first `EvictBatch` entries gone. */
  function Trimmed(s: seq<string>): (r: seq<string>)
    ensures r == s[MinNat(EvictBatch, |s|)..]
  {
    if |s| <= EvictBatch then [] else s[EvictBatch..]
  }

  /** Descending by timestamp. */
  ghost predicate SortedDesc(s: seq<Trade>) {
    forall i, j :: 0 <= i < j < |s| ==> s[i].timestamp >= s[j].timestamp
  }

  /** Inserts `t` before the first element that is not newer than it. */
  function InsertByTimestamp(t: Trade, s: seq<Trade>): (r: seq<Trade>)
    ensures |r| == |s| + 1
    ensures forall x :: x in r <==> x == t || x in s
  {
    if s == [] || s[0].timestamp <= t.timestamp then [t] + s
    else [s[0]] + InsertByTimestamp(t, s[1..])
  }

  /** Inserting adds exactly one occurrence of `t`. */
  lemma {:induction false} InsertByTimestampCounts(t: Trade, s: seq<Trade>)
    ensures multiset(InsertByTimestamp(t, s)) == multiset(s) + multiset{t}
  {
    if s != [] && s[0].timestamp > t.timestamp {
      InsertByTimestampCounts(t, s[1..]);
      assert s == [s[0]] + s[1..];
    }
  }

  /** Inserting into a list sorted newest first keeps it sorted. */
  lemma {:induction false} InsertByTimestampSorted(t: Trade, s: seq<Trade>)
    requires SortedDesc(s)
    ensures SortedDesc(InsertByTimestamp(t, s))
  {
    if s != [] && s[0].timestamp > t.timestamp {
      InsertByTimestampSorted(t, s[1..]);
      var rest := InsertByTimestamp(t, s[1..]);
      assert forall x :: x in rest ==> x.timestamp <= s[0].timestamp;
    }
  }

  /**
   * `all.sort((a, b) => b.timestamp - a.timestamp)`: a stable sort, newest
   * first (an insertion sort, so trades with equal timestamps keep their order).
   */
  function SortByTimestampDesc(s: seq<Trade>): (r: seq<Trade>)
    ensures SortedDesc(r)
    ensures multiset(r) == multiset(s)
    ensures |r| == |s|
  {
    if s == [] then []
    else
      assert s == [s[0]] + s[1..];
      InsertByTimestampCounts(s[0], SortByTimestampDesc(s[1..]));
      InsertByTimestampSorted(s[0], SortByTimestampDesc(s[1..]));
      InsertByTimestamp(s[0], SortByTimestampDesc(s[1..]))
  }

  /** The cardinality of a sequence without duplicates is its length. */
  lemma {:induction false} NoDupCard<T>(s: seq<T>)
    requires NoDup(s)
    ensures |set x | x in s| == |s|
  {
    if s != [] {
      var t := s[..|s| - 1];
      assert NoDup(t);
      NoDupCard(t);
      assert s[|s| - 1] !in t;
      assert (set x | x in s) == (set x | x in t) + {s[|s| - 1]};
    }
  }

  /**
   * Each wallet key is in `keyOrder` exactly once, and each list is non-empty,
   * at most 500 long and holds only that wallet's trades.
   */
  ghost predicate CacheShape(cache: map<string, seq<Trade>>, keyOrder: seq<string>) {
    && NoDup(keyOrder)
    && (forall k :: k in cache <==> k in keyOrder)
    && (forall k :: k in cache ==> 1 <= |cache[k]| <= MaxTradesPerWallet)
    && (forall k, t :: k in cache && t in cache[k] ==> Lower(t.walletAddress) == k)
  }

  /** Storing a fitting list under a key, and adding the key to the order, keeps the shape. */
  lemma CacheShapeKept(cache: map<string, seq<Trade>>, keyOrder: seq<string>, key: string, list: seq<Trade>)
    requires CacheShape(cache, keyOrder)
    requires 1 <= |list| <= MaxTradesPerWallet
    requires forall t :: t in list ==> Lower(t.walletAddress) == key
    ensures CacheShape(cache[key := list], SetAdd(keyOrder, key))
  {
  }

  /**
   * The hash half of add: the new hash joins the insertion-ordered set, and a
   * set that outgrew 10000 entries sheds its 1000 oldest, one at a time.
   */
  method AdmitHash(seen: seq<string>, h: string) returns (r: seq<string>)
    requires NoDup(seen) && |seen| <= MaxSeenHashes && h !in seen
    ensures var s := seen + [h]; r == if |s| > MaxSeenHashes then Trimmed(s) else s
    ensures NoDup(r) && |r| <= MaxSeenHashes
    ensures |r| >= 1 && r[|r| - 1] == h
  {
    var s0 := seen + [h];
    r := s0;
    if |r| > MaxSeenHashes {
      var i := 0;
      while i < EvictBatch
        invariant 0 <= i <= EvictBatch && i <= |s0|
        invariant r == s0[i..]
        decreases EvictBatch - i
      {
        if r == [] {
          break;
        }
        r := r[1..];
        i := i + 1;
      }
      assert r == Trimmed(s0);
    }
    assert NoDup(s0);
    forall a, b | 0 <= a < b < |r| ensures r[a] != r[b] {
      assert r[a] == s0[a + (|s0| - |r|)] && r[b] == s0[b + (|s0| - |r|)];
    }
  }

  class TradeCache {
    var cache: map<string, seq<Trade>>
    /** The Map's keys in insertion order. */
    var keyOrder: seq<string>
    /** The Set of seen hashes in insertion order. */
    var seenHashes: seq<string>

    /**
     * Each wallet key is lower case and present in `keyOrder` exactly once;
     * each list is non-empty, at most 500 long and holds only that wallet's
     * trades; the hash set has no duplicate and at most 10000 entries.
     */
    ghost predicate Valid()
      reads this
    {
      && CacheShape(cache, keyOrder)
      && NoDup(seenHashes)
      && |seenHashes| <= MaxSeenHashes
    }

    constructor()
      ensures Valid()
      ensures cache == map[] && keyOrder == [] && seenHashes == []
    {
      cache := map[];
      keyOrder := [];
      seenHashes := [];
    }

    /** get: the wallet's trades, newest first, or [] for a wallet never seen (the address is lower-cased). */
    function Get(walletAddress: string): (r: seq<Trade>)
      reads this
      ensures Lower(walletAddress) !in cache ==> r == []
      ensures Valid() ==> |r| <= MaxTradesPerWallet
      ensures Valid() ==> forall t :: t in r ==> Lower(t.walletAddress) == Lower(walletAddress)
    {
      var key := Lower(walletAddress);
      if key in cache then cache[key] else []
    }

    /**
     * add: a trade whose hash was seen is rejected and changes nothing; a new
     * one is recorded in the hash set (trimmed of its 1000 oldest entries when
     * it outgrew 10000) and put at the head of its wallet's list, which keeps
     * at most 500 trades; no other wallet's list changes.
     */
    method Add(trade: Trade) returns (isNew: bool)
      requires Valid()
      modifies this
      ensures Valid()
      ensures isNew <==> trade.transactionHash !in old(seenHashes)
      ensures !isNew ==> unchanged(this)
      ensures isNew ==> (var s := old(seenHashes) + [trade.transactionHash];
                          seenHashes == if |s| > MaxSeenHashes then Trimmed(s) else s)
      ensures isNew ==> trade.transactionHash in seenHashes
      ensures isNew ==> cache == old(cache)[Lower(trade.walletAddress) := PushFront(old(Get(trade.walletAddress)), trade, MaxTradesPerWallet)]
      ensures isNew ==> keyOrder == SetAdd(old(keyOrder), Lower(trade.walletAddress))
      ensures isNew ==> Get(trade.walletAddress)[0] == trade
    {
      var key := Lower(trade.walletAddress);
      if trade.transactionHash in seenHashes {
        return false;
      }
      var seen := AdmitHash(seenHashes, trade.transactionHash);
      seenHashes := seen;

      var list := if key in cache then cache[key] else [];
      var updated := PushFront(list, trade, MaxTradesPerWallet);
      LowerIdempotent(trade.walletAddress);
      CacheShapeKept(cache, keyOrder, key, updated);
      cache := cache[key := updated];
      keyOrder := SetAdd(keyOrder, key);
      isNew := true;
    }

    /** The wallets' lists concatenated in the order the addresses are given. */
    function Gathered(addrs: seq<string>): (r: seq<Trade>)
      reads this
      ensures forall t :: t in r <==> exists j :: 0 <= j < |addrs| && t in Get(addrs[j])
    {
      if addrs == [] then []
      else
        var init := addrs[..|addrs| - 1];
        assert forall j :: 0 <= j < |init| ==> init[j] == addrs[j];
        Gathered(init) + Get(addrs[|addrs| - 1])
    }

    /**
     * getMultiple: every trade of the listed wallets, newest first: exactly the
     * trades of the wallets' lists, each as often as the lists hold it.
     */
    method GetMultiple(walletAddresses: seq<string>) returns (all: seq<Trade>)
      ensures SortedDesc(all)
      ensures multiset(all) == multiset(Gathered(walletAddresses))
      ensures forall t :: t in all <==> exists j :: 0 <= j < |walletAddresses| && t in Get(walletAddresses[j])
    {
      var acc: seq<Trade> := [];
      for i := 0 to |walletAddresses|
        invariant acc == Gathered(walletAddresses[..i])
      {
        assert walletAddresses[..i + 1][..i] == walletAddresses[..i];
        acc := acc + Get(walletAddresses[i]);
      }
      assert walletAddresses[..|walletAddresses|] == walletAddresses;
      all := SortByTimestampDesc(acc);
      SameMembers(all, acc);
    }

    /** wallets: every wallet with cached trades, in first-seen order, each once. */
    function Wallets(): (r: seq<string>)
      reads this
      ensures Valid() ==> NoDup(r) && forall k :: k in r <==> k in cache
    {
      keyOrder
    }

    /** The sum of the list lengths over the given keys. */
    function SumLengths(keys: seq<string>): nat
      reads this
    {
      if keys == [] then 0
      else SumLengths(keys[..|keys| - 1]) + (if keys[|keys| - 1] in cache then |cache[keys[|keys| - 1]]| else 0)
    }

    lemma {:induction false} SumLengthsBound(keys: seq<string>)
      requires Valid()
      ensures SumLengths(keys) <= MaxTradesPerWallet * |keys|
    {
      if keys != [] {
        SumLengthsBound(keys[..|keys| - 1]);
      }
    }

    /**
     * stats: the number of wallets, the number of cached trades (the lengths
     * summed over the wallets), and the number of remembered hashes.
     */
    method Stats() returns (wallets: nat, totalTrades: nat, seen: nat)
      requires Valid()
      ensures wallets == |cache| == |keyOrder|
      ensures totalTrades == SumLengths(keyOrder)
      ensures totalTrades <= MaxTradesPerWallet * wallets
      ensures seen == |seenHashes| <= MaxSeenHashes
    {
      totalTrades := 0;
      for i := 0 to |keyOrder|
        invariant totalTrades == SumLengths(keyOrder[..i])
      {
        assert keyOrder[..i + 1][..i] == keyOrder[..i];
        totalTrades := totalTrades + |cache[keyOrder[i]]|;
      }
      assert keyOrder[..|keyOrder|] == keyOrder;
      NoDupCard(keyOrder);
      assert cache.Keys == set k | k in keyOrder;
      SumLengthsBound(keyOrder);
      wallets := |cache|;
      seen := |seenHashes|;
    }

    /** clear: forgets every trade and every hash. */
    method Clear()
      modifies this
      ensures Valid()
      ensures cache == map[] && keyOrder == [] && seenHashes == []
    {
      cache := map[];
      keyOrder := [];
      seenHashes := [];
    }
  }
}
