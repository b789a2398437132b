/**
 * A JavaScript `Map` with string keys, as the server's file-backed stores use
 * it: `set` keeps an existing key where it was and appends a new one,
 * `delete` drops a key, and iteration follows insertion order.
 */
module Keyed {
  import opened Common

  function KeyIsNot(k: string): string -> bool {
    (x: string) => x != k
  }

  /** The keys in insertion order, and the entries. */
  datatype OrderedMap<V> = OrderedMap(keys: seq<string>, entries: map<string, V>) {

    /** Every key once, and exactly the keys of the entries. */
    ghost predicate Valid() {
      NoDup(keys) && forall k :: k in entries <==> k in keys
    }

    /** `map.get(k)`. */
    function Get(k: string): (r: Option<V>)
      ensures r.Some? <==> k in entries
      ensures r.Some? ==> r.value == entries[k]
    {
      if k in entries then Some(entries[k]) else None
    }

    /** `map.set(k, v)`. */
    function Put(k: string, v: V): (r: OrderedMap<V>)
      ensures r.entries == entries[k := v]
      ensures k in keys ==> r.keys == keys
      ensures k !in keys ==> r.keys == keys + [k]
      ensures Valid() ==> r.Valid()
    {
      OrderedMap(SetAdd(keys, k), entries[k := v])
    }

    /** `map.delete(k)`: the map without `k`, the other keys in their order. */
    function Remove(k: string): (r: OrderedMap<V>)
      ensures r.entries == entries - {k}
      ensures forall j :: j in r.keys <==> j in keys && j != k
      ensures IsSubsequence(r.keys, keys)
    {
      FilterSubsequence(keys, KeyIsNot(k));
      OrderedMap(Filter(keys, KeyIsNot(k)), entries - {k})
    }

    /** Deleting keeps the map well formed, and deleting an absent key changes nothing. */
    lemma RemoveValid(k: string)
      requires Valid()
      ensures Remove(k).Valid()
      ensures k !in entries ==> Remove(k) == this
    {
      FilterNoDup(keys, KeyIsNot(k));
      if k !in entries {
        RemoveAbsent(k);
      }
    }

    lemma RemoveAbsent(k: string)
      requires k !in keys && k !in entries
      ensures Remove(k) == this
    {
      FilterAllTrue(keys, KeyIsNot(k));
      assert entries - {k} == entries;
    }

    /** `Array.from(map.values())`: one value per key, in key order. */
    function Values(): (r: seq<V>)
      requires Valid()
      ensures |r| == |keys|
      ensures forall i :: 0 <= i < |keys| ==> r[i] == entries[keys[i]]
    {
      seq(|keys|, i requires 0 <= i < |keys| => entries[keys[i]])
    }
  }

  function Empty<V>(): (r: OrderedMap<V>)
    ensures r.Valid() && r.keys == [] && r.entries == map[]
  {
    OrderedMap([], map[])
  }

  /** `map.clear()` followed by `map.set(keyOf(x), x)` for each `x` of `items` in order. */
  function Loaded<V>(items: seq<V>, keyOf: V -> string): (r: OrderedMap<V>)
    ensures r.Valid()
  {
    if items == [] then Empty()
    else Loaded(items[..|items| - 1], keyOf).Put(keyOf(items[|items| - 1]), items[|items| - 1])
  }

  /** The keys of the items. */
  function KeysOf<V>(items: seq<V>, keyOf: V -> string): (r: set<string>)
    ensures forall i :: 0 <= i < |items| ==> keyOf(items[i]) in r
    ensures forall k :: k in r ==> exists i :: 0 <= i < |items| && keyOf(items[i]) == k
  {
    if items == [] then {}
    else
      var init := items[..|items| - 1];
      assert forall i :: 0 <= i < |init| ==> init[i] == items[i];
      KeysOf(init, keyOf) + {keyOf(items[|items| - 1])}
  }

  /** The loaded keys are exactly the items' keys. */
  lemma {:induction false} LoadedKeys<V>(items: seq<V>, keyOf: V -> string)
    ensures Loaded(items, keyOf).entries.Keys == KeysOf(items, keyOf)
  {
    if items != [] {
      LoadedKeys(items[..|items| - 1], keyOf);
    }
  }

  /** Each loaded entry sits under its own key. */
  lemma {:induction false} LoadedUnderOwnKey<V>(items: seq<V>, keyOf: V -> string)
    ensures forall k :: k in Loaded(items, keyOf).entries ==> keyOf(Loaded(items, keyOf).entries[k]) == k
  {
    if items != [] {
      var init := items[..|items| - 1];
      LoadedUnderOwnKey(init, keyOf);
      var prev := Loaded(init, keyOf);
      var last := items[|items| - 1];
      assert Loaded(items, keyOf).entries == prev.entries[keyOf(last) := last];
    }
  }

  /** Of several items with one key the last wins: an item no later item shares its key with is the entry. */
  lemma {:induction false} LoadedLastWins<V>(items: seq<V>, keyOf: V -> string, i: nat)
    requires i < |items|
    requires forall j :: i < j < |items| ==> keyOf(items[j]) != keyOf(items[i])
    ensures Loaded(items, keyOf).Get(keyOf(items[i])) == Some(items[i])
  {
    var init := items[..|items| - 1];
    if i < |items| - 1 {
      assert forall j :: i < j < |init| ==> init[j] == items[j];
      LoadedLastWins(init, keyOf, i);
      assert init[i] == items[i];
    }
  }
}
