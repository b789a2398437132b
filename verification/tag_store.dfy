/**
 * The server's tag-override store (server/tag-store.ts): one override per
 * condition id, kept in a Map and saved as a JSON array after every change.
 * The file is modelled by what was read from it at start-up
 * (`Stored`) and by the list of arrays written to it (`writes`); directory
 * creation and path handling are not part of this model.
 */
module TagStoreModel {
  import opened Common
  import opened Keyed
  import opened Tags

  /** The key the store files a tag override under. */
  function KeyOf(): TagOverride -> string {
    (x: TagOverride) => x.conditionId
  }

  class TagStore {
    var overrides: OrderedMap<TagOverride>
    /** The arrays written to the file, oldest first. */
    var writes: seq<seq<TagOverride>>

    /** A well-formed map whose every entry is filed under its own conditionId. */
    ghost predicate Valid()
      reads this
    {
      overrides.Valid() && forall k :: k in overrides.entries ==> overrides.entries[k].conditionId == k
    }

    /**
     * The constructor's load: when the file parsed, the map is rebuilt from its
     * array in order, so of two entries with one conditionId the later wins; a
     * missing file, or one that does not parse as JSON, leaves the map empty.
     * Nothing is written.
     */
    constructor(file: Stored<seq<TagOverride>>)
      ensures Valid()
      ensures overrides == if file.Parsed? then Loaded(file.value, KeyOf()) else Empty()
      ensures writes == []
    {
      var m: OrderedMap<TagOverride> := Empty();
      if file.Parsed? {
        var arr := file.value;
        for i := 0 to |arr|
          invariant m == Loaded(arr[..i], KeyOf())
        {
          assert arr[..i + 1][..i] == arr[..i];
          m := m.Put(arr[i].conditionId, arr[i]);
        }
        assert arr[..|arr|] == arr;
        LoadedUnderOwnKey(arr, KeyOf());
      }
      overrides := m;
      writes := [];
    }

    /** get: the entry filed under `key`, if any. */
    function Get(key: string): (r: Option<TagOverride>)
      reads this
      ensures r.Some? <==> key in overrides.entries
      ensures Valid() && r.Some? ==> r.value.conditionId == key
    {
      overrides.Get(key)
    }

    /** getAll: a copy of the map, answering every lookup as the store does; a value, so later changes to either side do not reach the other. */
    method GetAll() returns (r: OrderedMap<TagOverride>)
      requires Valid()
      ensures r.Valid()
      ensures forall k :: r.Get(k) == Get(k)
      ensures r.keys == overrides.keys
    {
      r := overrides;
    }

    /** getAllArray: one override per condition, in the order the conditions were first set. */
    method GetAllArray() returns (r: seq<TagOverride>)
      requires Valid()
      ensures |r| == |overrides.keys|
      ensures forall i :: 0 <= i < |r| ==> Get(overrides.keys[i]) == Some(r[i]) && r[i].conditionId == overrides.keys[i]
    {
      r := overrides.Values();
    }

    /** set: files {conditionId, addTags, removeTags} under the condition, replacing any earlier override, and writes the file. */
    method Set(conditionId: string, addTags: seq<string>, removeTags: seq<string>)
      requires Valid()
      modifies this
      ensures Valid()
      ensures overrides == old(overrides).Put(conditionId, TagOverride(conditionId, addTags, removeTags))
      ensures writes == old(writes) + [overrides.Values()]
      ensures Get(conditionId) == Some(TagOverride(conditionId, addTags, removeTags))
      ensures forall k :: k != conditionId ==> Get(k) == old(Get(k))
    {
      overrides := overrides.Put(conditionId, TagOverride(conditionId, addTags, removeTags));
      writes := writes + [overrides.Values()];
    }

    /** delete: true exactly when the key was present; only then is the map changed and written out. */
    method Delete(key: string) returns (existed: bool)
      requires Valid()
      modifies this
      ensures Valid()
      ensures existed <==> key in old(overrides.entries)
      ensures existed ==> overrides == old(overrides).Remove(key) && writes == old(writes) + [overrides.Values()]
      ensures !existed ==> unchanged(this)
      ensures Get(key) == None
    {
      existed := key in overrides.entries;
      overrides.RemoveValid(key);
      overrides := overrides.Remove(key);
      if existed {
        writes := writes + [overrides.Values()];
      }
    }
  }
}
