/**
 * The server's filter-preset store (server/preset-store.ts): one preset per
 * id, kept in a Map and saved as a JSON array after every change.
 * The file is modelled by what was read from it at start-up
 * (`Stored`) and by the list of arrays written to it (`writes`); directory
 * creation and path handling are not part of this model.
 */
module PresetStoreModel {
  import opened Common
  import opened Keyed
  import opened Filters

  /** The key the store files a preset under. */
  function KeyOf(): FilterPreset -> string {
    (x: FilterPreset) => x.id
  }

  class PresetStore {
    var presets: OrderedMap<FilterPreset>
    /** The arrays written to the file, oldest first. */
    var writes: seq<seq<FilterPreset>>

    /** A well-formed map whose every entry is filed under its own id. */
    ghost predicate Valid()
      reads this
    {
      presets.Valid() && forall k :: k in presets.entries ==> presets.entries[k].id == k
    }

    /**
     * The constructor's load: when the file parsed, the map is rebuilt from its
     * array in order, so of two entries with one id the later wins; a
     * missing file, or one that does not parse as JSON, leaves the map empty.
     * Nothing is written.
     */
    constructor(file: Stored<seq<FilterPreset>>)
      ensures Valid()
      ensures presets == if file.Parsed? then Loaded(file.value, KeyOf()) else Empty()
      ensures writes == []
    {
      var m: OrderedMap<FilterPreset> := Empty();
      if file.Parsed? {
        var arr := file.value;
        for i := 0 to |arr|
          invariant m == Loaded(arr[..i], KeyOf())
        {
          assert arr[..i + 1][..i] == arr[..i];
          m := m.Put(arr[i].id, arr[i]);
        }
        assert arr[..|arr|] == arr;
        LoadedUnderOwnKey(arr, KeyOf());
      }
      presets := m;
      writes := [];
    }

    /** get: the entry filed under `key`, if any. */
    function Get(key: string): (r: Option<FilterPreset>)
      reads this
      ensures r.Some? <==> key in presets.entries
      ensures Valid() && r.Some? ==> r.value.id == key
    {
      presets.Get(key)
    }

    /** getAll: exactly the stored presets, one per id, in the order the ids were first set. */
    method GetAll() returns (r: seq<FilterPreset>)
      requires Valid()
      ensures |r| == |presets.keys|
      ensures forall i :: 0 <= i < |r| ==> Get(presets.keys[i]) == Some(r[i]) && r[i].id == presets.keys[i]
      ensures forall p :: p in r <==> Get(p.id) == Some(p)
      ensures forall i, j :: 0 <= i < j < |r| ==> r[i].id != r[j].id
    {
      r := presets.Values();
      forall p: FilterPreset | Get(p.id) == Some(p) ensures p in r {
        var i :| 0 <= i < |presets.keys| && presets.keys[i] == p.id;
        assert r[i] == p;
      }
    }

    /** set: files the preset under its id, replacing any earlier one, and writes the file. */
    method Set(preset: FilterPreset)
      requires Valid()
      modifies this
      ensures Valid()
      ensures presets == old(presets).Put(preset.id, preset)
      ensures writes == old(writes) + [presets.Values()]
      ensures Get(preset.id) == Some(preset)
      ensures forall k :: k != preset.id ==> Get(k) == old(Get(k))
    {
      presets := presets.Put(preset.id, preset);
      writes := writes + [presets.Values()];
    }

    /** delete: true exactly when the key was present; only then is the map changed and written out. */
    method Delete(key: string) returns (existed: bool)
      requires Valid()
      modifies this
      ensures Valid()
      ensures existed <==> key in old(presets.entries)
      ensures existed ==> presets == old(presets).Remove(key) && writes == old(writes) + [presets.Values()]
      ensures !existed ==> unchanged(this)
      ensures Get(key) == None
    {
      existed := key in presets.entries;
      presets.RemoveValid(key);
      presets := presets.Remove(key);
      if existed {
        writes := writes + [presets.Values()];
      }
    }
  }
}
