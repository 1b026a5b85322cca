/**
 * The key-value storage adapters the persisted stores use: two MMKV instances
 * and two get/set/remove adapters, both of which read and write the first one.
 */
module Mmkv {
  import opened Wrappers

  /**
   * An MMKV instance: a string-to-string map with an identifier. Opening an
   * instance finds whatever earlier sessions stored under its identifier.
   */
  class MmkvInstance {
    const id: string
    var entries: map<string, string>

    constructor (id: string, stored: map<string, string>)
      ensures this.id == id && entries == stored
    {
      this.id := id;
      entries := stored;
    }
  }

  /** What `getItem` returns for `key`: the stored string, or null when it is absent or empty. */
  function ReadBack(entries: map<string, string>, key: string): (r: Option<string>)
    ensures r.Some? <==> key in entries && entries[key] != ""
    ensures r.Some? ==> r.value == entries[key]
  {
    if key in entries && entries[key] != "" then Some(entries[key]) else None
  }

  /** A `StateStorage` adapter over one MMKV instance. */
  class StorageAdapter {
    const backing: MmkvInstance

    constructor (backing: MmkvInstance)
      ensures this.backing == backing
    {
      this.backing := backing;
    }

    method SetItem(key: string, value: string)
      modifies backing
      ensures backing.entries == old(backing.entries)[key := value]
    {
      backing.entries := backing.entries[key := value];
    }

    method GetItem(key: string) returns (r: Option<string>)
      ensures r == ReadBack(backing.entries, key)
    {
      if key in backing.entries && backing.entries[key] != "" {
        r := Some(backing.entries[key]);
      } else {
        r := None;
      }
    }

    method RemoveItem(key: string)
      modifies backing
      ensures backing.entries == old(backing.entries) - {key}
    {
      backing.entries := backing.entries - {key};
    }
  }

  /** A non-empty value that was set reads back unchanged. */
  lemma SetThenGet(entries: map<string, string>, key: string, value: string)
    ensures ReadBack(entries[key := value], key) == if value == "" then None else Some(value)
  {
  }

  /** A removed key reads back as null. */
  lemma RemoveThenGet(entries: map<string, string>, key: string)
    ensures ReadBack(entries - {key}, key) == None
  {
  }

  /** Setting or removing one key leaves every other key as it was. */
  lemma OtherKeysUnchanged(entries: map<string, string>, key: string, value: string, other: string)
    requires other != key
    ensures ReadBack(entries[key := value], other) == ReadBack(entries, other)
    ensures ReadBack(entries - {key}, other) == ReadBack(entries, other)
  {
  }

  /** The module's exported instances and adapters. */
  class Storages {
    const mmkvStorage: MmkvInstance
    const mmkvSpaceXStorage: MmkvInstance
    const exampleStorage: StorageAdapter
    const spaceXStorage: StorageAdapter

    /** Both adapters share MMKVStorage; MMKVSpaceXStorage is a separate instance. */
    ghost predicate Valid() {
      && exampleStorage.backing == mmkvStorage
      && spaceXStorage.backing == mmkvStorage
      && mmkvStorage != mmkvSpaceXStorage
    }

    /** Opens both instances over what earlier sessions left in them. */
    constructor (exampleStored: map<string, string>, spaceXStored: map<string, string>)
      ensures Valid()
      ensures mmkvStorage.id == "example-storage" && mmkvSpaceXStorage.id == "space-x-storage"
      ensures mmkvStorage.entries == exampleStored && mmkvSpaceXStorage.entries == spaceXStored
    {
      var example := new MmkvInstance("example-storage", exampleStored);
      var spaceX := new MmkvInstance("space-x-storage", spaceXStored);
      mmkvStorage := example;
      mmkvSpaceXStorage := spaceX;
      exampleStorage := new StorageAdapter(example);
      spaceXStorage := new StorageAdapter(example);
    }
  }

  /**
   * A write through `spaceXStorage` is what `exampleStorage` then reads, and
   * MMKVSpaceXStorage is not touched.
   */
  method SharedBacking(s: Storages, key: string, value: string) returns (seen: Option<string>)
    requires s.Valid()
    modifies s.mmkvStorage
    ensures seen == if value == "" then None else Some(value)
    ensures unchanged(s.mmkvSpaceXStorage)
    ensures s.mmkvStorage.entries == old(s.mmkvStorage.entries)[key := value]
  {
    s.spaceXStorage.SetItem(key, value);
    seen := s.exampleStorage.GetItem(key);
  }

  /**
   * The evidently intended wiring: `spaceXStorage` over MMKVSpaceXStorage, so the
   * two persisted stores live in separate instances.
   */
  class SeparatedStorages {
    const mmkvStorage: MmkvInstance
    const mmkvSpaceXStorage: MmkvInstance
    const exampleStorage: StorageAdapter
    const spaceXStorage: StorageAdapter

    ghost predicate Valid() {
      && exampleStorage.backing == mmkvStorage
      && spaceXStorage.backing == mmkvSpaceXStorage
      && mmkvStorage != mmkvSpaceXStorage
    }

    /** Opens both instances over what earlier sessions left in them. */
    constructor (exampleStored: map<string, string>, spaceXStored: map<string, string>)
      ensures Valid()
      ensures mmkvStorage.id == "example-storage" && mmkvSpaceXStorage.id == "space-x-storage"
      ensures mmkvStorage.entries == exampleStored && mmkvSpaceXStorage.entries == spaceXStored
    {
      var example := new MmkvInstance("example-storage", exampleStored);
      var spaceX := new MmkvInstance("space-x-storage", spaceXStored);
      mmkvStorage := example;
      mmkvSpaceXStorage := spaceX;
      exampleStorage := new StorageAdapter(example);
      spaceXStorage := new StorageAdapter(spaceX);
    }
  }

  /**
   * With separate instances a write through `spaceXStorage` lands in
   * MMKVSpaceXStorage and `exampleStorage` reads exactly what it read before.
   */
  method IsolatedBacking(s: SeparatedStorages, key: string, value: string) returns (before: Option<string>, after: Option<string>)
    requires s.Valid()
    modifies s.mmkvSpaceXStorage
    ensures before == after
    ensures unchanged(s.mmkvStorage)
    ensures s.mmkvSpaceXStorage.entries == old(s.mmkvSpaceXStorage.entries)[key := value]
  {
    before := s.exampleStorage.GetItem(key);
    s.spaceXStorage.SetItem(key, value);
    after := s.exampleStorage.GetItem(key);
  }
}
