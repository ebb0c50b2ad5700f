/**
 * useLocalStorage: a state value persisted under one `localStorage` key,
 * read when the hook mounts, written on every update, and re-read when
 * another tab changes the key.
 */
module LocalStorage {
  import opened Wrappers
  import opened BrowserStorage

  /** What `setStoredValue` receives: a new value, or a function of the current one. */
  datatype Update<!T> = Replace(value: T) | Apply(updater: T -> T)

  function Resolve<T>(u: Update<T>, current: T): T {
    match u
    case Replace(v) => v
    case Apply(f) => f(current)
  }

  /**
   * The value read from a stored item: the default when the item is absent
   * or empty, or when the deserializer throws (`None`); otherwise what the
   * deserializer returns.
   */
  function ReadStored<T>(item: Option<string>, defaultValue: T, deserialize: string -> Option<T>): (v: T)
    ensures v == defaultValue || (item.Some? && item.value != "" && deserialize(item.value) == Some(v))
    ensures item.None? || item == Some("") ==> v == defaultValue
    ensures item.Some? && item.value != "" && deserialize(item.value).Some? ==> v == deserialize(item.value).value
    ensures item.Some? && item.value != "" && deserialize(item.value).None? ==> v == defaultValue
  {
    if item.None? || item.value == "" then defaultValue
    else deserialize(item.value).GetOr(defaultValue)
  }

  /**
   * What is stored reads back: with a serializer and a deserializer that
   * round-trip `v` to a non-empty string, a hook mounted after `v` was
   * written under `key` starts with `v`, whatever else is stored.
   */
  lemma WrittenValueReadsBack<T>(items: map<string, string>, key: string, v: T, defaultValue: T,
                                 serialize: T -> Option<string>, deserialize: string -> Option<T>)
    requires serialize(v).Some? && serialize(v).value != ""
    requires deserialize(serialize(v).value) == Some(v)
    ensures ReadStored(Lookup(items[key := serialize(v).value], key), defaultValue, deserialize) == v
  {
  }

  /** After removal a newly mounted hook starts from its default. */
  lemma RemovedValueReadsDefault<T>(items: map<string, string>, key: string, defaultValue: T, deserialize: string -> Option<T>)
    ensures ReadStored(Lookup(items - {key}, key), defaultValue, deserialize) == defaultValue
  {
  }

  class LocalStorageHook<T> {
    const storage: Storage
    const key: string
    const defaultValue: T
    const syncAcrossTabs: bool
    /** The serializer; `None` where it throws. */
    const serialize: T -> Option<string>
    /** The deserializer; `None` where it throws. */
    const deserialize: string -> Option<T>
    var value: T

    constructor (storage: Storage, key: string, defaultValue: T, serialize: T -> Option<string>,
                 deserialize: string -> Option<T>, syncAcrossTabs: bool := true)
      ensures this.storage == storage && this.key == key && this.defaultValue == defaultValue
      ensures this.serialize == serialize && this.deserialize == deserialize && this.syncAcrossTabs == syncAcrossTabs
      ensures value == ReadStored(Lookup(storage.items, key), defaultValue, deserialize)
    {
      this.storage := storage;
      this.key := key;
      this.defaultValue := defaultValue;
      this.serialize := serialize;
      this.deserialize := deserialize;
      this.syncAcrossTabs := syncAcrossTabs;
      var item := storage.GetItem(key);
      value := ReadStored(item, defaultValue, deserialize);
    }

    /**
     * `setStoredValue`: the state takes the new value first; the storage
     * then holds its serialization, unless serializing throws, which leaves
     * the storage as it was.
     */
    method SetStoredValue(u: Update<T>)
      modifies this`value, storage`items
      ensures value == Resolve(u, old(value))
      ensures serialize(value).Some? ==> storage.items == old(storage.items)[key := serialize(value).value]
      ensures serialize(value).None? ==> storage.items == old(storage.items)
    {
      var valueToStore := Resolve(u, value);
      value := valueToStore;
      var s := serialize(valueToStore);
      if s.Some? {
        storage.SetItem(key, s.value);
      }
    }

    /** `removeValue`: the key leaves the storage and the state returns to the default. */
    method RemoveValue()
      modifies this`value, storage`items
      ensures storage.items == old(storage.items) - {key}
      ensures value == defaultValue
    {
      storage.RemoveItem(key);
      value := defaultValue;
    }

    /**
     * A `storage` event from another tab. Only an event for this key with a
     * new value (not a removal) is taken, and only when syncing is on; a
     * value the deserializer rejects is ignored.
     */
    method HandleStorageChange(eventKey: Option<string>, newValue: Option<string>)
      modifies this`value
      ensures if syncAcrossTabs && eventKey == Some(key) && newValue.Some? && deserialize(newValue.value).Some?
              then value == deserialize(newValue.value).value
              else value == old(value)
    {
      if !syncAcrossTabs {
        return;
      }
      if eventKey == Some(key) && newValue.Some? {
        var parsed := deserialize(newValue.value);
        if parsed.Some? {
          value := parsed.value;
        }
      }
    }
  }

  /**
   * Two tabs stay in step: when one tab writes `v` and the other receives
   * the write as a `storage` event, both hold `v`.
   */
  method SyncedWrite<T>(writer: LocalStorageHook<T>, reader: LocalStorageHook<T>, v: T)
    requires writer != reader && writer.key == reader.key && reader.syncAcrossTabs
    requires writer.serialize(v).Some? && reader.deserialize(writer.serialize(v).value) == Some(v)
    modifies writer`value, writer.storage`items, reader`value
    ensures writer.value == v && reader.value == v
  {
    writer.SetStoredValue(Replace(v));
    reader.HandleStorageChange(Some(writer.key), writer.serialize(v));
  }
}
