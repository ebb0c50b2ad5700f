/** The browser's `localStorage`: a map from keys to string values. */
module BrowserStorage {
  import opened Wrappers

  /** `getItem`: the stored string, or `None` (the source's `null`) when the key is absent. */
  function Lookup(items: map<string, string>, key: string): Option<string> {
    if key in items then Some(items[key]) else None
  }

  class Storage {
    var items: map<string, string>

    constructor (items: map<string, string>)
      ensures this.items == items
    {
      this.items := items;
    }

    method GetItem(key: string) returns (item: Option<string>)
      ensures item == Lookup(items, key)
    {
      item := if key in items then Some(items[key]) else None;
    }

    method SetItem(key: string, value: string)
      modifies this`items
      ensures items == old(items)[key := value]
      ensures Lookup(items, key) == Some(value)
    {
      items := items[key := value];
    }

    method RemoveItem(key: string)
      modifies this`items
      ensures items == old(items) - {key}
      ensures Lookup(items, key) == None
    {
      items := items - {key};
    }
  }
}
