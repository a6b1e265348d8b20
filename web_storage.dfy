/**
 * The browser's synchronous, reload-surviving key-value store
 * (`localStorage`), shared by the recovery cache and the token store.
 * `getItem` and `removeItem` never fail; `setItem` fails with a quota error,
 * leaving the store as it was, when the environment says the quota is
 * exceeded.
 */
module WebStorage {
  import opened Wrappers

  /** What `getItem(key)` finds in `items`: the stored text, or null. */
  function Lookup(items: map<string, string>, key: string): (r: Option<string>)
    ensures r.Some? <==> key in items
    ensures r.Some? ==> r.value == items[key]
  {
    if key in items then Some(items[key]) else None
  }

  class Storage {
    var items: map<string, string>

    constructor (initial: map<string, string>)
      ensures items == initial
    {
      items := initial;
    }

    method GetItem(key: string) returns (r: Option<string>)
      ensures r == Lookup(items, key)
    {
      r := if key in items then Some(items[key]) else None;
    }

    /** `setItem`; `ok` is false when it threw (a quota error). */
    method SetItem(key: string, value: string, quotaExceeded: bool) returns (ok: bool)
      modifies this
      ensures ok == !quotaExceeded
      ensures items == if ok then old(items)[key := value] else old(items)
    {
      ok := !quotaExceeded;
      if ok {
        items := items[key := value];
      }
    }

    method RemoveItem(key: string)
      modifies this
      ensures items == old(items) - {key}
    {
      items := items - {key};
    }
  }
}
