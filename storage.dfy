/** The browser's `localStorage`, as the two hooks use it: string values
    under string keys, where any access may throw (storage disabled, quota
    exceeded). Reading and writing fail independently. */
module Storage {
  import opened Types

  /** What `getItem` gives: the stored value (null when the key is absent),
      or an exception. */
  datatype ReadResult = Stored(value: Option<string>) | ReadThrew

  /** The entry of `items` under `key`, as `getItem` reports it. */
  function Lookup(items: map<string, string>, key: string): (v: Option<string>)
    ensures v.Some? <==> key in items
    ensures v.Some? ==> v.value == items[key]
  {
    if key in items then Some(items[key]) else None
  }

  class LocalStorage {
    var items: map<string, string>
    /** false when `getItem` throws */
    var readable: bool
    /** false when `setItem` and `removeItem` throw */
    var writable: bool

    constructor (items: map<string, string>, readable: bool, writable: bool)
      ensures this.items == items && this.readable == readable && this.writable == writable
    {
      this.items := items;
      this.readable := readable;
      this.writable := writable;
    }

    /** `getItem(key)`, with its exception as a value. */
    function GetItem(key: string): (r: ReadResult)
      reads this
      ensures r.ReadThrew? <==> !readable
      ensures r.Stored? ==> r.value == Lookup(items, key)
    {
      if readable then Stored(Lookup(items, key)) else ReadThrew
    }

    /** `setItem(key, value)`; `ok` is false when it threw, and then nothing changed. */
    method SetItem(key: string, value: string) returns (ok: bool)
      modifies this
      ensures ok == writable && readable == old(readable) && writable == old(writable)
      ensures items == if ok then old(items)[key := value] else old(items)
    {
      ok := writable;
      if ok {
        items := items[key := value];
      }
    }

    /** `removeItem(key)`; `ok` is false when it threw, and then nothing changed. */
    method RemoveItem(key: string) returns (ok: bool)
      modifies this
      ensures ok == writable && readable == old(readable) && writable == old(writable)
      ensures items == if ok then old(items) - {key} else old(items)
    {
      ok := writable;
      if ok {
        items := items - {key};
      }
    }
  }
}
