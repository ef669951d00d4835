/** The signed-out flag (`useSignedOut`): a boolean kept in memory and
    mirrored in client-local storage as the string "true" or no entry. */
module SignedOut {
  import opened Types
  import opened Storage

  const STORAGE_KEY := "nearnest-signed-out"

  /** `getSignedOut`: set exactly when the stored value is the string
      "true"; a read that throws counts as not signed out. */
  function GetSignedOut(read: ReadResult): (signedOut: bool)
    ensures read.ReadThrew? ==> !signedOut
    ensures read.Stored? ==> (signedOut <==> read.value == Some("true"))
  {
    match read
    case ReadThrew => false
    case Stored(v) => v == Some("true")
  }

  /** The storage contents once `setSignedOut(value)` has written: the key
      holds "true", or is removed; no other key changes. */
  function Written(items: map<string, string>, value: bool): (r: map<string, string>)
    ensures value ==> STORAGE_KEY in r && r[STORAGE_KEY] == "true"
    ensures !value ==> STORAGE_KEY !in r
    ensures forall k :: k != STORAGE_KEY ==> (k in r <==> k in items)
    ensures forall k :: k != STORAGE_KEY && k in r ==> r[k] == items[k]
  {
    if value then items[STORAGE_KEY := "true"] else items - {STORAGE_KEY}
  }

  /** Writing the flag and reading it back gives the value written. */
  lemma WriteThenRead(items: map<string, string>, value: bool)
    ensures GetSignedOut(Stored(Lookup(Written(items, value), STORAGE_KEY))) == value
  {
  }

  class SignedOutFlag {
    /** `signedOut`, the hook's state */
    var signedOut: bool
    const storage: LocalStorage

    /** The initial state is read from storage. */
    constructor (storage: LocalStorage)
      ensures this.storage == storage
      ensures signedOut == GetSignedOut(storage.GetItem(STORAGE_KEY))
    {
      this.storage := storage;
      signedOut := GetSignedOut(storage.GetItem(STORAGE_KEY));
    }

    /** `setSignedOut(value)`: writes "true" or removes the key (a write
        that throws is ignored), then sets the state to `value` in every case. */
    method SetSignedOut(value: bool)
      modifies this, storage
      ensures signedOut == value
      ensures storage.readable == old(storage.readable) && storage.writable == old(storage.writable)
      ensures storage.items == if storage.writable then Written(old(storage.items), value) else old(storage.items)
      ensures storage.readable && storage.writable ==> GetSignedOut(storage.GetItem(STORAGE_KEY)) == value
    {
      if value {
        var _ := storage.SetItem(STORAGE_KEY, "true");
      } else {
        var _ := storage.RemoveItem(STORAGE_KEY);
      }
      signedOut := value;
      WriteThenRead(old(storage.items), value);
    }
  }
}
