/** The client-local block list (`useBlockList`): a set of blocked handles,
    kept in memory and persisted as a JSON array under a fixed key.

    A JavaScript `Set` iterates in insertion order, and `[...set]` writes it
    out in that order, so the set is modelled as a sequence without
    duplicates: `Add` appends a handle that is not already there. */
module BlockList {
  import opened Types
  import opened Storage
  import JsonArray

  const STORAGE_KEY := "nearnest-blocked-handles"

  predicate NoDuplicates(xs: seq<string>) {
    forall i, j :: 0 <= i < j < |xs| ==> xs[i] != xs[j]
  }

  /** `set.add(h)`: `h` becomes a member, nothing else changes, and the
      members already there keep their order. Adding a member is a no-op. */
  function Add(members: seq<string>, h: string): (r: seq<string>)
    ensures h in r
    ensures forall x :: x in r <==> x in members || x == h
    ensures NoDuplicates(members) ==> NoDuplicates(r)
    ensures |members| <= |r| && r[..|members|] == members
    ensures h in members ==> r == members
  {
    if h in members then members else members + [h]
  }

  /** Blocking twice is blocking once. */
  lemma AddIdempotent(members: seq<string>, h: string)
    ensures Add(Add(members, h), h) == Add(members, h)
  {
  }

  /** Adds the elements of `xs` one after another, as `new Set(xs)` does
      starting from the empty set. */
  function AddAll(members: seq<string>, xs: seq<string>): (r: seq<string>)
    ensures forall x :: x in r <==> x in members || x in xs
    ensures NoDuplicates(members) ==> NoDuplicates(r)
    decreases |xs|
  {
    if xs == [] then members else AddAll(Add(members, xs[0]), xs[1..])
  }

  /** Adding elements that are all new appends them unchanged. */
  lemma {:induction false} AddAllFresh(members: seq<string>, xs: seq<string>)
    requires NoDuplicates(members + xs)
    ensures AddAll(members, xs) == members + xs
    decreases |xs|
  {
    if xs != [] {
      assert (members + xs)[|members|] == xs[0];
      forall i | 0 <= i < |members|
        ensures members[i] != xs[0]
      {
        assert (members + xs)[i] == members[i];
      }
      assert members + [xs[0]] + xs[1..] == members + xs;
      assert Add(members, xs[0]) == members + [xs[0]];
      AddAllFresh(members + [xs[0]], xs[1..]);
    }
  }

  /** `loadBlocked`: the stored array's handles, with duplicates collapsed;
      the empty set when reading throws, when nothing (or the empty string)
      is stored, or when the text is not a JSON array of strings. */
  function LoadBlocked(read: ReadResult): (blocked: seq<string>)
    ensures NoDuplicates(blocked)
    ensures read.ReadThrew? || read.value.None? || read.value.value == "" ==> blocked == []
    ensures read.Stored? && read.value.Some? && read.value.value != "" ==>
              match JsonArray.Decode(read.value.value)
              case Unreadable => blocked == []
              case StringArray(xs) => forall h :: h in blocked <==> h in xs
  {
    match read
    case ReadThrew => []
    case Stored(None) => []
    case Stored(Some(raw)) =>
      if raw == "" then []
      else
        match JsonArray.Decode(raw)
        case StringArray(xs) => AddAll([], xs)
        case Unreadable => []
  }

  /** The storage contents after `saveBlocked(set)` succeeds. */
  function Saved(items: map<string, string>, blocked: seq<string>): (r: map<string, string>)
    ensures r.Keys == items.Keys + {STORAGE_KEY}
    ensures forall k :: k in items && k != STORAGE_KEY ==> r[k] == items[k]
  {
    items[STORAGE_KEY := JsonArray.Encode(blocked)]
  }

  /** Saving and then loading gives back the same set, in the same order. */
  lemma SaveLoadRoundTrip(items: map<string, string>, blocked: seq<string>)
    requires NoDuplicates(blocked)
    ensures LoadBlocked(Stored(Lookup(Saved(items, blocked), STORAGE_KEY))) == blocked
  {
    JsonArray.DecodeEncode(blocked);
    assert [] + blocked == blocked;
    AddAllFresh([], blocked);
  }

  class BlockList {
    /** `blockedIds`, in insertion order */
    var blocked: seq<string>
    const storage: LocalStorage

    ghost predicate Valid()
      reads this
    {
      NoDuplicates(blocked)
    }

    /** Mounting the hook: the initial state is read from storage, and the
        save effect then writes it back (best effort). */
    constructor (storage: LocalStorage)
      modifies storage
      ensures Valid() && this.storage == storage
      ensures blocked == LoadBlocked(old(storage.GetItem(STORAGE_KEY)))
      ensures storage.readable == old(storage.readable) && storage.writable == old(storage.writable)
      ensures storage.items == if storage.writable then Saved(old(storage.items), blocked) else old(storage.items)
    {
      this.storage := storage;
      blocked := LoadBlocked(storage.GetItem(STORAGE_KEY));
      new;
      Save();
    }

    /** `saveBlocked(blockedIds)`; a write that throws is ignored. */
    method Save()
      modifies storage
      ensures storage.readable == old(storage.readable) && storage.writable == old(storage.writable)
      ensures storage.items == if storage.writable then Saved(old(storage.items), blocked) else old(storage.items)
    {
      var _ := storage.SetItem(STORAGE_KEY, JsonArray.Encode(blocked));
    }

    /** `blockUser(h)`, followed by the save effect its new state triggers.
        The in-memory set changes the same way whether or not the write
        succeeds. */
    method BlockUser(h: string)
      requires Valid()
      modifies this, storage
      ensures Valid()
      ensures blocked == Add(old(blocked), h)
      ensures storage.readable == old(storage.readable) && storage.writable == old(storage.writable)
      ensures storage.items == if storage.writable then Saved(old(storage.items), blocked) else old(storage.items)
      ensures storage.readable && storage.writable ==> LoadBlocked(storage.GetItem(STORAGE_KEY)) == blocked
      ensures IsBlocked(h) && forall x :: x != h ==> (IsBlocked(x) <==> old(IsBlocked(x)))
    {
      blocked := Add(blocked, h);
      Save();
      SaveLoadRoundTrip(old(storage.items), blocked);
    }

    /** `isBlocked(h)`. */
    predicate IsBlocked(h: string)
      reads this
    {
      h in blocked
    }
  }
}
