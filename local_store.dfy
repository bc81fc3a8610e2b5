/** The module-level store behind `usePlaylistDrafts` and `useAnimeStatuses`: one entry of the
    browser's local storage holding a JSON object, a snapshot cache keyed on the last stored
    string, and a change notification after every write. The two hooks share this shape and
    differ only in the key and the value type, so the store is written once over the value type,
    with JSON serialisation and parsing as the codec functions `encode` and `decode`. */
module LocalStore {
  import opened Wrappers

  /** The map `getSnapshot` builds from a stored value: a missing or empty (falsy) value gives
      the empty map, and so does a value that fails to parse (the thrown error is caught). */
  function SnapshotOf<V>(stored: Option<string>, decode: string -> Option<map<string, V>>): map<string, V>
  {
    if stored.None? || stored.value == "" then map[]
    else
      match decode(stored.value)
      case Some(m) => m
      case None => map[]
  }

  /** A codec whose parser reads back what its serialiser wrote; JSON text is never empty. */
  ghost predicate Lawful<V(!new)>(encode: map<string, V> -> string, decode: string -> Option<map<string, V>>) {
    forall m: map<string, V> :: encode(m) != "" && decode(encode(m)) == Some(m)
  }

  /** A written map is what the next snapshot reads back. */
  lemma SnapshotOfWritten<V(!new)>(encode: map<string, V> -> string, decode: string -> Option<map<string, V>>, m: map<string, V>)
    requires Lawful(encode, decode)
    ensures SnapshotOf(Some(encode(m)), decode) == m
  {
    assert encode(m) != "" && decode(encode(m)) == Some(m);
  }

  /** Missing, empty and unparsable values all read as the empty map. */
  lemma SnapshotFallback<V>(stored: Option<string>, decode: string -> Option<map<string, V>>)
    requires stored.None? || stored.value == "" || decode(stored.value).None?
    ensures SnapshotOf(stored, decode) == map[]
  {
  }

  class SyncedStore<V(!new)> {
    /** `JSON.stringify(Object.fromEntries(m))`. */
    const encode: map<string, V> -> string
    /** `new Map(Object.entries(JSON.parse(s)))`, `None` when it throws. */
    const decode: string -> Option<map<string, V>>

    /** `localStorage.getItem(STORAGE_KEY)`. */
    var stored: Option<string>
    /** The module-level `cachedSnapshot` (`None` for `null`). */
    var cachedSnapshot: Option<map<string, V>>
    /** The module-level `lastStorageValue`. */
    var lastStorageValue: Option<string>
    /** How many `local-storage-change` events have been dispatched. */
    var notifications: nat

    /** A cached snapshot is always the map its key string denotes. */
    ghost predicate Valid()
      reads this
    {
      cachedSnapshot.Some? ==> cachedSnapshot.value == SnapshotOf(lastStorageValue, decode)
    }

    /** The store as the page finds it on load: whatever local storage holds, nothing cached. */
    constructor (encode: map<string, V> -> string, decode: string -> Option<map<string, V>>, initial: Option<string>)
      ensures Valid()
      ensures this.encode == encode && this.decode == decode
      ensures stored == initial && cachedSnapshot.None? && lastStorageValue.None? && notifications == 0
    {
      this.encode := encode;
      this.decode := decode;
      stored := initial;
      cachedSnapshot := None;
      lastStorageValue := None;
      notifications := 0;
    }

    /** `getSnapshot`. When the stored string is the one last seen and a snapshot is cached, the
        cached map itself is returned and nothing changes; otherwise the stored string is
        remembered and the map it denotes is cached. Either way the caller sees the map the
        stored string denotes: the cache is never stale. */
    method GetSnapshot() returns (snapshot: map<string, V>)
      requires Valid()
      modifies this
      ensures Valid()
      ensures snapshot == SnapshotOf(stored, decode)
      ensures old(stored == lastStorageValue && cachedSnapshot.Some?) ==>
        snapshot == old(cachedSnapshot).value && unchanged(this)
      ensures !old(stored == lastStorageValue && cachedSnapshot.Some?) ==>
        lastStorageValue == stored && cachedSnapshot == Some(snapshot)
      ensures stored == old(stored) && notifications == old(notifications)
    {
      if stored == lastStorageValue && cachedSnapshot.Some? {
        snapshot := cachedSnapshot.value;
        return;
      }
      lastStorageValue := stored;
      if stored.Some? && stored.value != "" {
        var parsed := decode(stored.value);
        if parsed.Some? {
          cachedSnapshot := parsed;
          snapshot := parsed.value;
          return;
        }
      }
      cachedSnapshot := Some(map[]);
      snapshot := map[];
    }

    /** `setPlaylistDrafts` / `setAnimeStatuses`: the whole map is serialised into the entry,
        then one change notification is dispatched. */
    method Write(m: map<string, V>)
      requires Valid()
      modifies this
      ensures Valid()
      ensures stored == Some(encode(m))
      ensures notifications == old(notifications) + 1
      ensures cachedSnapshot == old(cachedSnapshot) && lastStorageValue == old(lastStorageValue)
    {
      stored := Some(encode(m));
      notifications := notifications + 1;
    }

    /** Another tab rewrites, or removes, the entry (the `storage` event). */
    method ExternalChange(value: Option<string>)
      requires Valid()
      modifies this
      ensures Valid()
      ensures stored == value
      ensures cachedSnapshot == old(cachedSnapshot) && lastStorageValue == old(lastStorageValue)
      ensures notifications == old(notifications)
    {
      stored := value;
    }
  }

  /** Two reads with no write between them return the same map, and the second is a cache hit. */
  method ReadTwice<V(!new)>(store: SyncedStore<V>) returns (first: map<string, V>, second: map<string, V>)
    requires store.Valid()
    modifies store
    ensures store.Valid()
    ensures first == second == SnapshotOf(store.stored, store.decode)
    ensures store.cachedSnapshot == Some(second) && store.lastStorageValue == store.stored
  {
    first := store.GetSnapshot();
    second := store.GetSnapshot();
  }

  /** Under a lawful codec, what was written is what the next read returns. */
  method WriteThenRead<V(!new)>(store: SyncedStore<V>, m: map<string, V>) returns (read: map<string, V>)
    requires store.Valid() && Lawful(store.encode, store.decode)
    modifies store
    ensures store.Valid()
    ensures read == m
    ensures store.notifications == old(store.notifications) + 1
  {
    store.Write(m);
    read := store.GetSnapshot();
    SnapshotOfWritten(store.encode, store.decode, m);
  }
}
