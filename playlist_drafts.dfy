/** `usePlaylistDrafts`: the per-quarter playlist drafts, persisted in the synced local store.
    Every change copies the current map, applies one `set` or `delete`, and writes the copy back
    whole. */
module PlaylistDrafts {
  import opened Wrappers
  import opened PlaylistTypes
  import opened LocalStore
  import Seqs

  type DraftMap = map<string, PlaylistDraft>

  /** The copy `saveDraft` writes: the draft stamped with the current time under its quarter,
      every other quarter's entry as it was. */
  function SavedDrafts(drafts: DraftMap, quarter: string, draft: PlaylistDraft, now: string): (r: DraftMap)
    ensures quarter in r && r[quarter] == draft.(updatedAt := now)
    ensures r[quarter].quarter == draft.quarter && r[quarter].createdAt == draft.createdAt
    ensures r[quarter].tracks == draft.tracks && r[quarter].updatedAt == now
    ensures r.Keys == drafts.Keys + {quarter}
    ensures forall q :: q in drafts && q != quarter ==> r[q] == drafts[q]
  {
    drafts[quarter := draft.(updatedAt := now)]
  }

  /** The copy `deleteDraft` writes: the quarter's entry gone, every other entry as it was. */
  function DeletedDrafts(drafts: DraftMap, quarter: string): (r: DraftMap)
    ensures quarter !in r
    ensures r.Keys == drafts.Keys - {quarter}
    ensures forall q :: q in r ==> r[q] == drafts[q]
  {
    drafts - {quarter}
  }

  /** `getDraft`: `drafts.get(quarter)`. */
  function GetDraft(drafts: DraftMap, quarter: string): Option<PlaylistDraft> {
    MapGet(drafts, quarter)
  }

  /** Saving then reading the same quarter gives the saved draft with only `updatedAt`
      replaced; deleting then reading gives nothing; other quarters are untouched by both. */
  lemma SaveDeleteGet(drafts: DraftMap, quarter: string, other: string, draft: PlaylistDraft, now: string)
    requires other != quarter
    ensures GetDraft(SavedDrafts(drafts, quarter, draft, now), quarter) == Some(draft.(updatedAt := now))
    ensures GetDraft(DeletedDrafts(drafts, quarter), quarter).None?
    ensures GetDraft(SavedDrafts(drafts, quarter, draft, now), other) == GetDraft(drafts, other)
    ensures GetDraft(DeletedDrafts(drafts, quarter), other) == GetDraft(drafts, other)
  {
  }

  /** Deleting a quarter that was just saved leaves the map as if it had never been saved. */
  lemma DeleteUndoesSave(drafts: DraftMap, quarter: string, draft: PlaylistDraft, now: string)
    requires quarter !in drafts
    ensures DeletedDrafts(SavedDrafts(drafts, quarter, draft, now), quarter) == drafts
  {
  }

  /** `getAllDrafts`: `Array.from(drafts.values())`, one value per key. `keys` is the order in
      which the values were listed; Dafny maps carry no insertion order, so the order is left
      open. */
  method GetAllDrafts(drafts: DraftMap) returns (all: seq<PlaylistDraft>, ghost keys: seq<string>)
    ensures |all| == |keys| == |drafts.Keys|
    ensures Seqs.Distinct(keys)
    ensures forall q :: q in drafts <==> q in keys
    ensures forall i :: 0 <= i < |keys| ==> keys[i] in drafts && all[i] == drafts[keys[i]]
    ensures |all| == |drafts| && forall d :: d in all <==> d in drafts.Values
  {
    all, keys := [], [];
    var remaining := drafts.Keys;
    while remaining != {}
      invariant remaining <= drafts.Keys
      invariant |all| == |keys|
      invariant Seqs.Distinct(keys)
      invariant forall q :: q in drafts ==> (q in keys <==> q !in remaining)
      invariant forall q :: q in keys ==> q in drafts
      invariant forall i :: 0 <= i < |keys| ==> keys[i] in drafts && all[i] == drafts[keys[i]]
      invariant |keys| + |remaining| == |drafts.Keys|
      decreases |remaining|
    {
      var q :| q in remaining;
      all, keys := all + [drafts[q]], keys + [q];
      remaining := remaining - {q};
    }
    assert forall q :: q in drafts <==> q in keys;
  }

  /** `saveDraft` on the store: the copy of `drafts`, the map the hook's render read from the
      store, with the draft saved is written wholesale, with one notification. */
  method SaveDraft(store: SyncedStore<PlaylistDraft>, drafts: DraftMap, quarter: string, draft: PlaylistDraft, now: string)
    requires store.Valid()
    modifies store
    ensures store.Valid()
    ensures store.stored == Some(store.encode(SavedDrafts(drafts, quarter, draft, now)))
    ensures store.notifications == old(store.notifications) + 1
  {
    store.Write(SavedDrafts(drafts, quarter, draft, now));
  }

  /** `deleteDraft` on the store, from the render's map `drafts`. */
  method DeleteDraft(store: SyncedStore<PlaylistDraft>, drafts: DraftMap, quarter: string)
    requires store.Valid()
    modifies store
    ensures store.Valid()
    ensures store.stored == Some(store.encode(DeletedDrafts(drafts, quarter)))
    ensures store.notifications == old(store.notifications) + 1
  {
    store.Write(DeletedDrafts(drafts, quarter));
  }

  /** `getDraft` on the store's current snapshot. */
  method LoadDraft(store: SyncedStore<PlaylistDraft>, quarter: string) returns (r: Option<PlaylistDraft>)
    requires store.Valid()
    modifies store
    ensures store.Valid() && store.stored == old(store.stored)
    ensures store.notifications == old(store.notifications)
    ensures r == GetDraft(SnapshotOf(store.stored, store.decode), quarter)
  {
    var drafts := store.GetSnapshot();
    r := GetDraft(drafts, quarter);
  }

  /** Under a lawful codec, a saved draft reads back stamped with the save time, and a
      deleted one reads back as missing, each write starting from a fresh render's map. */
  method SaveThenLoad(store: SyncedStore<PlaylistDraft>, quarter: string, draft: PlaylistDraft, now: string)
    returns (saved: Option<PlaylistDraft>, deleted: Option<PlaylistDraft>)
    requires store.Valid() && Lawful(store.encode, store.decode)
    modifies store
    ensures store.Valid()
    ensures saved == Some(draft.(updatedAt := now))
    ensures deleted.None?
    ensures store.notifications == old(store.notifications) + 2
  {
    var drafts := store.GetSnapshot();
    SaveDraft(store, drafts, quarter, draft, now);
    SnapshotOfWritten(store.encode, store.decode, SavedDrafts(drafts, quarter, draft, now));
    saved := LoadDraft(store, quarter);
    drafts := store.GetSnapshot();
    DeleteDraft(store, drafts, quarter);
    SnapshotOfWritten(store.encode, store.decode, DeletedDrafts(drafts, quarter));
    deleted := LoadDraft(store, quarter);
  }
}
