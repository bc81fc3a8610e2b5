/** `useAnimeStatuses`: the viewing status of each anime, persisted in the synced local store.
    `setStatus` copies the current map, sets or deletes one id, and writes the copy back whole. */
module AnimeStatuses {
  import opened Wrappers
  import opened AnimeTypes
  import opened LocalStore

  type StatusMap = map<string, AnimeStatus>

  /** `statuses.get(id)`, `None` for `undefined`. */
  function StatusOf(statuses: StatusMap, id: string): Option<AnimeStatus> {
    MapGet(statuses, id)
  }

  /** The copy `setStatus(id, status)` writes: `null` (here `None`) deletes the id, a status
      sets it, and every other id keeps its status. */
  function WithStatus(statuses: StatusMap, id: string, status: Option<AnimeStatus>): (r: StatusMap)
    ensures StatusOf(r, id) == status
    ensures forall other :: other != id ==> StatusOf(r, other) == StatusOf(statuses, other)
  {
    match status
    case None => statuses - {id}
    case Some(s) => statuses[id := s]
  }

  /** Maps that agree on every id are equal. */
  lemma StatusMapsEqual(a: StatusMap, b: StatusMap)
    requires forall id :: StatusOf(a, id) == StatusOf(b, id)
    ensures a == b
  {
    assert a.Keys == b.Keys by {
      forall id ensures id in a <==> id in b {
        assert StatusOf(a, id) == StatusOf(b, id);
      }
    }
    forall id | id in a ensures a[id] == b[id] {
      assert StatusOf(a, id) == StatusOf(b, id);
    }
  }

  /** Setting a status and then setting back the previous one (`None` when there was none)
      restores the original map. */
  lemma UndoRestores(statuses: StatusMap, id: string, status: Option<AnimeStatus>)
    ensures WithStatus(WithStatus(statuses, id, status), id, StatusOf(statuses, id)) == statuses
  {
    var restored := WithStatus(WithStatus(statuses, id, status), id, StatusOf(statuses, id));
    forall other ensures StatusOf(restored, other) == StatusOf(statuses, other) {
    }
    StatusMapsEqual(restored, statuses);
  }

  /** Setting the same id twice keeps only the second status. */
  lemma LastWriteWins(statuses: StatusMap, id: string, first: Option<AnimeStatus>, second: Option<AnimeStatus>)
    ensures WithStatus(WithStatus(statuses, id, first), id, second) == WithStatus(statuses, id, second)
  {
    var a := WithStatus(WithStatus(statuses, id, first), id, second);
    var b := WithStatus(statuses, id, second);
    forall other ensures StatusOf(a, other) == StatusOf(b, other) {
    }
    StatusMapsEqual(a, b);
  }

  /** `setStatus` on the store `statuses` was read from. */
  method SetStatus(store: SyncedStore<AnimeStatus>, statuses: StatusMap, id: string, status: Option<AnimeStatus>)
    requires store.Valid()
    modifies store
    ensures store.Valid()
    ensures store.stored == Some(store.encode(WithStatus(statuses, id, status)))
    ensures store.notifications == old(store.notifications) + 1
  {
    store.Write(WithStatus(statuses, id, status));
  }
}
