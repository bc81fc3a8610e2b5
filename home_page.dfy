/** The season view: the list of seasons and the one shown, moving between seasons, the three
    status tabs with their counts, the song list of the watched anime, and setting a status with
    an undo. */
module HomePage {
  import opened Wrappers
  import opened Strings
  import opened AnimeTypes
  import opened AnimeStatuses
  import opened LocalStore
  import QuarterSelector
  import Seqs

  // ---------------------------------------------------------------------------------------------
  // Seasons

  /** `quarters`: every season of the catalogue once, in ascending order. */
  function Quarters(animeData: seq<Anime>): (r: seq<string>)
    ensures Sorted(r) && Seqs.Distinct(r)
    ensures forall q :: q in r <==> exists a :: a in animeData && a.quarter == q
  {
    var names := QuarterSelector.QuarterNames(animeData);
    var r := SortedDistinct(names);
    assert forall q :: q in r <==> q in names;
    forall q ensures q in names <==> exists a :: a in animeData && a.quarter == q {
      if q in names {
        var i :| 0 <= i < |names| && names[i] == q;
        assert animeData[i] in animeData;
      }
      if a :| a in animeData && a.quarter == q {
        var i :| 0 <= i < |animeData| && animeData[i] == a;
        assert names[i] == q;
      }
    }
    r
  }

  /** `defaultQuarter`: 2010q1 when the catalogue has it, else the last season, else "". */
  function DefaultQuarter(quarters: seq<string>): (r: string)
    ensures "2010q1" in quarters ==> r == "2010q1"
    ensures "2010q1" !in quarters && quarters != [] ==> r == quarters[|quarters| - 1]
    ensures quarters == [] ==> r == ""
    ensures quarters != [] ==> r in quarters
  {
    if "2010q1" in quarters then "2010q1"
    else if quarters != [] then quarters[|quarters| - 1]
    else ""
  }

  /** Without 2010q1, the default of a sorted season list is its latest season. */
  lemma DefaultIsLatest(quarters: seq<string>)
    requires Sorted(quarters) && quarters != [] && "2010q1" !in quarters
    ensures forall q :: q in quarters ==> LexLe(q, DefaultQuarter(quarters))
  {
    forall q | q in quarters ensures LexLe(q, DefaultQuarter(quarters)) {
      SortedBound(quarters, q);
    }
  }

  /** `selectedQuarter`: the `quarter` URL parameter whenever there is one (even an empty or
      unknown one, since `??` only replaces a missing value), else the default. */
  function SelectedQuarter(param: Option<string>, quarters: seq<string>): (r: string)
    ensures param.Some? ==> r == param.value
    ensures param.None? ==> r == DefaultQuarter(quarters)
  {
    param.GetOr(DefaultQuarter(quarters))
  }

  /** Without a parameter, a non-empty catalogue always shows one of its seasons. */
  lemma SelectedWithoutParam(quarters: seq<string>)
    ensures quarters != [] ==> SelectedQuarter(None, quarters) in quarters
    ensures quarters == [] ==> SelectedQuarter(None, quarters) == ""
  {
  }

  /** `goToPreviousQuarter`: the season before the selected one, when it is a known season other
      than the first; nothing otherwise. */
  function PreviousQuarter(quarters: seq<string>, selected: string): (r: Option<string>)
    ensures r.Some? <==> selected in quarters && quarters[0] != selected
    ensures r.Some? ==> r.value in quarters
  {
    var k := Seqs.IndexOf(quarters, selected);
    if k > 0 then Some(quarters[k - 1]) else None
  }

  /** `goToNextQuarter`: the season after the selected one; from a season the list does not
      know (index −1) the first season. */
  function NextQuarter(quarters: seq<string>, selected: string): (r: Option<string>)
    ensures r.Some? ==> r.value in quarters
    ensures selected !in quarters ==> r == (if quarters == [] then None else Some(quarters[0]))
    ensures Seqs.Distinct(quarters) && selected in quarters ==> (r.None? <==> quarters[|quarters| - 1] == selected)
  {
    var k := Seqs.IndexOf(quarters, selected);
    if k < |quarters| - 1 then Some(quarters[k + 1]) else None
  }

  /** Next and previous undo each other on a list without repeats. */
  lemma NavigationInverse(quarters: seq<string>, selected: string)
    requires Seqs.Distinct(quarters)
    ensures selected in quarters && NextQuarter(quarters, selected).Some? ==>
      PreviousQuarter(quarters, NextQuarter(quarters, selected).value) == Some(selected)
    ensures PreviousQuarter(quarters, selected).Some? ==>
      NextQuarter(quarters, PreviousQuarter(quarters, selected).value) == Some(selected)
  {
    var k := Seqs.IndexOf(quarters, selected);
    if selected in quarters && NextQuarter(quarters, selected).Some? {
      DistinctIndexOf(quarters, k + 1);
    }
    if PreviousQuarter(quarters, selected).Some? {
      DistinctIndexOf(quarters, k - 1);
    }
  }

  lemma DistinctIndexOf(s: seq<string>, i: nat)
    requires Seqs.Distinct(s) && i < |s|
    ensures Seqs.IndexOf(s, s[i]) == i
  {
  }

  /** On the sorted season list, previous moves to an earlier season and next to a later one. */
  lemma NavigationOrder(quarters: seq<string>, selected: string)
    requires Sorted(quarters) && Seqs.Distinct(quarters) && selected in quarters
    ensures PreviousQuarter(quarters, selected).Some? ==>
      (LexLe(PreviousQuarter(quarters, selected).value, selected) && PreviousQuarter(quarters, selected).value != selected)
    ensures NextQuarter(quarters, selected).Some? ==>
      (LexLe(selected, NextQuarter(quarters, selected).value) && NextQuarter(quarters, selected).value != selected)
  {
  }

  // ---------------------------------------------------------------------------------------------
  // The anime and songs shown

  /** `quarterAnime`: the anime of the selected season that have songs, in catalogue order. */
  function QuarterAnime(animeData: seq<Anime>, selected: string): (r: seq<Anime>)
    ensures forall i :: 0 <= i < |r| ==> r[i] in animeData && r[i].quarter == selected && |r[i].songs| > 0
    ensures forall a :: a in animeData && a.quarter == selected && |a.songs| > 0 ==> a in r
  {
    Seqs.Filter(animeData, (a: Anime) => a.quarter == selected && |a.songs| > 0)
  }

  /** The tab an anime is listed on: no status, watched, unwatched. */
  predicate OnTab(statuses: StatusMap, tab: ViewTab, anime: Anime) {
    match tab
    case UnselectedTab => StatusOf(statuses, anime.id).None?
    case WatchedTab => StatusOf(statuses, anime.id) == Some(Watched)
    case UnwatchedTab => StatusOf(statuses, anime.id) == Some(Unwatched)
  }

  /** `filteredAnime`: the season's anime on the current tab. */
  function TabAnime(quarterAnime: seq<Anime>, statuses: StatusMap, tab: ViewTab): (r: seq<Anime>)
    ensures forall i :: 0 <= i < |r| ==> r[i] in quarterAnime && OnTab(statuses, tab, r[i])
    ensures forall a :: a in quarterAnime && OnTab(statuses, tab, a) ==> a in r
  {
    Seqs.Filter(quarterAnime, (a: Anime) => OnTab(statuses, tab, a))
  }

  /** Every anime is on exactly one tab. */
  lemma ExactlyOneTab(statuses: StatusMap, anime: Anime)
    ensures OnTab(statuses, UnselectedTab, anime) || OnTab(statuses, WatchedTab, anime) || OnTab(statuses, UnwatchedTab, anime)
    ensures !(OnTab(statuses, UnselectedTab, anime) && OnTab(statuses, WatchedTab, anime))
    ensures !(OnTab(statuses, UnselectedTab, anime) && OnTab(statuses, UnwatchedTab, anime))
    ensures !(OnTab(statuses, WatchedTab, anime) && OnTab(statuses, UnwatchedTab, anime))
  {
    var s := StatusOf(statuses, anime.id);
    assert s.Some? ==> s.value == Watched || s.value == Unwatched;
  }

  /** `unselectedCount`: anime whose id has no entry (`!statuses.has(id)`). */
  function UnselectedCount(quarterAnime: seq<Anime>, statuses: StatusMap): nat {
    |Seqs.Filter(quarterAnime, (a: Anime) => a.id !in statuses)|
  }

  /** `watchedCount`. */
  function WatchedCount(quarterAnime: seq<Anime>, statuses: StatusMap): nat {
    |Seqs.Filter(quarterAnime, (a: Anime) => StatusOf(statuses, a.id) == Some(Watched))|
  }

  /** `unwatchedCount`. */
  function UnwatchedCount(quarterAnime: seq<Anime>, statuses: StatusMap): nat {
    |Seqs.Filter(quarterAnime, (a: Anime) => StatusOf(statuses, a.id) == Some(Unwatched))|
  }

  /** Each tab's badge counts the anime the tab lists, and the three badges add up to the
      season's anime. */
  lemma {:induction false} TabCounts(quarterAnime: seq<Anime>, statuses: StatusMap)
    ensures UnselectedCount(quarterAnime, statuses) == |TabAnime(quarterAnime, statuses, UnselectedTab)|
    ensures WatchedCount(quarterAnime, statuses) == |TabAnime(quarterAnime, statuses, WatchedTab)|
    ensures UnwatchedCount(quarterAnime, statuses) == |TabAnime(quarterAnime, statuses, UnwatchedTab)|
    ensures UnselectedCount(quarterAnime, statuses) + WatchedCount(quarterAnime, statuses)
      + UnwatchedCount(quarterAnime, statuses) == |quarterAnime|
  {
    if quarterAnime != [] {
      TabCounts(quarterAnime[1..], statuses);
      ExactlyOneTab(statuses, quarterAnime[0]);
    }
  }

  /** A song of the list with the name of its anime (`{ ...song, animeName }`). */
  datatype NamedSong = NamedSong(song: Song, animeName: string)

  function NamedSongsOf(anime: Anime): (r: seq<NamedSong>)
    ensures |r| == |anime.songs|
    ensures forall i :: 0 <= i < |r| ==> r[i] == NamedSong(anime.songs[i], anime.name)
  {
    seq(|anime.songs|, i requires 0 <= i < |anime.songs| => NamedSong(anime.songs[i], anime.name))
  }

  /** `watchedAnime`. */
  function WatchedAnime(quarterAnime: seq<Anime>, statuses: StatusMap): seq<Anime> {
    TabAnime(quarterAnime, statuses, WatchedTab)
  }

  /** `allSongs`: the watched anime's songs, anime after anime, each with its anime's name. */
  function AllSongs(watchedAnime: seq<Anime>): seq<NamedSong> {
    Seqs.FlatMap(watchedAnime, NamedSongsOf)
  }

  /** The song list keeps the anime's order: a list of anime split in two gives the two song
      lists one after the other. */
  lemma AllSongsAppend(a: seq<Anime>, b: seq<Anime>)
    ensures AllSongs(a + b) == AllSongs(a) + AllSongs(b)
  {
    Seqs.FlatMapAppend(a, b, NamedSongsOf);
  }

  /** The song list holds every song of every watched anime once: its length is the sum of their
      song counts, and each entry is a song of an anime with that name. */
  lemma {:induction false} AllSongsContents(watchedAnime: seq<Anime>)
    ensures |AllSongs(watchedAnime)| == Seqs.SumOf(watchedAnime, SongCount)
    ensures forall e :: e in AllSongs(watchedAnime) ==>
      exists a :: a in watchedAnime && e.song in a.songs && e.animeName == a.name
  {
    if watchedAnime != [] {
      AllSongsContents(watchedAnime[1..]);
      var head := NamedSongsOf(watchedAnime[0]);
      forall e | e in head ensures e.song in watchedAnime[0].songs && e.animeName == watchedAnime[0].name {
        var i :| 0 <= i < |head| && head[i] == e;
      }
    }
  }

  // ---------------------------------------------------------------------------------------------
  // Setting a status and undoing it

  /** The undo action of the toast `handleSetStatus` shows: the anime, its status before the
      change (`null` when it had none), and the map its `setStatus` closure copies, the one of
      the render the handler ran in. */
  datatype UndoAction = UndoAction(id: string, previous: Option<AnimeStatus>, captured: StatusMap)

  /** The change `handleSetStatus(id, newStatus)` writes, and the undo action it offers. */
  function SetStatusWithUndo(statuses: StatusMap, id: string, newStatus: Option<AnimeStatus>): (r: (StatusMap, UndoAction))
    ensures r.0 == WithStatus(statuses, id, newStatus)
    ensures r.1.id == id && r.1.previous == StatusOf(statuses, id) && r.1.captured == statuses
    ensures WithStatus(r.0, r.1.id, r.1.previous) == statuses
  {
    UndoRestores(statuses, id, newStatus);
    (WithStatus(statuses, id, newStatus), UndoAction(id, StatusOf(statuses, id), statuses))
  }

  /** The toast texts: 視聴済み, 未視聴, and 未選択 for clearing. */
  function StatusLabel(status: Option<AnimeStatus>): (r: string)
    ensures r == "視聴済み" <==> status == Some(Watched)
    ensures r == "未視聴" <==> status == Some(Unwatched)
    ensures r == "未選択" <==> status.None?
  {
    match status
    case Some(Watched) => "視聴済み"
    case Some(Unwatched) => "未視聴"
    case None => "未選択"
  }

  /** Undo as written: the closure calls the `setStatus` of the render the change was made in,
      which copies that render's map. The whole map from before the change is written back. */
  function UndoAsWritten(undo: UndoAction): (r: StatusMap)
    ensures undo.previous == StatusOf(undo.captured, undo.id) ==> r == undo.captured
  {
    UndoRestores(undo.captured, undo.id, undo.previous);
    WithStatus(undo.captured, undo.id, undo.previous)
  }

  /** Undo as evidently intended: the previous status of that one anime is put back into the
      current map. */
  function Undo(current: StatusMap, undo: UndoAction): (r: StatusMap)
    ensures StatusOf(r, undo.id) == undo.previous
    ensures forall other :: other != undo.id ==> StatusOf(r, other) == StatusOf(current, other)
  {
    WithStatus(current, undo.id, undo.previous)
  }

  /** Right after the change, both undos give back the map from before it. */
  lemma UndoRightAfter(statuses: StatusMap, id: string, newStatus: Option<AnimeStatus>)
    ensures var (written, undo) := SetStatusWithUndo(statuses, id, newStatus);
      Undo(written, undo) == statuses && UndoAsWritten(undo) == statuses
  {
  }

  /** After a change to another anime (here from a second tab), the written undo drops that
      change: anime "b", marked watched after "a" was, loses its status when "a" is undone. */
  lemma UndoAsWrittenLosesOtherChange()
    ensures var (written, undo) := SetStatusWithUndo(map[], "a", Some(Watched));
      var current := WithStatus(written, "b", Some(Watched));
      StatusOf(UndoAsWritten(undo), "b").None? && StatusOf(current, "b") == Some(Watched)
  {
  }

  /** The intended undo keeps every change made to the other anime since. */
  lemma UndoKeepsOtherChanges(statuses: StatusMap, id: string, newStatus: Option<AnimeStatus>,
                              other: string, otherStatus: Option<AnimeStatus>)
    requires other != id
    ensures var (written, undo) := SetStatusWithUndo(statuses, id, newStatus);
      var current := WithStatus(written, other, otherStatus);
      Undo(current, undo) == WithStatus(statuses, other, otherStatus)
  {
    var (written, undo) := SetStatusWithUndo(statuses, id, newStatus);
    var current := WithStatus(written, other, otherStatus);
    StatusMapsEqual(Undo(current, undo), WithStatus(statuses, other, otherStatus));
  }

  /** `handleSetStatus` on the map of the current render: the change is written and the undo
      action returned. */
  method HandleSetStatus(store: SyncedStore<AnimeStatus>, statuses: StatusMap, id: string, newStatus: Option<AnimeStatus>)
    returns (undo: UndoAction)
    requires store.Valid()
    modifies store
    ensures store.Valid()
    ensures store.stored == Some(store.encode(WithStatus(statuses, id, newStatus)))
    ensures store.notifications == old(store.notifications) + 1
    ensures undo == SetStatusWithUndo(statuses, id, newStatus).1
  {
    SetStatus(store, statuses, id, newStatus);
    undo := UndoAction(id, StatusOf(statuses, id), statuses);
  }

  /** The toast's 元に戻す applied to the map of the current render. */
  method HandleUndo(store: SyncedStore<AnimeStatus>, current: StatusMap, undo: UndoAction)
    requires store.Valid()
    modifies store
    ensures store.Valid()
    ensures store.stored == Some(store.encode(Undo(current, undo)))
    ensures store.notifications == old(store.notifications) + 1
  {
    SetStatus(store, current, undo.id, undo.previous);
  }

  // ---------------------------------------------------------------------------------------------
  // The view state

  /** The state the season view keeps: the `quarter` URL parameter (changed by `router.push`) and
      the current tab. */
  class HomeView {
    const animeData: seq<Anime>
    var quarterParam: Option<string>
    var currentTab: ViewTab

    constructor (animeData: seq<Anime>, quarterParam: Option<string>)
      ensures this.animeData == animeData && this.quarterParam == quarterParam && currentTab == UnselectedTab
    {
      this.animeData := animeData;
      this.quarterParam := quarterParam;
      currentTab := UnselectedTab;
    }

    function Selected(): string
      reads this
    {
      SelectedQuarter(quarterParam, Quarters(animeData))
    }

    /** `setSelectedQuarter`: the parameter is set, the tab is kept. */
    method SetSelectedQuarter(quarter: string)
      modifies this
      ensures quarterParam == Some(quarter) && currentTab == old(currentTab)
      ensures Selected() == quarter
    {
      quarterParam := Some(quarter);
    }

    method GoToPreviousQuarter()
      modifies this
      ensures var p := PreviousQuarter(Quarters(animeData), old(Selected()));
        quarterParam == (if p.Some? then p else old(quarterParam))
      ensures currentTab == old(currentTab)
    {
      var p := PreviousQuarter(Quarters(animeData), Selected());
      if p.Some? {
        SetSelectedQuarter(p.value);
      }
    }

    method GoToNextQuarter()
      modifies this
      ensures var n := NextQuarter(Quarters(animeData), old(Selected()));
        quarterParam == (if n.Some? then n else old(quarterParam))
      ensures currentTab == old(currentTab)
    {
      var n := NextQuarter(Quarters(animeData), Selected());
      if n.Some? {
        SetSelectedQuarter(n.value);
      }
    }

    method SetTab(tab: ViewTab)
      modifies this
      ensures currentTab == tab && quarterParam == old(quarterParam)
    {
      currentTab := tab;
    }
  }

  /** Moving forward and then back returns to a known season. */
  method ForwardThenBack(view: HomeView)
    requires view.Selected() in Quarters(view.animeData)
    requires NextQuarter(Quarters(view.animeData), view.Selected()).Some?
    modifies view
    ensures view.Selected() == old(view.Selected())
  {
    NavigationInverse(Quarters(view.animeData), view.Selected());
    view.GoToNextQuarter();
    view.GoToPreviousQuarter();
  }
}
