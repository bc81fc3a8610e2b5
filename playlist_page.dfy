/** The playlist page: the OP/ED song filter, the steps selector → matcher → confirmation, the
    creation of one season's playlist and of a playlist merged from several seasons, and the
    selection of seasons to merge. */
module PlaylistPage {
  import opened Wrappers
  import opened Strings
  import opened AnimeTypes
  import opened MusicTypes
  import opened PlaylistTypes
  import opened AnimeStatuses
  import opened PlaylistDrafts
  import opened LocalStore
  import QuarterHelper
  import QuarterSelector
  import TrackConfirmation
  import TrackMatcher
  import Seqs

  // ---------------------------------------------------------------------------------------------
  // The song filter

  /** `/^(op|ed)/i.test(type.trim())`: after trimming, the type starts with "op" or "ed" in any
      mix of ASCII case. */
  predicate IsOpEdKind(kind: string) {
    var t := Trim(kind);
    |t| >= 2 && ((t[0] in "oO" && t[1] in "pP") || (t[0] in "eE" && t[1] in "dD"))
  }

  predicate IsOpEdSong(song: Song) { IsOpEdKind(song.kind) }

  /** `filterSongs`: every song with the filter `all`; with `oped` the opening and ending songs,
      in their order. */
  function FilterSongs(mode: SongFilterMode, songs: seq<Song>): (r: seq<Song>)
    ensures mode == All ==> r == songs
    ensures mode == OpEd ==> forall i :: 0 <= i < |r| ==> IsOpEdSong(r[i]) && r[i] in songs
    ensures mode == OpEd ==> forall s :: s in songs && IsOpEdSong(s) ==> s in r
    ensures |r| <= |songs|
  {
    if mode == All then songs else Seqs.Filter(songs, IsOpEdSong)
  }

  /** The filter keeps the songs' order: filtering a concatenation concatenates the results. */
  lemma FilterSongsAppend(mode: SongFilterMode, a: seq<Song>, b: seq<Song>)
    ensures FilterSongs(mode, a + b) == FilterSongs(mode, a) + FilterSongs(mode, b)
  {
    if mode == OpEd {
      Seqs.FilterAppend(a, b, IsOpEdSong);
    }
  }

  lemma OpKindExample()
    ensures IsOpEdKind("OP")
  {
    var t := "OP";
    TrimUnpadded(t);
    assert t[0] == 'O' && t[1] == 'P';
  }

  lemma EdKindExample()
    ensures IsOpEdKind("ed2")
  {
    var t := "ed2";
    TrimUnpadded(t);
    assert t[0] == 'e' && t[1] == 'd';
  }

  lemma ShortKindIsNotOpEd()
    ensures !IsOpEdKind("O")
  {
    TrimUnpadded("O");
    assert Trim("O") == "O";
  }

  lemma InsertSongIsNotOpEd()
    ensures !IsOpEdKind("挿入歌")
  {
    NotOpEdByInitial("挿入歌");
  }

  /** A type that starts with a character other than white space and the four letters is
      neither. */
  lemma NotOpEdByInitial(kind: string)
    requires kind != [] && !IsJsWhitespace(kind[0]) && !IsJsWhitespace(kind[|kind| - 1])
    requires kind[0] !in "oOeE"
    ensures !IsOpEdKind(kind)
  {
    TrimUnpadded(kind);
  }

  /** Leading white space in the type is ignored. */
  lemma OpEdKindIgnoresLeadingSpace(kind: string)
    ensures IsOpEdKind(" " + kind) == IsOpEdKind(kind)
  {
    assert (" " + kind)[1..] == kind;
    TrimStartSkip(" " + kind);
  }

  /** The anime with its songs filtered. */
  function WithFilteredSongs(mode: SongFilterMode, anime: Anime): Anime {
    anime.(songs := FilterSongs(mode, anime.songs))
  }

  predicate HasSongs(anime: Anime) { |anime.songs| > 0 }

  /** `filteredAnimeData`: each anime with its songs filtered, dropping those left without songs. */
  function FilteredAnimeData(mode: SongFilterMode, animeData: seq<Anime>): (r: seq<Anime>)
    ensures forall i :: 0 <= i < |r| ==> HasSongs(r[i])
    ensures forall i :: 0 <= i < |r| ==> exists a :: a in animeData && r[i] == WithFilteredSongs(mode, a)
    ensures forall a :: a in animeData && HasSongs(WithFilteredSongs(mode, a)) ==> WithFilteredSongs(mode, a) in r
  {
    var mapped := seq(|animeData|, i requires 0 <= i < |animeData| => WithFilteredSongs(mode, animeData[i]));
    var r := Seqs.Filter(mapped, HasSongs);
    assert forall x :: x in mapped ==> exists a :: a in animeData && x == WithFilteredSongs(mode, a) by {
      forall x | x in mapped ensures exists a :: a in animeData && x == WithFilteredSongs(mode, a) {
        var i :| 0 <= i < |mapped| && mapped[i] == x;
        assert animeData[i] in animeData;
      }
    }
    assert forall a :: a in animeData ==> WithFilteredSongs(mode, a) in mapped by {
      forall a | a in animeData ensures WithFilteredSongs(mode, a) in mapped {
        var i :| 0 <= i < |animeData| && animeData[i] == a;
        assert mapped[i] == WithFilteredSongs(mode, a);
      }
    }
    r
  }

  /** With the filter `all`, the list is the catalogue minus the anime without songs. */
  lemma FilteredAllDropsOnlySongless(animeData: seq<Anime>)
    ensures FilteredAnimeData(All, animeData) == Seqs.Filter(animeData, HasSongs)
  {
    var mapped := seq(|animeData|, i requires 0 <= i < |animeData| => WithFilteredSongs(All, animeData[i]));
    assert mapped == animeData;
  }

  // ---------------------------------------------------------------------------------------------
  // The anime the matcher is opened with

  datatype Step = SelectorStep | MatcherStep | ConfirmationStep

  /** `quarterAnimeList`: with a (non-empty) season chosen and past the selector step, the
      filtered anime of that season marked watched, in order; otherwise none. */
  function QuarterAnimeList(selected: Option<string>, step: Step, filtered: seq<Anime>, statuses: StatusMap): (r: seq<Anime>)
    ensures (selected.None? || selected.value == "" || step == SelectorStep) ==> r == []
    ensures forall i :: 0 <= i < |r| ==>
      (r[i] in filtered && selected == Some(r[i].quarter) && StatusOf(statuses, r[i].id) == Some(Watched))
    ensures selected.Some? && selected.value != "" && step != SelectorStep ==>
      forall a :: a in filtered && a.quarter == selected.value && StatusOf(statuses, a.id) == Some(Watched) ==> a in r
  {
    if selected.Some? && selected.value != "" && step != SelectorStep then
      Seqs.Filter(filtered, (a: Anime) => a.quarter == selected.value && StatusOf(statuses, a.id) == Some(Watched))
    else []
  }

  /** The song total the selector shows for a season is the number of songs the matcher then
      walks through. */
  lemma SelectorTotalIsMatcherTotal(mode: SongFilterMode, animeData: seq<Anime>, statuses: StatusMap, quarter: string, step: Step)
    requires quarter != "" && step != SelectorStep
    ensures var filtered := FilteredAnimeData(mode, animeData);
      |TrackMatcher.AllSongs(QuarterAnimeList(Some(quarter), step, filtered, statuses))|
      == QuarterSelector.TotalSongs(filtered, statuses, quarter)
  {
    var filtered := FilteredAnimeData(mode, animeData);
    var list := QuarterAnimeList(Some(quarter), step, filtered, statuses);
    Seqs.FilterEquivalent(filtered,
      (a: Anime) => a.quarter == quarter && StatusOf(statuses, a.id) == Some(Watched),
      (a: Anime) => a.quarter == quarter && QuarterSelector.IsWatchedWithSongs(statuses, a));
    assert list == QuarterSelector.QuarterAnime(filtered, statuses, quarter);
    TrackMatcher.AllSongsCount(list);
  }

  // ---------------------------------------------------------------------------------------------
  // Creating one season's playlist

  /** The URI of the chosen catalogue track, if any. */
  function UriOf(t: DraftTrack): seq<string> {
    if t.selectedTrack.Some? then [t.selectedTrack.value.uri] else []
  }

  /** `tracks.filter((t) => t.selectedTrack).map((t) => t.selectedTrack!.uri)`. */
  function SelectedUris(tracks: seq<DraftTrack>): seq<string> {
    if tracks == [] then [] else UriOf(tracks[0]) + SelectedUris(tracks[1..])
  }

  lemma {:induction false} SelectedUrisAppend(a: seq<DraftTrack>, b: seq<DraftTrack>)
    ensures SelectedUris(a + b) == SelectedUris(a) + SelectedUris(b)
  {
    if a == [] {
      assert a + b == b;
    } else {
      assert (a + b)[1..] == a[1..] + b;
      SelectedUrisAppend(a[1..], b);
    }
  }

  /** The URIs are those of the matched tracks, one each, in draft order. */
  lemma {:induction false} SelectedUrisOfMatched(tracks: seq<DraftTrack>)
    ensures |SelectedUris(tracks)| == |TrackConfirmation.MatchedTracks(tracks)|
    ensures forall k :: 0 <= k < |SelectedUris(tracks)| ==>
      TrackConfirmation.MatchedTracks(tracks)[k].selectedTrack.Some? &&
      SelectedUris(tracks)[k] == TrackConfirmation.MatchedTracks(tracks)[k].selectedTrack.value.uri
  {
    if tracks != [] {
      SelectedUrisOfMatched(tracks[1..]);
    }
  }

  /** What `handleCreatePlaylist` ends in: nothing for a season without a draft, the error toast
      when no track is matched, or the playlist to create. */
  datatype CreateOutcome = NoDraft | NothingToAdd | Create(options: CreatePlaylistOptions)

  function SinglePlaylistName(quarter: string): string { quarter + " アニメ主題歌" }

  function SinglePlaylistDescription(quarter: string, count: nat): string {
    quarter + "の視聴済みアニメの主題歌プレイリスト（" + NatToString(count) + "曲）"
  }

  /** `handleCreatePlaylist(quarter)`: the matched tracks of the season's draft, as URIs in draft
      order, with the error case when there are none. */
  function CreatePlaylistPlan(quarter: string, drafts: DraftMap): (r: CreateOutcome)
    ensures r == NoDraft <==> quarter !in drafts
    ensures r == NothingToAdd <==>
      quarter in drafts && forall i :: 0 <= i < |drafts[quarter].tracks| ==> !HasSelection(drafts[quarter].tracks[i])
    ensures r.Create? ==>
      (quarter in drafts && r.options.trackUris == SelectedUris(drafts[quarter].tracks)
      && |r.options.trackUris| > 0 && r.options.name == SinglePlaylistName(quarter)
      && r.options.description == Some(SinglePlaylistDescription(quarter, |r.options.trackUris|)))
  {
    if quarter !in drafts then NoDraft
    else
      var tracks := drafts[quarter].tracks;
      var matched := TrackConfirmation.MatchedTracks(tracks);
      SelectedUrisOfMatched(tracks);
      QuarterSelector.MatchedAll(tracks);
      NoneMatched(tracks);
      if |matched| == 0 then NothingToAdd
      else Create(CreatePlaylistOptions(SinglePlaylistName(quarter),
        Some(SinglePlaylistDescription(quarter, |matched|)), SelectedUris(tracks)))
  }

  lemma {:induction false} NoneMatched(tracks: seq<DraftTrack>)
    ensures |TrackConfirmation.MatchedTracks(tracks)| == 0 <==> forall i :: 0 <= i < |tracks| ==> !HasSelection(tracks[i])
  {
    if tracks != [] {
      NoneMatched(tracks[1..]);
      assert forall i :: 1 <= i < |tracks| ==> tracks[i] == tracks[1..][i - 1];
    }
  }

  // ---------------------------------------------------------------------------------------------
  // Creating a merged playlist

  /** The tracks of the drafts, draft after draft. */
  function TracksOf(d: PlaylistDraft): seq<DraftTrack> { d.tracks }

  function AllTracks(ds: seq<PlaylistDraft>): seq<DraftTrack> { Seqs.FlatMap(ds, TracksOf) }

  /** Each kept track has a chosen catalogue track with the URI at its own position, and comes
      from `done`. */
  predicate PickedFrom(picked: seq<DraftTrack>, uris: seq<string>, done: seq<DraftTrack>) {
    |picked| == |uris| && forall i :: 0 <= i < |picked| ==>
      (picked[i].selectedTrack.Some? && picked[i].selectedTrack.value.uri == uris[i] && picked[i] in done)
  }

  /** One more track: its URI is added to the de-duplicated list exactly when it is new. */
  lemma CollectStep(done: seq<DraftTrack>, track: DraftTrack)
    ensures track.selectedTrack.None? ==> Seqs.Dedup(SelectedUris(done + [track])) == Seqs.Dedup(SelectedUris(done))
    ensures track.selectedTrack.Some? ==>
      var u, uris := track.selectedTrack.value.uri, Seqs.Dedup(SelectedUris(done));
      Seqs.Dedup(SelectedUris(done + [track])) == if u in uris then uris else uris + [u]
  {
    SelectedUrisAppend(done, [track]);
    assert SelectedUris([track]) == UriOf(track);
    if track.selectedTrack.Some? {
      Seqs.DedupSnoc(SelectedUris(done), track.selectedTrack.value.uri);
    } else {
      assert SelectedUris(done + [track]) == SelectedUris(done);
    }
  }

  lemma PickedFromGrows(picked: seq<DraftTrack>, uris: seq<string>, done: seq<DraftTrack>, track: DraftTrack)
    requires PickedFrom(picked, uris, done)
    ensures PickedFrom(picked, uris, done + [track])
    ensures track.selectedTrack.Some? ==>
      PickedFrom(picked + [track], uris + [track.selectedTrack.value.uri], done + [track])
  {
  }

  lemma AllTracksSnoc(ds: seq<PlaylistDraft>, d: nat)
    requires d < |ds|
    ensures AllTracks(ds[..d + 1]) == AllTracks(ds[..d]) + ds[d].tracks
  {
    assert ds[..d + 1] == ds[..d] + [ds[d]];
    Seqs.FlatMapAppend(ds[..d], [ds[d]], TracksOf);
    assert AllTracks([ds[d]]) == ds[d].tracks;
  }

  /** The inner loop of `handleCreateMergedPlaylist`, over the tracks of one draft: `done` (the
      tracks visited before) grows by `tracks`, and the URIs, the `seen` set and the kept tracks
      follow. */
  method CollectFromDraft(tracks: seq<DraftTrack>, ghost done: seq<DraftTrack>, seen0: set<string>,
                          uris0: seq<string>, picked0: seq<DraftTrack>)
    returns (seen: set<string>, uris: seq<string>, picked: seq<DraftTrack>)
    requires uris0 == Seqs.Dedup(SelectedUris(done))
    requires forall x :: x in seen0 <==> x in uris0
    requires PickedFrom(picked0, uris0, done)
    ensures uris == Seqs.Dedup(SelectedUris(done + tracks))
    ensures forall x :: x in seen <==> x in uris
    ensures PickedFrom(picked, uris, done + tracks)
  {
    seen, uris, picked := seen0, uris0, picked0;
    assert done + tracks[..0] == done;
    for t := 0 to |tracks|
      invariant uris == Seqs.Dedup(SelectedUris(done + tracks[..t]))
      invariant forall x :: x in seen <==> x in uris
      invariant PickedFrom(picked, uris, done + tracks[..t])
    {
      var track := tracks[t];
      Seqs.AppendPrefixSnoc(done, tracks, t);
      CollectStep(done + tracks[..t], track);
      PickedFromGrows(picked, uris, done + tracks[..t], track);
      if track.selectedTrack.Some? && track.selectedTrack.value.uri !in seen {
        seen := seen + {track.selectedTrack.value.uri};
        uris := uris + [track.selectedTrack.value.uri];
        picked := picked + [track];
      }
    }
    assert tracks[..|tracks|] == tracks;
  }

  /** The nested loops of `handleCreateMergedPlaylist`: every track with a chosen catalogue track
      whose URI has not been seen, draft after draft and track after track. The URIs are the
      first occurrences of the selected URIs, and each kept track is the one that brought its URI. */
  method CollectMergedTracks(ds: seq<PlaylistDraft>) returns (uris: seq<string>, picked: seq<DraftTrack>)
    ensures uris == Seqs.Dedup(SelectedUris(AllTracks(ds)))
    ensures PickedFrom(picked, uris, AllTracks(ds))
  {
    var seen: set<string> := {};
    uris, picked := [], [];
    assert ds[..0] == [];
    for d := 0 to |ds|
      invariant uris == Seqs.Dedup(SelectedUris(AllTracks(ds[..d])))
      invariant forall x :: x in seen <==> x in uris
      invariant PickedFrom(picked, uris, AllTracks(ds[..d]))
    {
      AllTracksSnoc(ds, d);
      seen, uris, picked := CollectFromDraft(ds[d].tracks, AllTracks(ds[..d]), seen, uris, picked);
    }
    assert ds[..|ds|] == ds;
  }

  /** The drafts of the selected seasons that have one, in selection order. */
  function SelectedDrafts(selected: seq<string>, drafts: DraftMap): (r: seq<PlaylistDraft>)
    ensures |r| <= |selected|
    ensures r == [] <==> forall i :: 0 <= i < |selected| ==> selected[i] !in drafts
    ensures forall d :: d in r ==> exists q :: q in selected && q in drafts && drafts[q] == d
  {
    if selected == [] then []
    else
      var rest := SelectedDrafts(selected[1..], drafts);
      assert forall i :: 1 <= i < |selected| ==> selected[i] == selected[1..][i - 1];
      (if selected[0] in drafts then [drafts[selected[0]]] else []) + rest
  }

  /** "a sorts after b" for `sort(compareQuarters)`: the comparison is positive. A `NaN`
      comparison does not move anything. */
  predicate SortsAfter(a: string, b: string) {
    var c := QuarterHelper.CompareQuarters(a, b);
    c.Some? && c.value > 0
  }

  /** A comparison never puts both of two seasons after the other. */
  lemma SortsAfterAsymmetric()
    ensures forall a, b :: SortsAfter(a, b) ==> !SortsAfter(b, a)
  {
    forall a, b | SortsAfter(a, b) ensures !SortsAfter(b, a) {
      QuarterHelper.CompareAntisymmetric(QuarterHelper.ParseQuarter(a), QuarterHelper.ParseQuarter(b));
    }
  }

  /** `Array.from(selected).sort(compareQuarters)`, as a stable insertion sort: a permutation in
      which no season sorts after the next one. */
  function SortByQuarter(xs: seq<string>): (r: seq<string>)
    ensures multiset(r) == multiset(xs)
    ensures forall i :: 0 <= i < |r| - 1 ==> !SortsAfter(r[i], r[i + 1])
  {
    SortsAfterAsymmetric();
    Seqs.SortBySorted(xs, SortsAfter);
    Seqs.SortBy(xs, SortsAfter)
  }

  /** Both `parseInt`s of the season succeed, so `compareQuarters` never yields `NaN` on it. */
  predicate IsWellFormedQuarter(x: string) {
    var p := QuarterHelper.ParseQuarter(x);
    p.year.Some? && p.q.Some?
  }

  /** When every selected season parses, the sorted copy is in chronological order: each season
      compares at most equal to every later one. */
  lemma {:induction false} SortByQuarterChronological(xs: seq<string>)
    requires forall x :: x in xs ==> IsWellFormedQuarter(x)
    ensures var r := SortByQuarter(xs);
      forall i, j :: 0 <= i < j < |r| ==>
        QuarterHelper.CompareQuarters(r[i], r[j]).Some? && QuarterHelper.CompareQuarters(r[i], r[j]).value <= 0
  {
    var r := SortByQuarter(xs);
    assert forall x :: x in r ==> x in multiset(xs);
    forall i, j | 0 <= i < j < |r|
      ensures QuarterHelper.CompareQuarters(r[i], r[j]).Some? && QuarterHelper.CompareQuarters(r[i], r[j]).value <= 0
    {
      ChronologicalFrom(r, i, j);
    }
  }

  lemma {:induction false} ChronologicalFrom(r: seq<string>, i: nat, j: nat)
    requires i < j < |r|
    requires forall x :: x in r ==> IsWellFormedQuarter(x)
    requires forall k :: 0 <= k < |r| - 1 ==> !SortsAfter(r[k], r[k + 1])
    ensures QuarterHelper.CompareQuarters(r[i], r[j]).Some? && QuarterHelper.CompareQuarters(r[i], r[j]).value <= 0
    decreases j - i
  {
    var pa, pb := QuarterHelper.ParseQuarter(r[i]), QuarterHelper.ParseQuarter(r[i + 1]);
    assert IsWellFormedQuarter(r[i]) && IsWellFormedQuarter(r[i + 1]);
    assert !SortsAfter(r[i], r[i + 1]);
    if i + 1 < j {
      ChronologicalFrom(r, i + 1, j);
      QuarterHelper.CompareTransitive(pa, pb, QuarterHelper.ParseQuarter(r[j]));
    }
  }

  /** What `handleCreateMergedPlaylist` ends in: the three error toasts, or the playlist to create
      together with the number of tracks it reports. */
  datatype MergeOutcome = EmptySelection | NoDrafts | NothingMatched | CreateMerged(options: CreatePlaylistOptions, trackCount: nat)

  function MergedDescription(sortedQuarters: seq<string>, count: nat): string {
    JoinWith(sortedQuarters, ", ") + "の視聴済みアニメの主題歌プレイリスト（" + NatToString(count) + "曲）"
  }

  /** `handleCreateMergedPlaylist` on the selected seasons (in selection order) and the drafts.
      It stops with an error for an empty selection, for a selection without drafts and for drafts
      without a matched track; otherwise the playlist holds each selected URI once, first
      occurrences first, and its name comes from the selected seasons whatever their order. */
  method CreateMergedPlaylist(selected: seq<string>, drafts: DraftMap) returns (r: MergeOutcome)
    ensures selected == [] ==> r == EmptySelection
    ensures selected != [] && SelectedDrafts(selected, drafts) == [] ==> r == NoDrafts
    ensures selected != [] && SelectedDrafts(selected, drafts) != [] ==>
      var uris := Seqs.Dedup(SelectedUris(AllTracks(SelectedDrafts(selected, drafts))));
      (r == NothingMatched <==> uris == [])
      && (r.CreateMerged? ==>
        (r.options.trackUris == uris && r.trackCount == |uris|
        && r.options.name == QuarterHelper.GenerateMergedPlaylistName(selected)
        && r.options.description == Some(MergedDescription(SortByQuarter(selected), |uris|))))
    ensures r.EmptySelection? || r.NoDrafts? || r.NothingMatched? || r.CreateMerged?
  {
    if selected == [] {
      return EmptySelection;
    }
    var ds := SelectedDrafts(selected, drafts);
    if ds == [] {
      return NoDrafts;
    }
    var uris, picked := CollectMergedTracks(ds);
    if |picked| == 0 {
      return NothingMatched;
    }
    var sorted := SortByQuarter(selected);
    QuarterHelper.MergedNameOrderIndependent(sorted, selected);
    r := CreateMerged(CreatePlaylistOptions(QuarterHelper.GenerateMergedPlaylistName(sorted),
      Some(MergedDescription(sorted, |picked|)), uris), |picked|);
  }

  /** The URIs of a merged playlist are unique, every selected URI is among them, and each comes
      from a selected season's draft. */
  lemma MergedUrisUnique(selected: seq<string>, drafts: DraftMap)
    ensures var uris := Seqs.Dedup(SelectedUris(AllTracks(SelectedDrafts(selected, drafts))));
      Seqs.Distinct(uris) && forall u :: u in uris <==> u in SelectedUris(AllTracks(SelectedDrafts(selected, drafts)))
  {
  }

  // ---------------------------------------------------------------------------------------------
  // Selecting seasons to merge

  /** `handleToggleQuarterSelection` on a `Set` listed in insertion order: a selected season is
      removed, another one is added at the end, and every other season stays as it was. */
  function ToggleSelection(selected: seq<string>, quarter: string): (r: seq<string>)
    ensures quarter in r <==> quarter !in selected
    ensures forall q :: q != quarter ==> (q in r <==> q in selected)
    ensures Seqs.Distinct(selected) ==> Seqs.Distinct(r)
  {
    if quarter in selected then
      var r := Seqs.Filter(selected, (q: string) => q != quarter);
      if Seqs.Distinct(selected) then Seqs.FilterDistinct(selected, (q: string) => q != quarter); r else r
    else
      selected + [quarter]
  }

  /** Toggling twice gives back the same seasons; starting from an unselected season it gives back
      the very same list. */
  lemma ToggleTwice(selected: seq<string>, quarter: string)
    ensures forall q :: q in ToggleSelection(ToggleSelection(selected, quarter), quarter) <==> q in selected
    ensures quarter !in selected ==> ToggleSelection(ToggleSelection(selected, quarter), quarter) == selected
  {
    if quarter !in selected {
      Seqs.FilterAppend(selected, [quarter], (q: string) => q != quarter);
      Seqs.FilterAll(selected, (q: string) => q != quarter);
    }
  }

  // ---------------------------------------------------------------------------------------------
  // The step state

  /** The step `handleSelectQuarter` opens: the confirmation for a draft with tracks, else the
      matcher. */
  function StepForDraft(draft: Option<PlaylistDraft>): (r: Step)
    ensures r == ConfirmationStep <==> draft.Some? && |draft.value.tracks| > 0
    ensures r != ConfirmationStep ==> r == MatcherStep
  {
    if draft.Some? && |draft.value.tracks| > 0 then ConfirmationStep else MatcherStep
  }

  class PageState {
    var currentStep: Step
    var selectedQuarter: Option<string>
    var matchedTracks: seq<DraftTrack>
    var songFilter: SongFilterMode
    var matchStartIndex: nat
    var isEditingTrack: bool
    /** `selectedQuartersForMerge`, in insertion order. */
    var selectedForMerge: seq<string>

    constructor ()
      ensures currentStep == SelectorStep && selectedQuarter.None? && matchedTracks == []
      ensures songFilter == OpEd && matchStartIndex == 0 && !isEditingTrack && selectedForMerge == []
    {
      currentStep := SelectorStep;
      selectedQuarter := None;
      matchedTracks := [];
      songFilter := OpEd;
      matchStartIndex := 0;
      isEditingTrack := false;
      selectedForMerge := [];
    }

    /** `handleSelectQuarter`: an existing draft's tracks (and its filter, when it has one) are
        loaded; the matcher starts at 0 without single edit. */
    method SelectQuarter(quarter: string, drafts: DraftMap)
      modifies this
      ensures selectedQuarter == Some(quarter) && matchStartIndex == 0 && !isEditingTrack
      ensures currentStep == StepForDraft(GetDraft(drafts, quarter))
      ensures quarter in drafts ==>
        (matchedTracks == drafts[quarter].tracks && songFilter == drafts[quarter].songFilter.GetOr(old(songFilter)))
      ensures quarter !in drafts ==> matchedTracks == [] && songFilter == old(songFilter)
      ensures selectedForMerge == old(selectedForMerge)
    {
      selectedQuarter := Some(quarter);
      var existing := GetDraft(drafts, quarter);
      if existing.Some? {
        matchedTracks := existing.value.tracks;
        if existing.value.songFilter.Some? {
          songFilter := existing.value.songFilter.value;
        }
      } else {
        matchedTracks := [];
      }
      matchStartIndex := 0;
      isEditingTrack := false;
      currentStep := StepForDraft(existing);
    }

    /** `handleMatchingComplete`. */
    method MatchingComplete(tracks: seq<DraftTrack>)
      modifies this
      ensures matchedTracks == tracks && currentStep == ConfirmationStep && !isEditingTrack
      ensures selectedQuarter == old(selectedQuarter) && songFilter == old(songFilter)
      ensures matchStartIndex == old(matchStartIndex) && selectedForMerge == old(selectedForMerge)
    {
      matchedTracks := tracks;
      currentStep := ConfirmationStep;
      isEditingTrack := false;
    }

    /** `handleEditTrack(index)`: the matcher opens at `index` for that one song. */
    method EditTrack(index: nat)
      modifies this
      ensures matchStartIndex == index && isEditingTrack && currentStep == MatcherStep
      ensures matchedTracks == old(matchedTracks) && selectedQuarter == old(selectedQuarter)
      ensures songFilter == old(songFilter) && selectedForMerge == old(selectedForMerge)
    {
      matchStartIndex := index;
      isEditingTrack := true;
      currentStep := MatcherStep;
    }

    /** `handleCancel`: back to the selector, with the saved draft's tracks (and filter) reloaded
        when the chosen season has one. */
    method Cancel(drafts: DraftMap)
      modifies this
      ensures currentStep == SelectorStep && !isEditingTrack && matchStartIndex == 0
      ensures var q := old(selectedQuarter);
        if q.Some? && q.value != "" && q.value in drafts then
          matchedTracks == drafts[q.value].tracks && songFilter == drafts[q.value].songFilter.GetOr(old(songFilter))
        else
          matchedTracks == old(matchedTracks) && songFilter == old(songFilter)
      ensures selectedQuarter == old(selectedQuarter) && selectedForMerge == old(selectedForMerge)
    {
      if selectedQuarter.Some? && selectedQuarter.value != "" {
        var existing := GetDraft(drafts, selectedQuarter.value);
        if existing.Some? {
          matchedTracks := existing.value.tracks;
          if existing.value.songFilter.Some? {
            songFilter := existing.value.songFilter.value;
          }
        }
      }
      currentStep := SelectorStep;
      isEditingTrack := false;
      matchStartIndex := 0;
    }

    /** `handleSave`: the decisions are saved as the season's draft, stamped `now`, and the page
        returns to the selector. Without a chosen season nothing happens. */
    method Save(store: SyncedStore<PlaylistDraft>, now: string)
      requires store.Valid()
      modifies this, store
      ensures store.Valid()
      ensures old(selectedQuarter.None? || selectedQuarter.value == "") ==> unchanged(this) && unchanged(store)
      ensures old(selectedQuarter.Some? && selectedQuarter.value != "") ==>
        var q := old(selectedQuarter).value;
        var draft := PlaylistDraft(q, now, now, old(matchedTracks), Some(old(songFilter)));
        store.stored == Some(store.encode(SavedDrafts(SnapshotOf(old(store.stored), store.decode), q, draft, now)))
        && store.notifications == old(store.notifications) + 1
        && currentStep == SelectorStep && selectedQuarter.None? && matchedTracks == []
    {
      if selectedQuarter.None? || selectedQuarter.value == "" {
        return;
      }
      var drafts := store.GetSnapshot();
      var draft := PlaylistDraft(selectedQuarter.value, now, now, matchedTracks, Some(songFilter));
      SaveDraft(store, drafts, selectedQuarter.value, draft, now);
      currentStep := SelectorStep;
      selectedQuarter := None;
      matchedTracks := [];
    }

    /** `handleToggleQuarterSelection`. */
    method ToggleQuarterSelection(quarter: string)
      modifies this
      ensures selectedForMerge == ToggleSelection(old(selectedForMerge), quarter)
      ensures currentStep == old(currentStep) && matchedTracks == old(matchedTracks)
    {
      selectedForMerge := ToggleSelection(selectedForMerge, quarter);
    }
  }

  /** Re-selecting a song from the confirmation opens a single-edit session on that song. */
  method EditFromConfirmation(page: PageState, animeList: seq<Anime>, k: nat) returns (session: TrackMatcher.MatchingSession)
    requires k < |TrackConfirmation.MatchedTracks(page.matchedTracks)|
    requires |page.matchedTracks| <= |TrackMatcher.AllSongs(animeList)|
    modifies page
    ensures session.Valid() && session.singleEdit
    ensures page.matchStartIndex < |page.matchedTracks|
    ensures session.currentIndex == page.matchStartIndex && session.currentIndex < |session.matchedTracks|
    ensures session.matchedTracks[session.currentIndex] == Some(page.matchedTracks[page.matchStartIndex])
    ensures session.Dense()
  {
    var index := TrackConfirmation.MatchedEditIndex(page.matchedTracks, k);
    page.EditTrack(index);
    session := new TrackMatcher.MatchingSession(animeList, page.matchedTracks, page.matchStartIndex, page.isEditingTrack);
  }
}
