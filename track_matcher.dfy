/** The matching session of `TrackMatcher`: one song at a time, a catalogue search, then either an
    automatic decision (a single exact candidate) or the user's choice, recorded at the song's
    position, until the last song or the single edited song is decided. The React effect that
    re-runs on `currentIndex` is split into `BeginSearch` (its synchronous start, followed by the
    selection-restoring effect) and `OnSearchResolved` (what happens when the search settles). */
module TrackMatcher {
  import opened Wrappers
  import opened Strings
  import opened AnimeTypes
  import opened MusicTypes
  import opened PlaylistTypes
  import opened TrackSearch
  import Seqs

  /** One entry of `allSongs`. */
  datatype SongEntry = SongEntry(animeId: string, animeName: string, song: Song)

  /** The entries of one anime, tagged with its id and name. */
  function SongsOf(anime: Anime): (r: seq<SongEntry>)
    ensures |r| == |anime.songs|
    ensures forall i :: 0 <= i < |r| ==> r[i] == SongEntry(anime.id, anime.name, anime.songs[i])
  {
    seq(|anime.songs|, i requires 0 <= i < |anime.songs| => SongEntry(anime.id, anime.name, anime.songs[i]))
  }

  /** `allSongs`: the songs of every anime, anime by anime, in list order. */
  function AllSongs(animeList: seq<Anime>): seq<SongEntry>
  {
    Seqs.FlatMap(animeList, SongsOf)
  }

  /** `totalSongs` is the sum of the song counts. */
  lemma {:induction false} AllSongsCount(animeList: seq<Anime>)
    ensures |AllSongs(animeList)| == Seqs.SumOf(animeList, SongCount)
  {
    if animeList != [] {
      AllSongsCount(animeList[1..]);
    }
  }

  /** Every entry is a song of a listed anime, tagged with that anime's id and name. */
  lemma {:induction false} AllSongsOrigin(animeList: seq<Anime>, j: nat)
    requires j < |AllSongs(animeList)|
    ensures exists a :: (a in animeList && AllSongs(animeList)[j].animeId == a.id
      && AllSongs(animeList)[j].animeName == a.name && AllSongs(animeList)[j].song in a.songs)
  {
    var head := SongsOf(animeList[0]);
    if j < |head| {
      assert AllSongs(animeList)[j] == head[j];
    } else {
      AllSongsOrigin(animeList[1..], j - |head|);
      assert AllSongs(animeList)[j] == AllSongs(animeList[1..])[j - |head|];
      var a :| a in animeList[1..] && AllSongs(animeList[1..])[j - |head|].animeId == a.id
        && AllSongs(animeList[1..])[j - |head|].animeName == a.name && AllSongs(animeList[1..])[j - |head|].song in a.songs;
      assert a in animeList;
    }
  }

  // ---------------------------------------------------------------------------------------------
  // The decision list: a JavaScript array that may have holes

  /** `matchedTracks[i]`: `None` for a hole or a position past the end. */
  function EntryAt(tracks: seq<Option<DraftTrack>>, i: nat): Option<DraftTrack> {
    if i < |tracks| then tracks[i] else None
  }

  /** `const next = [...tracks]; next[i] = t`: position `i` holds `t`, the array grows to reach it
      with holes in between, and every other position is as it was. */
  function AssignAt(tracks: seq<Option<DraftTrack>>, i: nat, t: DraftTrack): (r: seq<Option<DraftTrack>>)
    ensures |r| == if i < |tracks| then |tracks| else i + 1
    ensures r[i] == Some(t)
    ensures forall j :: 0 <= j < |r| && j != i ==> r[j] == EntryAt(tracks, j)
  {
    if i < |tracks| then tracks[i := Some(t)]
    else tracks + seq(i - |tracks|, _ => None) + [Some(t)]
  }

  /** Recording twice at the same position keeps only the second decision. */
  lemma AssignAtTwice(tracks: seq<Option<DraftTrack>>, i: nat, t: DraftTrack, u: DraftTrack)
    ensures AssignAt(AssignAt(tracks, i, t), i, u) == AssignAt(tracks, i, u)
  {
    var a, b := AssignAt(AssignAt(tracks, i, t), i, u), AssignAt(tracks, i, u);
    assert |a| == |b|;
    forall j | 0 <= j < |a| ensures a[j] == b[j] {
      if j != i {
        assert a[j] == EntryAt(AssignAt(tracks, i, t), j);
      }
    }
  }

  /** No position of the list is a hole. */
  predicate NoHoles(tracks: seq<Option<DraftTrack>>) {
    forall j :: 0 <= j < |tracks| ==> tracks[j].Some?
  }

  /** Every recorded selection is one of the candidates recorded with it. */
  predicate AllWellFormed(tracks: seq<Option<DraftTrack>>) {
    forall j :: 0 <= j < |tracks| && tracks[j].Some? ==> WellFormedTrack(tracks[j].value)
  }

  /** Recording at most one position past the end leaves no hole, and recording a consistent
      decision keeps every decision consistent. */
  lemma AssignAtPreserves(tracks: seq<Option<DraftTrack>>, i: nat, t: DraftTrack)
    ensures i <= |tracks| && NoHoles(tracks) ==> NoHoles(AssignAt(tracks, i, t))
    ensures AllWellFormed(tracks) && WellFormedTrack(t) ==> AllWellFormed(AssignAt(tracks, i, t))
  {
  }

  /** `draft?.selectedTrack?.id ?? null` for the draft at position `i`. */
  function RecordedSelectionId(tracks: seq<Option<DraftTrack>>, i: nat): Option<string> {
    match EntryAt(tracks, i)
    case Some(d) => if d.selectedTrack.Some? then Some(d.selectedTrack.value.id) else None
    case None => None
  }

  /** `initialTracks` as a list without holes. */
  function Present(tracks: seq<DraftTrack>): (r: seq<Option<DraftTrack>>)
    ensures |r| == |tracks| && forall j :: 0 <= j < |r| ==> r[j] == Some(tracks[j])
  {
    seq(|tracks|, j requires 0 <= j < |tracks| => Some(tracks[j]))
  }

  // ---------------------------------------------------------------------------------------------
  // The decisions

  /** `Math.min(startIndex, Math.max(0, totalSongs - 1))`: a start inside the list is kept, a
      start past its end becomes the last song, and an empty list starts at 0. */
  function Clamp(startIndex: nat, total: nat): (r: nat)
    ensures r <= startIndex
    ensures total > 0 ==> r < total
    ensures total == 0 ==> r == 0
    ensures startIndex < total ==> r == startIndex
    ensures total > 0 && startIndex >= total ==> r == total - 1
  {
    var upper := if total - 1 > 0 then total - 1 else 0;
    if startIndex < upper then startIndex else upper
  }

  /** `isLast`: `currentIndex >= totalSongs - 1`. */
  predicate IsLast(index: nat, total: nat) { index >= total - 1 }

  /** `searchResults.find(r => r.id === trackId)`. */
  function FindById(results: seq<TrackSearchResult>, id: string): (r: Option<TrackSearchResult>)
    ensures r.None? <==> forall j :: 0 <= j < |results| ==> results[j].id != id
    ensures r.Some? ==> r.value in results && r.value.id == id
    ensures r.Some? ==> exists k :: (0 <= k < |results| && results[k] == r.value
      && forall j :: 0 <= j < k ==> results[j].id != id)
  {
    if results == [] then None
    else if results[0].id == id then Some(results[0])
    else
      var r := FindById(results[1..], id);
      assert forall j :: 1 <= j < |results| ==> results[j] == results[1..][j - 1];
      r
  }

  /** The draft the search effect records by itself: present exactly when auto-matching is
      possible, and then the single exact candidate, marked `auto`. */
  function AutoDraft(entry: SongEntry, results: seq<TrackSearchResult>): (d: Option<DraftTrack>)
    ensures d.Some? <==> CanAutoMatch(results)
    ensures d.Some? ==> (d.value.animeId == entry.animeId && d.value.animeName == entry.animeName
      && d.value.song == entry.song && d.value.candidates == results)
    ensures d.Some? ==> (d.value.matchStatus == Auto && d.value.selectedTrack.Some?
      && exists k :: UniqueExactAt(results, k) && results[k] == d.value.selectedTrack.value)
    ensures d.Some? ==> WellFormedTrack(d.value)
  {
    match GetAutoMatchResult(results)
    case None => None
    case Some(t) => Some(DraftTrack(entry.animeId, entry.animeName, entry.song, Auto, Some(t), results))
  }

  /** The draft `handleSelectTrack(trackId)` records: an id that is not among the candidates gives
      `skipped` with no track; a found candidate gives `auto` exactly when auto-matching is possible
      and the candidate is exact, and `manual` otherwise. */
  function SelectionDraft(entry: SongEntry, results: seq<TrackSearchResult>, trackId: string): (d: DraftTrack)
    ensures d.animeId == entry.animeId && d.animeName == entry.animeName && d.song == entry.song
    ensures d.candidates == results
    ensures d.selectedTrack.None? <==> forall j :: 0 <= j < |results| ==> results[j].id != trackId
    ensures d.selectedTrack.Some? ==> d.selectedTrack.value.id == trackId
    ensures d.matchStatus == Skipped <==> d.selectedTrack.None?
    ensures d.matchStatus == Auto <==>
      d.selectedTrack.Some? && CanAutoMatch(results) && d.selectedTrack.value.confidence == Exact
    ensures d.matchStatus != Pending
    ensures WellFormedTrack(d)
  {
    var found := FindById(results, trackId);
    var status := if found.None? then Skipped
      else if CanAutoMatch(results) && found.value.confidence == Exact then Auto
      else Manual;
    DraftTrack(entry.animeId, entry.animeName, entry.song, status, found, results)
  }

  /** Choosing the one exact candidate of an auto-matchable list records exactly what the automatic
      decision would have recorded. */
  lemma SelectingTheExactMatchesAuto(entry: SongEntry, results: seq<TrackSearchResult>, k: nat)
    requires UniqueExactAt(results, k)
    requires forall j :: 0 <= j < |results| && results[j].id == results[k].id ==> j == k
    ensures AutoDraft(entry, results).Some?
    ensures SelectionDraft(entry, results, results[k].id) == AutoDraft(entry, results).value
  {
    CanAutoMatchIffUniqueExact(results);
    var auto := AutoDraft(entry, results).value;
    var k' :| UniqueExactAt(results, k') && results[k'] == auto.selectedTrack.value;
    assert k' == k;
    var found := FindById(results, results[k].id);
    var m :| 0 <= m < |results| && results[m] == found.value && forall j :: 0 <= j < m ==> results[j].id != results[k].id;
    assert m == k;
  }

  /** The draft `handleSkip` records. */
  function SkipDraft(entry: SongEntry, results: seq<TrackSearchResult>): (d: DraftTrack)
    ensures d.animeId == entry.animeId && d.animeName == entry.animeName && d.song == entry.song
    ensures d.matchStatus == Skipped && d.selectedTrack.None? && d.candidates == results
    ensures WellFormedTrack(d)
  {
    DraftTrack(entry.animeId, entry.animeName, entry.song, Skipped, None, results)
  }

  // ---------------------------------------------------------------------------------------------
  // What is rendered

  /** `shouldShowContent` as written: the song card, the candidates and the action buttons
      (cancel, back, skip) render only once a search has settled with at least one candidate. */
  predicate ContentShownAsWritten(isSearching: bool, searchResults: seq<TrackSearchResult>) {
    !isSearching && |searchResults| > 0
  }

  /** What the empty-result branch of the candidate card evidently expects: once the search has
      settled, the card and the actions are on screen, with or without candidates. */
  predicate ContentShown(isSearching: bool) { !isSearching }

  /** A search that fails, or finds nothing, settles with no candidates: as written, neither the
      "no song found" message nor any action button is rendered, so the song can be neither
      skipped nor left from inside the matcher. */
  lemma NoCandidatesHideActions(song: Song)
    ensures !ContentShownAsWritten(false, SearchTrack(song, Rejected))
    ensures !ContentShownAsWritten(false, SearchTrack(song, Resolved([])))
    ensures ContentShown(false)
  {
  }

  // ---------------------------------------------------------------------------------------------
  // The session

  class MatchingSession {
    /** `allSongs` of the anime list the matcher was opened with. */
    const songs: seq<SongEntry>
    const singleEdit: bool

    var currentIndex: nat
    var matchedTracks: seq<Option<DraftTrack>>
    var isSearching: bool
    var searchResults: seq<TrackSearchResult>
    var selectedTrackId: Option<string>
    var isNavigatingBack: bool

    /** The states the session can rest in: the index is on a song (or 0 for no songs); a search
        in flight has cleared the candidates; the back flag is only up while the search it asked
        for is in flight; and the highlighted candidate is the one recorded for the song. */
    ghost predicate Valid()
      reads this
    {
      (if |songs| == 0 then currentIndex == 0 else currentIndex < |songs|)
      && (isSearching ==> currentIndex < |songs| && searchResults == [])
      && (isNavigatingBack ==> isSearching)
      && selectedTrackId == RecordedSelectionId(matchedTracks, currentIndex)
    }

    /** No hole in the decisions, and the current song at most one past the last decision. */
    ghost predicate Dense()
      reads this
    {
      currentIndex <= |matchedTracks| && NoHoles(matchedTracks)
    }

    ghost predicate RecordsWellFormed()
      reads this
    {
      AllWellFormed(matchedTracks)
    }

    /** Mounting the matcher: the start index is clamped, the initial decisions are taken over,
        and the first search begins when there is a song. */
    constructor (animeList: seq<Anime>, initialTracks: seq<DraftTrack>, startIndex: nat, singleEdit: bool)
      ensures Valid()
      ensures songs == AllSongs(animeList) && this.singleEdit == singleEdit
      ensures currentIndex == Clamp(startIndex, |songs|)
      ensures matchedTracks == Present(initialTracks)
      ensures isSearching == (|songs| > 0) && searchResults == [] && !isNavigatingBack
      ensures Clamp(startIndex, |songs|) <= |initialTracks| ==> Dense()
      ensures (forall t :: t in initialTracks ==> WellFormedTrack(t)) ==> RecordsWellFormed()
    {
      var all := AllSongs(animeList);
      var tracks := Present(initialTracks);
      var index := Clamp(startIndex, |all|);
      songs := all;
      this.singleEdit := singleEdit;
      currentIndex := index;
      matchedTracks := tracks;
      isSearching := |all| > 0;
      searchResults := [];
      isNavigatingBack := false;
      selectedTrackId := RecordedSelectionId(tracks, index);
    }

    /** The start of `performSearch` for the current song (searching, no candidates, no
        highlight), followed by the effect that restores the recorded selection. */
    method BeginSearch()
      requires currentIndex < |songs|
      modifies this
      ensures isSearching && searchResults == []
      ensures selectedTrackId == RecordedSelectionId(matchedTracks, currentIndex)
      ensures currentIndex == old(currentIndex) && matchedTracks == old(matchedTracks)
      ensures isNavigatingBack == old(isNavigatingBack)
    {
      isSearching := true;
      searchResults := [];
      selectedTrackId := RecordedSelectionId(matchedTracks, currentIndex);
    }

    /** The search for the current song settles with `outcome`. Unless the user came back to this
        song, a single exact candidate is recorded as `auto` at the current position without
        showing the candidates, and then the session completes (single edit, or last song) or
        moves on and searches the next song. Otherwise, and always after a back step, the
        candidates are shown and the back flag is cleared. */
    method OnSearchResolved(outcome: SearchOutcome) returns (completed: Option<seq<Option<DraftTrack>>>)
      requires Valid() && isSearching
      modifies this
      ensures Valid()
      ensures var entry := songs[old(currentIndex)];
        var results := SearchTrack(entry.song, outcome);
        var auto := AutoDraft(entry, results);
        if !old(isNavigatingBack) && auto.Some? then
          matchedTracks == AssignAt(old(matchedTracks), old(currentIndex), auto.value)
          && searchResults == [] && !isNavigatingBack
          && if singleEdit || IsLast(old(currentIndex), |songs|) then
               completed == Some(matchedTracks) && currentIndex == old(currentIndex) && !isSearching
             else
               completed.None? && currentIndex == old(currentIndex) + 1 && isSearching
        else
          completed.None? && matchedTracks == old(matchedTracks) && currentIndex == old(currentIndex)
          && searchResults == results && !isSearching && !isNavigatingBack
      ensures old(Dense()) ==> Dense()
      ensures old(RecordsWellFormed()) ==> RecordsWellFormed()
    {
      var entry := songs[currentIndex];
      var results := SearchTrack(entry.song, outcome);
      var auto := AutoDraft(entry, results);
      if !isNavigatingBack && auto.Some? {
        completed := RecordAutoMatch(auto.value);
        return;
      }
      isNavigatingBack := false;
      searchResults := results;
      isSearching := false;
      completed := None;
    }

    /** The auto-match branch of the search: `d` is recorded at the current position, and the
        session completes (single edit, or last song) or moves on to the next song, whose search
        begins at once. */
    method RecordAutoMatch(d: DraftTrack) returns (completed: Option<seq<Option<DraftTrack>>>)
      requires Valid() && isSearching && !isNavigatingBack
      modifies this
      ensures Valid() && !isNavigatingBack && searchResults == []
      ensures matchedTracks == AssignAt(old(matchedTracks), old(currentIndex), d)
      ensures if singleEdit || IsLast(old(currentIndex), |songs|) then
          completed == Some(matchedTracks) && currentIndex == old(currentIndex) && !isSearching
        else
          completed.None? && currentIndex == old(currentIndex) + 1 && isSearching
      ensures old(Dense()) ==> Dense()
      ensures old(RecordsWellFormed()) && WellFormedTrack(d) ==> RecordsWellFormed()
    {
      ghost var before := matchedTracks;
      matchedTracks := AssignAt(matchedTracks, currentIndex, d);
      AssignAtPreserves(before, currentIndex, d);
      if singleEdit || IsLast(currentIndex, |songs|) {
        isSearching := false;
        selectedTrackId := RecordedSelectionId(matchedTracks, currentIndex);
        completed := Some(matchedTracks);
        return;
      }
      currentIndex := currentIndex + 1;
      BeginSearch();
      completed := None;
    }

    /** `upsertDraftAndMaybeComplete`: record `d` at the current position, then complete (single
        edit, or last song) or move on and search the next song. */
    method Record(d: DraftTrack) returns (completed: Option<seq<Option<DraftTrack>>>)
      requires Valid() && !isSearching && currentIndex < |songs|
      modifies this
      ensures Valid()
      ensures matchedTracks == AssignAt(old(matchedTracks), old(currentIndex), d)
      ensures if singleEdit || IsLast(old(currentIndex), |songs|) then
          completed == Some(matchedTracks) && currentIndex == old(currentIndex)
          && !isSearching && searchResults == old(searchResults)
        else
          completed.None? && currentIndex == old(currentIndex) + 1 && isSearching && searchResults == []
      ensures isNavigatingBack == old(isNavigatingBack)
      ensures old(Dense()) ==> Dense()
      ensures old(RecordsWellFormed()) && WellFormedTrack(d) ==> RecordsWellFormed()
    {
      ghost var before := matchedTracks;
      matchedTracks := AssignAt(matchedTracks, currentIndex, d);
      AssignAtPreserves(before, currentIndex, d);
      selectedTrackId := RecordedSelectionId(matchedTracks, currentIndex);
      if singleEdit || IsLast(currentIndex, |songs|) {
        completed := Some(matchedTracks);
        return;
      }
      currentIndex := currentIndex + 1;
      BeginSearch();
      completed := None;
    }

    /** `handleSelectTrack(trackId)` on the shown candidates; nothing happens without a song. */
    method SelectTrack(trackId: string) returns (completed: Option<seq<Option<DraftTrack>>>)
      requires Valid() && ContentShown(isSearching)
      modifies this
      ensures Valid()
      ensures old(currentIndex) >= |songs| ==> unchanged(this) && completed.None?
      ensures old(currentIndex) < |songs| ==>
        var d := SelectionDraft(songs[old(currentIndex)], old(searchResults), trackId);
        matchedTracks == AssignAt(old(matchedTracks), old(currentIndex), d)
        && if singleEdit || IsLast(old(currentIndex), |songs|) then
             completed == Some(matchedTracks) && currentIndex == old(currentIndex) && !isSearching
           else
             completed.None? && currentIndex == old(currentIndex) + 1 && isSearching
      ensures old(Dense()) ==> Dense()
      ensures old(RecordsWellFormed()) ==> RecordsWellFormed()
    {
      if currentIndex >= |songs| {
        completed := None;
        return;
      }
      var d := SelectionDraft(songs[currentIndex], searchResults, trackId);
      completed := Record(d);
    }

    /** `handleSkip`; nothing happens without a song. */
    method Skip() returns (completed: Option<seq<Option<DraftTrack>>>)
      requires Valid() && ContentShown(isSearching)
      modifies this
      ensures Valid()
      ensures old(currentIndex) >= |songs| ==> unchanged(this) && completed.None?
      ensures old(currentIndex) < |songs| ==>
        var d := SkipDraft(songs[old(currentIndex)], old(searchResults));
        matchedTracks == AssignAt(old(matchedTracks), old(currentIndex), d)
        && if singleEdit || IsLast(old(currentIndex), |songs|) then
             completed == Some(matchedTracks) && currentIndex == old(currentIndex) && !isSearching
           else
             completed.None? && currentIndex == old(currentIndex) + 1 && isSearching
      ensures old(Dense()) ==> Dense()
      ensures old(RecordsWellFormed()) ==> RecordsWellFormed()
    {
      if currentIndex >= |songs| {
        completed := None;
        return;
      }
      var d := SkipDraft(songs[currentIndex], searchResults);
      completed := Record(d);
    }

    /** `handleBack`: at the first song nothing happens; otherwise the previous song is searched
        again with the back flag up, and its recorded selection is highlighted. */
    method Back()
      requires Valid() && ContentShown(isSearching)
      modifies this
      ensures Valid()
      ensures old(currentIndex) == 0 ==> unchanged(this)
      ensures old(currentIndex) > 0 ==>
        currentIndex == old(currentIndex) - 1 && isNavigatingBack && isSearching
        && searchResults == [] && matchedTracks == old(matchedTracks)
        && selectedTrackId == RecordedSelectionId(matchedTracks, currentIndex)
      ensures old(Dense()) ==> Dense()
      ensures unchanged(this`matchedTracks)
    {
      if currentIndex == 0 {
        return;
      }
      isNavigatingBack := true;
      currentIndex := currentIndex - 1;
      BeginSearch();
    }
  }

  /** After a back step the next settled search shows its candidates, even a single exact match,
      and records nothing. */
  method BackThenResolve(s: MatchingSession, outcome: SearchOutcome)
    requires s.Valid() && ContentShown(s.isSearching) && s.currentIndex > 0
    modifies s
    ensures s.Valid()
    ensures s.currentIndex == old(s.currentIndex) - 1
    ensures s.searchResults == SearchTrack(s.songs[s.currentIndex].song, outcome)
    ensures !s.isSearching && !s.isNavigatingBack
    ensures s.matchedTracks == old(s.matchedTracks)
  {
    s.Back();
    var completed := s.OnSearchResolved(outcome);
  }

  /** A search that settles with no candidates leaves the session idle, with nothing among the
      content the matcher renders as written. */
  method NoCandidatesStall(s: MatchingSession, outcome: SearchOutcome)
    requires s.Valid() && s.isSearching
    requires SearchTrack(s.songs[s.currentIndex].song, outcome) == []
    modifies s
    ensures s.Valid() && !s.isSearching && s.searchResults == []
    ensures !ContentShownAsWritten(s.isSearching, s.searchResults) && ContentShown(s.isSearching)
  {
    var completed := s.OnSearchResolved(outcome);
  }

  /** With the actions shown once the search has settled, a song without candidates is skipped
      like any other: a `skipped` decision with no candidates is recorded and the matcher
      completes or moves on. */
  method SkipAfterEmptySearch(s: MatchingSession, outcome: SearchOutcome) returns (completed: Option<seq<Option<DraftTrack>>>)
    requires s.Valid() && s.isSearching
    requires SearchTrack(s.songs[s.currentIndex].song, outcome) == []
    modifies s
    ensures s.Valid()
    ensures var i := old(s.currentIndex);
      s.matchedTracks == AssignAt(old(s.matchedTracks), i, SkipDraft(s.songs[i], []))
      && if s.singleEdit || IsLast(i, |s.songs|) then
           completed == Some(s.matchedTracks) && s.currentIndex == i
         else
           completed.None? && s.currentIndex == i + 1 && s.isSearching
  {
    var stalled := s.OnSearchResolved(outcome);
    completed := s.Skip();
  }

  // ---------------------------------------------------------------------------------------------
  // Formatters

  /** JavaScript's `%`: the remainder takes the sign of the dividend. */
  function JsRem(a: int, b: int): (r: int)
    requires b > 0
    ensures a >= 0 ==> r == a % b
    ensures -b < r < b
  {
    if a >= 0 then a % b else -((-a) % b)
  }

  /** `formatDuration`: the whole seconds (rounded down), then minutes rounded down, a colon, and
      the remaining seconds padded to two characters. Dafny's `/` by a positive divisor rounds
      down, as `Math.floor` does. */
  function FormatDuration(durationMs: int): string
  {
    var totalSeconds := durationMs / 1000;
    var minutes := totalSeconds / 60;
    var seconds := JsRem(totalSeconds, 60);
    IntToString(minutes) + ":" + PadTwo(IntToString(seconds))
  }

  /** A number below 100 padded to two characters is its two decimal digits. */
  lemma PadTwoDigits(n: nat)
    requires n < 100
    ensures PadTwo(NatToString(n)) == [DigitChar(n / 10), DigitChar(n % 10)]
  {
    if n < 10 {
      assert NatToString(n) == [DigitChar(n)];
      assert DigitChar(0) == '0';
    } else {
      assert NatToString(n / 10) == [DigitChar(n / 10)];
    }
  }

  /** For a non-negative duration the text is `m:ss`: the whole minutes, then the seconds below 60
      as exactly two digits. */
  lemma FormatDurationOf(durationMs: nat)
    ensures var seconds := (durationMs / 1000) % 60;
      seconds < 60 &&
      FormatDuration(durationMs) == NatToString(durationMs / 1000 / 60) + ":" + [DigitChar(seconds / 10), DigitChar(seconds % 10)]
  {
    PadTwoDigits((durationMs / 1000) % 60);
  }

  /** `formatReleaseDate`: the pieces between '-' joined with '/' when there are two or three of
      them, and otherwise the first piece. */
  function FormatReleaseDate(releaseDate: string): string
  {
    var parts := Split(releaseDate, '-');
    if |parts| == 3 then parts[0] + "/" + parts[1] + "/" + parts[2]
    else if |parts| == 2 then parts[0] + "/" + parts[1]
    else parts[0]
  }

  /** Joining two or three pieces. */
  lemma JoinFew(parts: seq<string>, c: char)
    ensures |parts| == 2 ==> Join(parts, c) == parts[0] + [c] + parts[1]
    ensures |parts| == 3 ==> Join(parts, c) == parts[0] + [c] + parts[1] + [c] + parts[2]
  {
    if |parts| == 3 {
      assert Join(parts[1..], c) == parts[1] + [c] + Join(parts[2..], c);
      assert Join(parts[2..], c) == parts[2];
    } else if |parts| == 2 {
      assert Join(parts[1..], c) == parts[1];
    }
  }

  /** With one to three pieces every dash becomes a slash. */
  lemma ReleaseDateFewPieces(releaseDate: string)
    requires |Split(releaseDate, '-')| <= 3
    ensures FormatReleaseDate(releaseDate) == ReplaceChar(releaseDate, '-', '/')
  {
    var parts := Split(releaseDate, '-');
    JoinFew(parts, '/');
    assert FormatReleaseDate(releaseDate) == Join(parts, '/');
    ReplaceJoin(parts, '-', '/');
  }

  /** With more pieces only the first is kept. */
  lemma ReleaseDateManyPieces(releaseDate: string)
    requires |Split(releaseDate, '-')| > 3
    ensures '-' in releaseDate
    ensures FormatReleaseDate(releaseDate) == releaseDate[..FirstIndex(releaseDate, '-')]
  {
    FormatOfManyPieces(releaseDate);
    SplitFirst(releaseDate, '-');
  }

  lemma FormatOfManyPieces(releaseDate: string)
    requires |Split(releaseDate, '-')| > 3
    ensures FormatReleaseDate(releaseDate) == Split(releaseDate, '-')[0]
  {
  }

  /** With at most two dashes ("YYYY-MM-DD", "YYYY-MM", "YYYY") every dash becomes a slash; with
      more, the text before the first dash is kept. */
  lemma ReleaseDateFormat(releaseDate: string)
    ensures CountChar(releaseDate, '-') <= 2 ==> FormatReleaseDate(releaseDate) == ReplaceChar(releaseDate, '-', '/')
    ensures CountChar(releaseDate, '-') > 2 ==> ('-' in releaseDate &&
      FormatReleaseDate(releaseDate) == releaseDate[..FirstIndex(releaseDate, '-')])
  {
    SplitCount(releaseDate, '-');
    if |Split(releaseDate, '-')| <= 3 {
      ReleaseDateFewPieces(releaseDate);
    } else {
      ReleaseDateManyPieces(releaseDate);
    }
  }
}
