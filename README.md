# SbclViewer track matching, modelled in Dafny

SbclViewer is a web application for the songs of seasonal anime. On the season view the user
marks each anime of a season (a "quarter" such as `2024q1`) as watched or unwatched, by swiping
its row or from a dialog, and can undo each change from a toast. On the playlist page the user
picks a season with watched anime. A track matcher then walks through that season's opening and
ending songs, searches the music catalogue (Spotify) for each, records exact matches
automatically, and lets the user pick, skip or go back for the rest. The decisions are kept as a
draft in the browser's local storage, shown on a confirmation screen, and finally turned into a
private Spotify playlist, either for one season or merged over several seasons. Signing in to
Spotify uses the authorisation-code flow with PKCE.

The Dafny project models that core:

- `TrackSearch`: the match classifier. It normalises strings, decides exact matches, and allows
  auto-matching only when there is exactly one exact candidate.
- `TrackName`: a song-title cleaner. No code shown here calls it; the search query is built
  from the raw song title.
- `TrackMatcher`: the matcher session. It is a class whose methods are the component's event
  handlers. The module also defines the draft records they produce and the duration and
  release-date formatters.
- `LocalStore`, `PlaylistDrafts`, `AnimeStatuses`: the shared local-storage store, with its
  snapshot cache and change notification, and the two hooks built on it.
- `QuarterHelper`: season names, merged playlist names and the season comparison.
- `QuarterSelector`, `TrackConfirmation`: the season list of the playlist page and the
  confirmation screen's partition into matched and skipped songs.
- `PlaylistPage`: the playlist page.
  - The song filter.
  - The page's state machine, a class.
  - Single and merged playlist creation. The merged one de-duplicates URIs with a loop.
- `HomePage`, `SwipeableItem`: the season view.
  - Season list, default season and navigation.
  - Tabs and counts.
  - Status changes with undo, and the swipe gesture.
- `Pkce`, `SpotifyClient`: PKCE random strings and base64url encoding, proved against a decoder.
  - Token storage, expiry and refresh.
  - The search query and result mapping.
  - Callback validation.
  - The requests that create and fill a playlist.

`Wrappers`, `Seqs` and `Strings` are helpers: `Option`/`Result`, filtering and de-duplication,
and the JavaScript string operations the core uses (`trim`, `split`, `join`, `replace`,
`padStart`, `parseInt`, lowercasing, code-unit order and `sort`).

Everything outside the program is a parameter:

- the catalogue's answer to a search (`SearchOutcome`);
- the token endpoint's answer (`TokenGrant`);
- random bytes and the SHA-256 digest;
- the current time;
- JSON serialisation and parsing (the codec functions of the stores).

Three behaviours of the code that a reader might not expect:

- An empty song list is accepted. The matcher shows no song and starts no search, and nothing
  rejects the construction.
- A failed search is not reported as retryable. `searchTrack` swallows the failure into an empty
  candidate list (src/hooks/useTrackSearch.ts:53-55), after which the matcher stalls, as the first
  finding below shows.
- The decision list need not be as long as the song list. Positions not yet visited are missing,
  and a single edit keeps whatever decisions it was given. The model uses a list with holes.

## Model

| member | source | states |
|---|---|---|
| TrackSearch.NormalizeString | src/hooks/useTrackSearch.ts:10-16 | the normal form contains no white space, `-`, `_`, corner bracket or upper-case letter, and is never longer than the input |
| TrackSearch.NormalizeIsNormalized | src/hooks/useTrackSearch.ts:10-16 | every character of the output is already folded and none would be removed |
| TrackSearch.NormalizeIdempotent | src/hooks/useTrackSearch.ts:10-16 | normalising a normal form changes nothing |
| TrackSearch.NormalizeAppend | src/hooks/useTrackSearch.ts:10-16 | normalisation distributes over concatenation |
| TrackSearch.NormalizeIgnoresInsertedSeparator | src/hooks/useTrackSearch.ts:13-15 | inserting a character that folds to a separator or corner bracket (full-width ones included) leaves the normal form unchanged |
| TrackSearch.NormalizeFoldEquivalent | src/hooks/useTrackSearch.ts:12-13 | strings that agree up to case and full-width/half-width form have equal normal forms |
| TrackSearch.ExactMatchIgnoresArtistWithoutQueryArtist | src/hooks/useTrackSearch.ts:21-29 | when the query has no artist (missing or empty), the match depends on the names alone, whatever the candidate's artist |
| TrackSearch.IsExactMatch | src/hooks/useTrackSearch.ts:21-29 | the names agree after normalisation and, when the query has a non-empty artist, so do the artists; its two cases are stated by ExactMatchIgnoresArtistWithoutQueryArtist and ExactMatchWithQueryArtist |
| TrackSearch.ExactMatchWithQueryArtist | src/hooks/useTrackSearch.ts:21-29 | with a non-empty query artist, an exact match iff both the names and the artists normalise equal |
| TrackSearch.ExactMatchIgnoresConfidence | src/hooks/useTrackSearch.ts:21-29 | the exact-match decision never looks at the confidence it will overwrite |
| TrackSearch.Classify | src/hooks/useTrackSearch.ts:49-52 | each candidate keeps its position and all other fields; its confidence becomes exact iff it matches exactly or already was exact, and otherwise stays as supplied |
| TrackSearch.ClassifyIdempotent | src/hooks/useTrackSearch.ts:49-52 | classifying a classified list changes nothing |
| TrackSearch.SearchTrack | src/hooks/useTrackSearch.ts:38-59 | a rejected catalogue call yields no candidates; a resolved one yields the classified candidates, one per result |
| TrackSearch.QueryFor | src/hooks/useTrackSearch.ts:41-44 | the query carries the song's raw title and artist, with no cleaning; SearchTrack states what the classification of its results gives |
| TrackSearch.CanAutoMatchIffUniqueExact | src/hooks/useTrackSearch.ts:65-68 | auto-matching is possible iff exactly one position holds an exact candidate (none and two or more both refuse) |
| TrackSearch.CanAutoMatch | src/hooks/useTrackSearch.ts:65-68 | the number of `exact` results is one; CanAutoMatchIffUniqueExact states this as a single position holding the only exact result |
| TrackSearch.FindExact | src/hooks/useTrackSearch.ts:75 | the first exact candidate, and none iff no candidate is exact |
| TrackSearch.GetAutoMatchResult | src/hooks/useTrackSearch.ts:73-76 | a result iff auto-matching is possible, and then the unique exact candidate |
| TrackSearch.ExampleNoQueryArtist | src/hooks/useTrackSearch.ts:24 | with no query artist, equal names are an exact match |
| TrackSearch.ExampleArtistMismatch | src/hooks/useTrackSearch.ts:26-28 | a query artist that differs from the candidate's refuses the match |
| TrackSearch.ExampleAutoMatchCounts | src/hooks/useTrackSearch.ts:65-68 | no exact candidate and two exact candidates both refuse auto-matching; one exact candidate allows it |
| TrackName.PrefixesStartDistinct | src/lib/music/trackName.ts:6-9 | the seven prefixes are non-empty and begin with pairwise different characters |
| TrackName.NoPrefixByInitial | src/lib/music/trackName.ts:6-9 | a title whose first character begins no prefix is left as it is |
| TrackName.NotTwoPrefixes | src/lib/music/trackName.ts:6-9 | no title starts with two different prefixes |
| TrackName.StripPrefix | src/lib/music/trackName.ts:6-9 | a title starting with one of the prefixes loses exactly that prefix; any other title is unchanged |
| TrackName.StripPrefixOnlyOnce | src/lib/music/trackName.ts:6-9 | the prefix is removed once, not repeatedly: a doubled prefix keeps its second copy |
| TrackName.BracketMatch | src/lib/music/trackName.ts:12 | the leftmost opening bracket that has a closing bracket after at least one character on the same line, with the nearest such closer (lazy `.+?`); none iff there is no such pair |
| TrackName.CleanTrackName | src/lib/music/trackName.ts:4-18 | the result is trimmed; when the de-prefixed title has a bracket match, it is the trimmed text inside the first one, and otherwise the trimmed de-prefixed title |
| TrackName.FirstMatchUnique | src/lib/music/trackName.ts:12-15 | the first bracket match is unique, so the cleaned name is well defined |
| TrackName.CleanPlainText | src/lib/music/trackName.ts:4-18 | a title with no prefix and no opening bracket is only trimmed |
| TrackName.CleanLeadingBracket | src/lib/music/trackName.ts:6-17 | a title made of a listed prefix or none, an opening bracket, a non-empty interior with no closer or line break, and any closer cleans to the trimmed interior, whatever follows; bracket kinds need not pair |
| TrackName.MixedBracketsMatch | src/lib/music/trackName.ts:12 | in "【A』B」" the match opens at 【 and ends at the first closer 』 |
| QuarterHelper.SeasonName | src/utils/quarterHelper.ts:8-15 | the season name is "不明" exactly when the season digit is not 1 to 4 (or is missing) |
| QuarterHelper.SplitQuarter | src/utils/quarterHelper.ts:7 | splitting "YYYYqN" at `q` gives the year and the season parts |
| QuarterHelper.QuarterToJapaneseName | src/utils/quarterHelper.ts:6-18 | a string without `q` is named as its own year with season "不明" |
| QuarterHelper.QuarterNameOf | src/utils/quarterHelper.ts:6-18 | "YYYYqN" is named "YYYY年<season>アニメ楽曲", with 1 giving 冬 and 4 giving 秋, and any other N giving 不明 |
| QuarterHelper.GenerateMergedPlaylistName | src/utils/quarterHelper.ts:25-32 | no seasons give "アニメ楽曲コレクション"; one season gives that season's name |
| QuarterHelper.MergedNameBounds | src/utils/quarterHelper.ts:34-39 | for two or more seasons, the name spans the smallest and the largest in code-unit order, both upper-cased |
| QuarterHelper.MergedNameOrderIndependent | src/utils/quarterHelper.ts:25-40 | the merged name depends only on the multiset of seasons, not on their order |
| QuarterHelper.ParseQuarterString | src/utils/quarterHelper.ts:47-54 | parsing "YYYYqN" written from two numbers gives back those numbers |
| QuarterHelper.ParseQuarter | src/utils/quarterHelper.ts:47-54 | a string without `q` has no season number (the NaN of `parseInt(undefined)`) |
| QuarterHelper.CompareParsed | src/utils/quarterHelper.ts:62-71 | a number only when the years are numbers; the year difference when they differ, else the season difference |
| QuarterHelper.CompareQuarters | src/utils/quarterHelper.ts:62-71 | `compareQuarters` on the two parsed strings; CompareQuarterStrings states the year-then-quarter order on well-formed strings and CompareZeroIff, CompareAntisymmetric and CompareTransitive its laws |
| QuarterHelper.CompareZeroIff | src/utils/quarterHelper.ts:62-71 | the comparison is zero exactly for equal, fully numeric seasons |
| QuarterHelper.CompareAntisymmetric | src/utils/quarterHelper.ts:62-71 | swapping the arguments negates the comparison |
| QuarterHelper.CompareTransitive | src/utils/quarterHelper.ts:62-71 | the order is transitive, and strictly so when either step is strict |
| QuarterHelper.CompareQuarterStrings | src/utils/quarterHelper.ts:62-71 | on well-formed season strings the comparison is year first, then season |
| AnimeStatuses.StatusOf | src/hooks/useAnimeStatuses.ts:66 | `statuses.get(id)` through `Wrappers.MapGet`: a status iff the id is a key, and then the stored one |
| AnimeStatuses.WithStatus | src/hooks/useAnimeStatuses.ts:68-74 | the new map gives the id the new status (none for `null`) and every other id its old status |
| AnimeStatuses.UndoRestores | src/hooks/useAnimeStatuses.ts:68-74 | writing back an id's previous status restores the map exactly |
| AnimeStatuses.LastWriteWins | src/hooks/useAnimeStatuses.ts:68-74 | two writes to the same id equal the second alone |
| AnimeStatuses.SetStatus | src/hooks/useAnimeStatuses.ts:68-76 | the store then holds the encoded new map, and one change notification was sent |
| LocalStore.SnapshotOfWritten | src/hooks/useAnimeStatuses.ts:36-39 | with a serialiser that its parser inverts, the snapshot of a written map is that map |
| LocalStore.SnapshotFallback | src/hooks/useAnimeStatuses.ts:36-46 | a missing, empty or unparsable stored value reads as the empty map |
| LocalStore.SyncedStore.constructor | src/hooks/useAnimeStatuses.ts:22-23 | the store starts with whatever is in local storage and nothing cached |
| LocalStore.SyncedStore.GetSnapshot | src/hooks/useAnimeStatuses.ts:25-47 | the snapshot is always the map the stored value denotes; on a cache hit nothing changes, otherwise the stored value and its map are cached |
| LocalStore.SyncedStore.Write | src/hooks/useAnimeStatuses.ts:57-63 | the store holds the encoded map, one notification is added, and the cache is untouched |
| LocalStore.SyncedStore.ExternalChange | src/hooks/useAnimeStatuses.ts:8-13 | another tab's write replaces the stored value without a same-tab notification or a cache update |
| LocalStore.ReadTwice | src/hooks/useAnimeStatuses.ts:29-32 | two reads in a row return the same map, and it is then cached |
| LocalStore.WriteThenRead | src/hooks/useAnimeStatuses.ts:57-63 | a read after a write returns the written map, although the cache was not updated by the write |
| PlaylistDrafts.SavedDrafts | src/hooks/usePlaylistDrafts.ts:68-75 | the season's entry becomes the draft with `updatedAt` set to now; the keys gain the season and nothing else |
| PlaylistDrafts.DeletedDrafts | src/hooks/usePlaylistDrafts.ts:81-85 | the season is no longer a key; the other keys are kept |
| PlaylistDrafts.GetDraft | src/hooks/usePlaylistDrafts.ts:77-79 | `drafts.get(quarter)` through `Wrappers.MapGet`: a draft iff the season is a key, and then its entry |
| Wrappers.MapGet | src/hooks/usePlaylistDrafts.ts:77-79 | `Map.get`: an entry iff the key is present, and then the stored value; both `getDraft` and the status lookup use it |
| PlaylistDrafts.SaveDeleteGet | src/hooks/usePlaylistDrafts.ts:68-85 | a saved draft reads back stamped, a deleted one reads as missing, and other seasons' drafts are unaffected by either |
| PlaylistDrafts.DeleteUndoesSave | src/hooks/usePlaylistDrafts.ts:68-85 | deleting a newly saved season restores the earlier drafts |
| PlaylistDrafts.GetAllDrafts | src/hooks/usePlaylistDrafts.ts:87-89 | one draft per key, each key once, the draft at a position being that key's entry; so exactly the map's values, as many as it has keys |
| PlaylistDrafts.SaveDraft | src/hooks/usePlaylistDrafts.ts:68-75 | the store holds the encoded copy of the render's map with the draft saved, with one notification |
| PlaylistDrafts.DeleteDraft | src/hooks/usePlaylistDrafts.ts:81-85 | the store holds the encoded copy of the render's map with the season removed, with one notification |
| PlaylistDrafts.LoadDraft | src/hooks/usePlaylistDrafts.ts:77-79 | reads the season's draft from the current snapshot without writing |
| PlaylistDrafts.SaveThenLoad | src/hooks/usePlaylistDrafts.ts:68-85 | after saving, the draft loads back stamped with now; after deleting, it loads as missing |
| TrackMatcher.SongsOf | src/components/playlist/TrackMatcher.tsx:93-97 | one entry per song of the anime, in order, carrying the anime's id and name |
| TrackMatcher.AllSongs | src/components/playlist/TrackMatcher.tsx:92-98 | the songs of every anime, anime by anime; AllSongsCount states that there are as many as the song counts add up to, AllSongsOrigin that each comes from its anime |
| TrackMatcher.AllSongsCount | src/components/playlist/TrackMatcher.tsx:92-100 | the matcher walks through as many songs as the anime have in total |
| TrackMatcher.AllSongsOrigin | src/components/playlist/TrackMatcher.tsx:92-98 | every entry's id, name and song come from one anime of the list |
| TrackMatcher.AssignAt | src/components/playlist/TrackMatcher.tsx:143-144 | the copy holds the decision at the index, grows with holes when the index is past the end, and keeps every other entry |
| TrackMatcher.AssignAtTwice | src/components/playlist/TrackMatcher.tsx:176-177 | deciding a song again replaces the earlier decision |
| TrackMatcher.AssignAtPreserves | src/components/playlist/TrackMatcher.tsx:176-177 | writing at most one past the end keeps the list free of holes, and well-formed decisions stay well formed |
| TrackMatcher.Present | src/components/playlist/TrackMatcher.tsx:84 | the initial decisions are taken over position for position |
| TrackMatcher.Clamp | src/components/playlist/TrackMatcher.tsx:110 | the start index is kept when it is on a song, clamped to the last song otherwise, and 0 when there are no songs |
| TrackMatcher.FindById | src/components/playlist/TrackMatcher.tsx:192 | the first candidate with the id, and none iff no candidate has it |
| TrackMatcher.AutoDraft | src/components/playlist/TrackMatcher.tsx:127-141 | a decision iff auto-matching is possible: `auto`, the unique exact candidate selected, all candidates kept |
| TrackMatcher.SelectionDraft | src/components/playlist/TrackMatcher.tsx:189-204 | selects the candidate with the id; `skipped` iff there is none, `auto` iff auto-matchable and that candidate is exact, `manual` otherwise |
| TrackMatcher.SelectingTheExactMatchesAuto | src/components/playlist/TrackMatcher.tsx:127-141 | picking the unique exact candidate by hand records what auto-matching records |
| TrackMatcher.SkipDraft | src/components/playlist/TrackMatcher.tsx:208-218 | `skipped`, no selection, all candidates kept |
| TrackMatcher.NoCandidatesHideActions | src/components/playlist/TrackMatcher.tsx:248 | with no candidates (a rejected or empty search) the song's content, and with it the skip button, is not shown |
| TrackMatcher.MatchingSession.constructor | src/components/playlist/TrackMatcher.tsx:83-111 | clamped start, initial decisions taken over, the first search under way when there is a song |
| TrackMatcher.MatchingSession.BeginSearch | src/components/playlist/TrackMatcher.tsx:117-124 | a search is in flight with no candidates, and the recorded selection is highlighted |
| TrackMatcher.MatchingSession.OnSearchResolved | src/components/playlist/TrackMatcher.tsx:124-168 | unless it came back, an auto-matchable song is recorded and the session completes or moves on while still searching; otherwise the candidates are shown and the back flag drops |
| TrackMatcher.MatchingSession.RecordAutoMatch | src/components/playlist/TrackMatcher.tsx:127-160 | the auto match is assigned at the current position only; the session completes on single edit or at the last song, else moves to the next position still searching, with no results shown |
| TrackMatcher.MatchingSession.Record | src/components/playlist/TrackMatcher.tsx:175-187 | records the decision, then completes (single edit or last song) or moves to the next song |
| TrackMatcher.MatchingSession.SelectTrack | src/components/playlist/TrackMatcher.tsx:189-206 | records the selection decision for the current song and completes or moves on; no current song changes nothing |
| TrackMatcher.MatchingSession.Skip | src/components/playlist/TrackMatcher.tsx:208-220 | records a skip for the current song and completes or moves on; no current song changes nothing |
| TrackMatcher.MatchingSession.Back | src/components/playlist/TrackMatcher.tsx:222-229 | at the first song nothing changes; otherwise the previous song is searched again, flagged as a return, with its recorded selection highlighted and no decision lost |
| TrackMatcher.BackThenResolve | src/components/playlist/TrackMatcher.tsx:127 | after going back, the previous song's candidates are always shown, even when it is auto-matchable |
| TrackMatcher.NoCandidatesStall | src/components/playlist/TrackMatcher.tsx:248 | a search with no candidates leaves the session idle with its buttons hidden |
| TrackMatcher.SkipAfterEmptySearch | src/components/playlist/TrackMatcher.tsx:208-220 | with the actions shown once a search settles, a song without candidates is skipped with no candidates recorded, and the matcher completes or moves on |
| TrackMatcher.JsRem | src/components/playlist/TrackMatcher.tsx:49 | JavaScript's `%`: the Euclidean remainder for non-negative operands, and always of magnitude below the divisor |
| TrackMatcher.FormatDurationOf | src/components/playlist/TrackMatcher.tsx:46-52 | minutes, a colon, and the seconds as exactly two digits |
| TrackMatcher.FormatDuration | src/components/playlist/TrackMatcher.tsx:46-52 | minutes, a colon and the padded seconds, with JavaScript's truncating `%`; FormatDurationOf states the `m:ss` form for non-negative durations |
| TrackMatcher.ReleaseDateFormat | src/components/playlist/TrackMatcher.tsx:57-70 | up to two dashes become slashes; with more, only the text before the first dash is kept |
| TrackMatcher.FormatReleaseDate | src/components/playlist/TrackMatcher.tsx:57-70 | two or three dash-separated pieces joined by slashes, else the first piece; ReleaseDateFewPieces and ReleaseDateManyPieces state both cases against the input text |
| TrackMatcher.ReleaseDateFewPieces | src/components/playlist/TrackMatcher.tsx:60-65 | one to three pieces are joined with slashes |
| TrackMatcher.ReleaseDateManyPieces | src/components/playlist/TrackMatcher.tsx:66-68 | more than three pieces keep only the first |
| QuarterSelector.WatchedNames | src/components/playlist/QuarterSelector.tsx:26-28 | a season is listed iff some watched anime with songs is in it |
| QuarterSelector.WatchedQuarters | src/components/playlist/QuarterSelector.tsx:24-30 | sorted, without repeats, and containing exactly the seasons with a watched anime that has songs |
| QuarterSelector.QuarterAnime | src/components/playlist/QuarterSelector.tsx:49-54 | exactly the season's watched anime with songs |
| QuarterSelector.TotalSongs | src/components/playlist/QuarterSelector.tsx:49-55 | the sum of the song counts of the season's watched anime with songs; OfferedSeasonHasSongs states it is positive for every offered season |
| QuarterSelector.OfferedSeasonHasSongs | src/components/playlist/QuarterSelector.tsx:24-55 | every offered season has at least one song |
| QuarterSelector.StatusOfDraft | src/components/playlist/QuarterSelector.tsx:58 | not created iff no draft; in progress iff a draft with no tracks; completed iff a draft with tracks |
| QuarterSelector.StatusTextDistinct | src/components/playlist/QuarterSelector.tsx:66-70 | the three statuses have three different labels |
| QuarterSelector.ButtonLabel | src/components/playlist/QuarterSelector.tsx:113 | "作成開始" exactly for a season without a draft, "編集" otherwise |
| QuarterSelector.MatchedCount | src/components/playlist/QuarterSelector.tsx:103 | at most the number of tracks, and equal to it iff every track has a selection |
| TrackConfirmation.MatchedSkippedPartition | src/components/playlist/TrackConfirmation.tsx:34-35 | matched and skipped tracks together are the tracks as a multiset, those with and those without a selection |
| TrackConfirmation.MatchedTracks | src/components/playlist/TrackConfirmation.tsx:34 | the tracks with a selection, in order; MatchedSkippedPartition states the partition |
| TrackConfirmation.SkippedTracks | src/components/playlist/TrackConfirmation.tsx:35 | the tracks without a selection, in order; MatchedSkippedPartition states the partition |
| TrackConfirmation.Positions | src/components/playlist/TrackConfirmation.tsx:104 | the increasing positions of the kept tracks, one per kept track |
| TrackConfirmation.MatchedEditIndex | src/components/playlist/TrackConfirmation.tsx:103-152 | editing the k-th matched track opens a position that holds that track, which has a selection |
| TrackConfirmation.SkippedEditIndex | src/components/playlist/TrackConfirmation.tsx:179-212 | editing the k-th skipped track opens a position that holds that track, which has no selection |
| TrackConfirmation.EditIndexCovers | src/components/playlist/TrackConfirmation.tsx:100-212 | every position is offered for editing in exactly one of the two lists |
| TrackConfirmation.MatchedBadge | src/components/playlist/TrackConfirmation.tsx:129-138 | "自動" iff auto, "手動" iff manual, no badge otherwise |
| PlaylistPage.FilterSongs | src/app/playlist/page.tsx:68-72 | `all` keeps every song; `oped` keeps exactly the songs whose trimmed type starts with op or ed in any case |
| PlaylistPage.IsOpEdKind | src/app/playlist/page.tsx:70 | the trimmed type starts with op or ed in any ASCII case; OpKindExample, EdKindExample, ShortKindIsNotOpEd, InsertSongIsNotOpEd and OpEdKindIgnoresLeadingSpace state its cases |
| PlaylistPage.FilterSongsAppend | src/app/playlist/page.tsx:68-72 | filtering distributes over concatenation |
| PlaylistPage.OpKindExample | src/app/playlist/page.tsx:70 | "OP" passes the filter |
| PlaylistPage.EdKindExample | src/app/playlist/page.tsx:70 | "ed2" passes the filter |
| PlaylistPage.ShortKindIsNotOpEd | src/app/playlist/page.tsx:70 | "O" does not pass |
| PlaylistPage.InsertSongIsNotOpEd | src/app/playlist/page.tsx:70 | "挿入歌" does not pass |
| PlaylistPage.OpEdKindIgnoresLeadingSpace | src/app/playlist/page.tsx:70 | leading white space does not change the decision |
| PlaylistPage.FilteredAnimeData | src/app/playlist/page.tsx:73-82 | every kept anime has songs, is an input anime with filtered songs, and every input anime with filtered songs is kept |
| PlaylistPage.FilteredAllDropsOnlySongless | src/app/playlist/page.tsx:73-82 | with filter `all`, only the anime without songs are dropped |
| PlaylistPage.QuarterAnimeList | src/app/playlist/page.tsx:305-310 | empty without a selected season or on the selector step; otherwise exactly the filtered watched anime of the season |
| PlaylistPage.SelectorTotalIsMatcherTotal | src/app/playlist/page.tsx:305-310 | the matcher walks through as many songs as the selector announced for the season |
| PlaylistPage.SelectedUrisAppend | src/app/playlist/page.tsx:167 | collecting URIs distributes over concatenation |
| PlaylistPage.SelectedUrisOfMatched | src/app/playlist/page.tsx:153-167 | one URI per matched track, in order, each that track's selection's URI |
| PlaylistPage.SelectedUris | src/app/playlist/page.tsx:167 | the URIs of the tracks with a selection, in draft order; SelectedUrisAppend and SelectedUrisOfMatched state it |
| PlaylistPage.CreatePlaylistPlan | src/app/playlist/page.tsx:148-173 | no draft: nothing; no matched track: the error; otherwise the matched URIs in order, the name "<season> アニメ主題歌" and the description with the count |
| PlaylistPage.NoneMatched | src/app/playlist/page.tsx:153-154 | no matched track iff no track has a selection |
| PlaylistPage.CollectFromDraft | src/app/playlist/page.tsx:229-234 | extends the de-duplicated URI list by one draft's selected URIs, the set mirroring the list |
| PlaylistPage.CollectMergedTracks | src/app/playlist/page.tsx:225-235 | the URIs are the selected URIs of all drafts without repeats in first-seen order, each with the first track that had it |
| PlaylistPage.SelectedDrafts | src/app/playlist/page.tsx:209-213 | the drafts of the selected seasons that have one, and empty iff none has |
| PlaylistPage.SortsAfterAsymmetric | src/utils/quarterHelper.ts:62-71 | no two seasons each compare greater than the other, also when a `parseInt` gives NaN |
| PlaylistPage.SortByQuarter | src/app/playlist/page.tsx:253 | a permutation of the selected seasons in which no season compares greater than the next one |
| PlaylistPage.SortByQuarterChronological | src/app/playlist/page.tsx:253-255 | when every selected season parses, each season of the sorted copy compares at most equal to every later one, so the description lists them chronologically |
| PlaylistPage.CreateMergedPlaylist | src/app/playlist/page.tsx:198-261 | the three errors in order (no season, no draft, no track); otherwise the unique URIs, the merged name of the seasons and the description listing the sorted seasons and the count |
| PlaylistPage.MergedUrisUnique | src/app/playlist/page.tsx:225-235 | the merged playlist has no repeated URI and loses none |
| PlaylistPage.ToggleSelection | src/app/playlist/page.tsx:289-299 | the season's membership flips, no other season's does, and there are still no repeats |
| PlaylistPage.ToggleTwice | src/app/playlist/page.tsx:289-299 | toggling twice restores the selection |
| PlaylistPage.StepForDraft | src/app/playlist/page.tsx:87-100 | confirmation iff a draft with tracks exists, the matcher otherwise |
| PlaylistPage.PageState.constructor | src/app/playlist/page.tsx:58-65 | the selector step, no season, no tracks, filter `oped`, start 0, nothing selected for merging |
| PlaylistPage.PageState.SelectQuarter | src/app/playlist/page.tsx:84-102 | the season is selected; an existing draft's tracks (and its filter, when set) are loaded, otherwise none; the step follows the draft |
| PlaylistPage.PageState.MatchingComplete | src/app/playlist/page.tsx:104-108 | the matcher's decisions become the tracks and the confirmation step is shown |
| PlaylistPage.PageState.EditTrack | src/app/playlist/page.tsx:142-146 | the matcher reopens at the index for a single edit |
| PlaylistPage.PageState.Cancel | src/app/playlist/page.tsx:127-140 | back to the selector; the selected season's draft, if any, is reloaded |
| PlaylistPage.PageState.Save | src/app/playlist/page.tsx:110-125 | without a season nothing happens; otherwise the draft of the tracks and filter is saved and the page returns to the selector with nothing selected |
| PlaylistPage.PageState.ToggleQuarterSelection | src/app/playlist/page.tsx:289-299 | the merge selection is toggled and nothing else changes |
| PlaylistPage.EditFromConfirmation | src/app/playlist/page.tsx:142-146 | editing a matched track opens a single-edit matcher on that very track's decision |
| HomePage.Quarters | src/app/page.tsx:50-53 | sorted, without repeats, exactly the seasons of the data |
| HomePage.DefaultQuarter | src/app/page.tsx:55-56 | 2010q1 when present, otherwise the last season, and "" for no seasons |
| HomePage.DefaultIsLatest | src/app/page.tsx:55-56 | without 2010q1 the default is the latest season |
| HomePage.SelectedQuarter | src/app/page.tsx:57 | the URL parameter when there is one (even an empty one), else the default |
| HomePage.SelectedWithoutParam | src/app/page.tsx:55-57 | without a parameter the selected season exists, or is "" when there are no seasons |
| HomePage.PreviousQuarter | src/app/page.tsx:96-101 | a previous season iff the selection is listed and not first |
| HomePage.NextQuarter | src/app/page.tsx:104-109 | an unknown selection goes to the first season; a listed one has a next season iff it is not the last |
| HomePage.NavigationInverse | src/app/page.tsx:96-109 | previous undoes next and next undoes previous |
| HomePage.NavigationOrder | src/app/page.tsx:96-109 | previous goes to an earlier season, next to a later one |
| HomePage.QuarterAnime | src/app/page.tsx:123-125 | exactly the season's anime that have songs |
| HomePage.TabAnime | src/app/page.tsx:128-137 | exactly the season's anime belonging on the tab |
| HomePage.ExactlyOneTab | src/app/page.tsx:128-137 | each anime belongs on exactly one tab |
| HomePage.TabCounts | src/app/page.tsx:151-155 | each count is its tab's length, and the three counts sum to the season's anime |
| HomePage.UnselectedCount | src/app/page.tsx:153 | the season's anime with no status; TabCounts states it is the unselected tab's length |
| HomePage.WatchedCount | src/app/page.tsx:154-155 | the season's anime marked watched; TabCounts states it is the watched tab's length |
| HomePage.UnwatchedCount | src/app/page.tsx:151-152 | the season's anime marked unwatched; TabCounts states it is the unwatched tab's length and that the three counts sum to the season's anime |
| HomePage.NamedSongsOf | src/app/page.tsx:144-147 | each song, in order, tagged with its anime's name |
| HomePage.WatchedAnime | src/app/page.tsx:140-141 | the season's anime on the watched tab, by TabAnime's contract exactly those marked watched |
| HomePage.AllSongs | src/app/page.tsx:143-148 | the watched anime's songs, anime after anime, each tagged with its anime's name; AllSongsContents states it |
| HomePage.AllSongsContents | src/app/page.tsx:140-148 | the song list has one entry per song of the watched anime, each from one of them |
| HomePage.SetStatusWithUndo | src/app/page.tsx:61-66 | the new map holds the change; the undo records the id and its previous status, and writing that back restores the map |
| HomePage.StatusLabel | src/app/page.tsx:69-70 | "視聴済み", "未視聴" and "未選択" name the three statuses, one each |
| HomePage.UndoAsWritten | src/app/page.tsx:77 | the undo writes back the whole map captured when the change was made |
| HomePage.Undo | src/app/page.tsx:77 | the id gets its previous status back; every other anime keeps its current status |
| HomePage.UndoRightAfter | src/app/page.tsx:61-86 | straight after a change, both undos restore the map from before it |
| HomePage.UndoAsWrittenLosesOtherChange | src/app/page.tsx:61-86 | an undo after another anime's status also changed erases that other change |
| HomePage.UndoKeepsOtherChanges | src/app/page.tsx:61-86 | the corrected undo keeps another anime's change made in between |
| HomePage.HandleSetStatus | src/app/page.tsx:61-66 | the store holds the changed map with one notification, and the undo action is returned |
| HomePage.HandleUndo | src/app/page.tsx:76-77 | the store holds the current map with the id's previous status restored |
| HomePage.HomeView.constructor | src/app/page.tsx:45-57 | the view opens on the unselected tab with the URL's parameter |
| HomePage.HomeView.SetSelectedQuarter | src/app/page.tsx:89-93 | the parameter is set, so that season is selected; the tab is kept |
| HomePage.HomeView.GoToPreviousQuarter | src/app/page.tsx:96-101 | moves to the previous season when there is one, otherwise nothing changes |
| HomePage.HomeView.GoToNextQuarter | src/app/page.tsx:104-109 | moves to the next season when there is one, otherwise nothing changes |
| HomePage.HomeView.SetTab | src/app/page.tsx:244 | the tab changes and the season does not |
| HomePage.ForwardThenBack | src/app/page.tsx:96-109 | next then previous returns to the selected season |
| SwipeableItem.DragEnd | src/components/SwipeableAnimeItem.tsx:45-68 | within 100 pixels nothing happens; on unselected, right gives watched and left unwatched; on watched only left acts and clears; on unwatched only right acts and clears |
| SwipeableItem.SwipeLeavesTab | src/components/SwipeableAnimeItem.tsx:45-68 | a swipe that acts always moves the anime off its tab |
| SwipeableItem.SwipeBack | src/components/SwipeableAnimeItem.tsx:45-68 | swiping back on the tab the anime landed on restores the statuses |
| SwipeableItem.IndicatorNamesActions | src/components/SwipeableAnimeItem.tsx:71-79 | each label is shown exactly when that direction acts, naming the status it applies |
| SwipeableItem.DirectionOnly | src/components/SwipeableAnimeItem.tsx:45-68 | past the threshold only the direction matters |
| Pkce.PossibleIsAlphanumeric | src/services/music/spotify/pkce.ts:10 | the alphabet has 62 characters, all letters and digits |
| Pkce.RandomString | src/services/music/spotify/pkce.ts:9-14 | one character per random byte, the alphabet's character at the byte modulo 62 |
| Pkce.RandomStringIsAlphanumeric | src/services/music/spotify/pkce.ts:9-14 | every character of a random string is an ASCII letter or digit |
| Pkce.CodeVerifier | src/services/music/spotify/pkce.ts:41-43 | 64 unreserved characters, within the 43 to 128 that section 4.1 of RFC 7636 allows |
| Pkce.State | src/services/music/spotify/pkce.ts:57-59 | 16 letters and digits, never empty |
| Pkce.Sextets | src/services/music/spotify/pkce.ts:35 | the 6-bit groups of the bytes, ceil(4n/3) of them |
| Pkce.Btoa | src/services/music/spotify/pkce.ts:35 | defined iff every character code is below 256 |
| Pkce.UrlEncoding | src/services/music/spotify/pkce.ts:29-36 | the unpadded base64url text, ceil(4n/3) characters from the URL-safe alphabet |
| Pkce.StripPadding | src/services/music/spotify/pkce.ts:35 | the input without its trailing run of `=` |
| Pkce.BinaryString | src/services/music/spotify/pkce.ts:31-34 | one character per byte, with the byte as its code |
| Pkce.Base64UrlEncode | src/services/music/spotify/pkce.ts:29-36 | `btoa`, the two replacements and the removed padding give exactly the base64url encoding |
| Pkce.CodeChallenge | src/services/music/spotify/pkce.ts:48-52 | the base64url encoding of the digest, 43 characters for SHA-256 |
| Pkce.UrlValueOfChar | src/services/music/spotify/pkce.ts:35 | each base64url character decodes to its value |
| Pkce.SextetsRoundTrip | src/services/music/spotify/pkce.ts:29-36 | regrouping the 6-bit groups gives back the bytes |
| Pkce.UrlRoundTrip | src/services/music/spotify/pkce.ts:29-36 | decoding the encoding gives back the bytes, so the challenge loses nothing of the digest |
| SpotifyClient.SearchQueryString | src/services/music/spotify/client.ts:279-281 | "track:" then the name, then " artist:" and the artist only when there is a non-empty artist |
| SpotifyClient.SearchQueryInjective | src/services/music/spotify/client.ts:279-281 | for names of the same length, equal queries have equal names and equal artists |
| SpotifyClient.ToResults | src/services/music/spotify/client.ts:302-309 | one result per track, in order, with id, name, URI, album, the artists joined by ", " and confidence partial |
| SpotifyClient.ToResult | src/services/music/spotify/client.ts:302-309 | one track's result, with the artists joined by ", " and confidence partial; ToResults states it per position |
| SpotifyClient.ArtistText | src/services/music/spotify/client.ts:305 | one artist is the name itself; each further artist adds ", " and its name |
| SpotifyClient.TokensFromExchange | src/services/music/spotify/client.ts:181-185 | the granted tokens, expiring `expires_in` seconds after now |
| SpotifyClient.TokensFromRefresh | src/services/music/spotify/client.ts:213-217 | the new access token and expiry; the new refresh token when one is sent and non-empty, the old one otherwise |
| SpotifyClient.ExpiryWindow | src/services/music/spotify/client.ts:230 | refreshed tokens count as expiring exactly from five minutes before their lifetime ends |
| SpotifyClient.IsExpiringSoon | src/services/music/spotify/client.ts:230 | less than five minutes (300000 ms) of the token's lifetime remain; ExpiryWindow and ExpiringStays state its consequences |
| SpotifyClient.ExpiringStays | src/services/music/spotify/client.ts:230 | tokens that are expiring stay expiring as time passes |
| SpotifyClient.RefreshKeepsRefreshToken | src/services/music/spotify/client.ts:215 | a refresh without a new refresh token keeps the old one |
| SpotifyClient.LoadTokens | src/services/music/spotify/client.ts:251-260 | nothing for a missing or empty entry; otherwise what parsing gives, none when it fails |
| SpotifyClient.AuthStorage.IsAuthenticated | src/services/music/spotify/client.ts:265-269 | tokens load from storage, that is, `loadTokens` is not null |
| SpotifyClient.CallbackCheck | src/services/music/spotify/client.ts:122-132 | succeeds with the verifier iff the saved state is present and equals the returned one and a verifier is saved; a state mismatch is "Invalid state parameter" |
| SpotifyClient.AuthStorage.constructor | src/services/music/spotify/client.ts:62-64 | nothing is stored |
| SpotifyClient.AuthStorage.Authenticate | src/services/music/spotify/client.ts:83-89 | this sign-in's verifier and state are saved; the tokens are untouched |
| SpotifyClient.AuthStorage.HandleAuthCallback | src/services/music/spotify/client.ts:120-152 | a failed check or exchange changes nothing and reports an error; success saves the exchanged tokens and clears the verifier and the state |
| SpotifyClient.AuthStorage.GetValidAccessToken | src/services/music/spotify/client.ts:223-239 | not signed in is "Not authenticated"; fresh tokens are returned unchanged; expiring tokens are refreshed, saved and the new access token returned, or a failed refresh changes nothing |
| SpotifyClient.SignInRoundTrip | src/services/music/spotify/client.ts:83-132 | the callback of the sign-in that was started passes the check and gets back that sign-in's verifier |
| SpotifyClient.SavedTokensLoad | src/services/music/spotify/client.ts:244-260 | saved tokens load back as they were |
| SpotifyClient.Chunks | src/services/music/spotify/client.ts:390-393 | the chunks concatenate to the URIs, none is empty, all but the last hold exactly 100, and there are none for no URIs |
| SpotifyClient.CreatePlaylistRequests | src/services/music/spotify/client.ts:327-349 | first the private playlist with its name and description ("" when missing), then the URIs in order in requests of at most 100, none when there are no URIs |

## Left out

- Normalisation: Unicode NFKC and lowercasing are modelled on the characters these titles use. NFKC covers full-width ASCII, half-width corner brackets and compatibility spaces; lowercasing covers ASCII A–Z and full-width Ａ–Ｚ only; accented letters such as É stay unchanged, though `toLowerCase` lowers them. The full Unicode tables are not modelled.
- TrackSearch.NormalizeIdempotent: holds for these tables only. With the full tables, "℡" lowercases to itself and NFKC then gives "TEL", which normalises again to "tel".
- Strings are sequences of characters compared by code point. For the ASCII and BMP text of season identifiers this is JavaScript's order of UTF-16 code units.
- Numbers are unbounded integers or reals. JavaScript's double precision and its NaN results are modelled as `None` where they matter (`parseInt`). Drag offsets are reals.
- `Pkce.RandomString`: the browser's random bytes are a parameter, and so is the SHA-256 digest of `crypto.subtle` (TextEncoder and SHA-256 are not modelled).
- All network I/O is left out. That covers the token endpoint, the user lookup, search, playlist creation and the redirect to the authorisation page, including the URL and its parameters. Their answers are parameters, and a failure is `None` or a rejected outcome. The error texts the server sends are not modelled.
- `SpotifyClient.Authenticate`: builds no authorisation URL and does not redirect; only the storage effects are modelled.
- `SpotifyClient.TokensFromExchange`: requires the token endpoint to return a refresh token, as the code assumes; the type of the stored tokens has no missing refresh token.
- `SpotifyClient.AuthStorage.GetValidAccessToken`: one `now` stands for both `Date.now()` calls (the expiry test and the new expiry).
- `SpotifyClient.SearchQueryInjective`: requires the two names to have the same length. The query string is not injective without it; the artist part " artist:X" can be read as part of a longer name.
- JSON serialisation is left out. The stores take the serialiser and the parser as parameters, and `SnapshotOf` only assumes the parser inverts the serialiser. Holes in a decision list, which JSON writes as `null`, are not modelled in storage. Inherited object keys in the season lookup of `quarterToJapaneseName` are not modelled.
- QuarterHelper.GenerateMergedPlaylistName: sorting a copy leaves the caller's array unmodified. The model works on values, so there is nothing to state.
- `PlaylistDrafts.GetAllDrafts`: the order of `Map.values()` is the insertion order of the keys. The model fixes some order of the keys and proves each key occurs once.
- `TrackConfirmation`: `indexOf` on a track object finds that object by identity, while the model works on values. It uses the track's position in the list, which coincides with identity for the lists the confirmation screen is given, where every entry is a separate object.
- `PlaylistPage.SortByQuarter`: `Array.prototype.sort(compareQuarters)` is modelled as a stable insertion sort. Chronological order is proved for seasons that parse. For a season whose `parseInt` gives NaN, `compareQuarters` is not a consistent comparator and the order the engine then returns is implementation-defined; the insertion sort is one admissible result, and for it the model promises only the permutation and that no season compares greater than the next.
- React scheduling is flattened into sequential method calls:
  - batched state updates;
  - effects;
  - `useSyncExternalStore` subscriptions;
  - the `isSearching` flag of `useTrackSearch`;
  - the notice naming the skipped song;
  - the effect that re-synchronises the decisions when `initialTracks` changes.
- Statuses read from storage are assumed to be valid status values.
- Toasts and their durations are left out. So are the anime detail dialog, animations, the colour mode, the audio preview, the toast text with the anime's name, the links between the pages (with `encodeURIComponent`), and the router itself. For navigation, only the `quarter` parameter is modelled.

## Findings

| source | as written | input that shows it | evidently intended | confidence | as-written member | corrected member |
|---|---|---|---|---|---|---|
| src/components/playlist/TrackMatcher.tsx:248 | the song card and the cancel, back and skip buttons are shown only when there are candidates (the buttons at lines 472-502). A song whose search fails or finds nothing leaves the matcher showing "検索中..." with no button. Its own "楽曲が見つかりませんでした" branch (lines 364-367) can never render, and only the page header's link out of the playlist mode remains. | a song whose catalogue search returns no result (or is rejected) | the skip and back actions stay available when the search has finished, whatever its result | not executed | TrackMatcher.NoCandidatesHideActions | TrackMatcher.SkipAfterEmptySearch |
| src/app/page.tsx:77 | the undo action calls the status setter of the render in which the change was made. That setter copies that render's map, so the undo writes back the whole map from before the change. Any status changed in the meantime is lost. | no statuses; mark "a" watched; mark "b" watched; undo the first toast: "b" loses its status | undo restores only the status of the anime it belongs to | not executed | HomePage.UndoAsWrittenLosesOtherChange | HomePage.UndoKeepsOtherChanges |
