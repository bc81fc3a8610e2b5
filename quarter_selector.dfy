/** `QuarterSelector`: the seasons offered for a new playlist, with each season's song total and
    the status of its saved draft. */
module QuarterSelector {
  import opened Wrappers
  import opened Strings
  import opened AnimeTypes
  import opened PlaylistTypes
  import opened AnimeStatuses
  import Seqs

  /** The anime the selector counts: watched, with at least one song. */
  predicate IsWatchedWithSongs(statuses: StatusMap, anime: Anime) {
    StatusOf(statuses, anime.id) == Some(Watched) && |anime.songs| > 0
  }

  function WatchedWithSongs(animeData: seq<Anime>, statuses: StatusMap): seq<Anime> {
    Seqs.Filter(animeData, (a: Anime) => IsWatchedWithSongs(statuses, a))
  }

  /** `.map((anime) => anime.quarter)`. */
  function QuarterNames(animeList: seq<Anime>): (r: seq<string>)
    ensures |r| == |animeList| && forall i :: 0 <= i < |r| ==> r[i] == animeList[i].quarter
  {
    seq(|animeList|, i requires 0 <= i < |animeList| => animeList[i].quarter)
  }

  /** The seasons named by the watched anime with songs are exactly the seasons of such anime. */
  lemma WatchedNames(animeData: seq<Anime>, statuses: StatusMap, q: string)
    ensures q in QuarterNames(WatchedWithSongs(animeData, statuses)) <==>
      exists a :: a in animeData && IsWatchedWithSongs(statuses, a) && a.quarter == q
  {
    var watched := WatchedWithSongs(animeData, statuses);
    var names := QuarterNames(watched);
    if q in names {
      var i :| 0 <= i < |names| && names[i] == q;
      assert watched[i] in animeData && IsWatchedWithSongs(statuses, watched[i]);
    }
    if a :| a in animeData && IsWatchedWithSongs(statuses, a) && a.quarter == q {
      var i :| 0 <= i < |watched| && watched[i] == a;
      assert names[i] == q;
    }
  }

  /** `watchedQuarters`: ascending, without repeats, and exactly the seasons that hold a watched
      anime with songs. */
  function WatchedQuarters(animeData: seq<Anime>, statuses: StatusMap): (r: seq<string>)
    ensures Sorted(r) && Seqs.Distinct(r)
    ensures forall q :: q in r <==> exists a :: a in animeData && IsWatchedWithSongs(statuses, a) && a.quarter == q
  {
    var names := QuarterNames(WatchedWithSongs(animeData, statuses));
    var r := SortedDistinct(names);
    assert forall q :: q in r <==> q in names;
    forall q ensures q in names <==> exists a :: a in animeData && IsWatchedWithSongs(statuses, a) && a.quarter == q {
      WatchedNames(animeData, statuses, q);
    }
    r
  }

  /** `quarterAnime`: the season's watched anime with songs, in catalogue order. */
  function QuarterAnime(animeData: seq<Anime>, statuses: StatusMap, quarter: string): (r: seq<Anime>)
    ensures forall i :: 0 <= i < |r| ==> r[i] in animeData && r[i].quarter == quarter && IsWatchedWithSongs(statuses, r[i])
    ensures forall a :: a in animeData && a.quarter == quarter && IsWatchedWithSongs(statuses, a) ==> a in r
  {
    Seqs.Filter(animeData, (a: Anime) => a.quarter == quarter && IsWatchedWithSongs(statuses, a))
  }

  /** `totalSongs`: the season's song count. */
  function TotalSongs(animeData: seq<Anime>, statuses: StatusMap, quarter: string): nat
  {
    Seqs.SumOf(QuarterAnime(animeData, statuses, quarter), SongCount)
  }

  /** Every offered season has at least one song. */
  lemma {:induction false} OfferedSeasonHasSongs(animeData: seq<Anime>, statuses: StatusMap, quarter: string)
    requires quarter in WatchedQuarters(animeData, statuses)
    ensures TotalSongs(animeData, statuses, quarter) > 0
  {
    var a :| a in animeData && IsWatchedWithSongs(statuses, a) && a.quarter == quarter;
    SumPositive(QuarterAnime(animeData, statuses, quarter), a);
  }

  lemma {:induction false} SumPositive(xs: seq<Anime>, a: Anime)
    requires a in xs && |a.songs| > 0
    ensures Seqs.SumOf(xs, SongCount) > 0
  {
    if xs[0] != a {
      SumPositive(xs[1..], a);
    }
  }

  /** The status of a season's draft: none, one without tracks, one with tracks. */
  datatype DraftStatus = NotCreated | InProgress | Completed

  function StatusOfDraft(draft: Option<PlaylistDraft>): (r: DraftStatus)
    ensures r == NotCreated <==> draft.None?
    ensures r == InProgress <==> draft.Some? && |draft.value.tracks| == 0
    ensures r == Completed <==> draft.Some? && |draft.value.tracks| > 0
  {
    match draft
    case None => NotCreated
    case Some(d) => if |d.tracks| > 0 then Completed else InProgress
  }

  /** The badge text of each status. */
  function StatusText(status: DraftStatus): string {
    match status
    case NotCreated => "未作成"
    case InProgress => "作成中"
    case Completed => "完了"
  }

  /** The label of the season's button. */
  function ButtonLabel(status: DraftStatus): (r: string)
    ensures r == "作成開始" <==> status == NotCreated
    ensures r != "作成開始" ==> r == "編集"
  {
    if status == NotCreated then "作成開始" else "編集"
  }

  /** The three statuses have three different badge texts. */
  lemma StatusTextDistinct(a: DraftStatus, b: DraftStatus)
    ensures StatusText(a) == StatusText(b) <==> a == b
  {
  }

  /** The number of a draft's tracks with a chosen catalogue track. */
  function MatchedCount(draft: PlaylistDraft): (r: nat)
    ensures r <= |draft.tracks|
    ensures r == |draft.tracks| <==> forall i :: 0 <= i < |draft.tracks| ==> HasSelection(draft.tracks[i])
  {
    MatchedAll(draft.tracks);
    |Seqs.Filter(draft.tracks, HasSelection)|
  }

  lemma {:induction false} MatchedAll(tracks: seq<DraftTrack>)
    ensures |Seqs.Filter(tracks, HasSelection)| == |tracks| <==> forall i :: 0 <= i < |tracks| ==> HasSelection(tracks[i])
  {
    if tracks != [] {
      MatchedAll(tracks[1..]);
      assert forall i :: 1 <= i < |tracks| ==> tracks[i] == tracks[1..][i - 1];
    }
  }
}
