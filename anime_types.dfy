/** The catalogue data: anime of a broadcast season ("quarter", written like `2024q1`) and their
    theme songs, and the viewing status a user assigns to an anime. */
module AnimeTypes {
  import opened Wrappers

  datatype Song = Song(
    kind: string,               // the free-text `type`: "OP", "ED", "挿入歌", ...
    trackName: string,
    lyrics: Option<string>,
    composer: Option<string>,
    arranger: Option<string>,
    artist: Option<string>)

  datatype Anime = Anime(
    id: string,
    name: string,
    quarter: string,
    url: string,
    imageUrl: Option<string>,
    songs: seq<Song>)

  /** The number of songs of an anime. */
  function SongCount(anime: Anime): nat { |anime.songs| }

  datatype AnimeStatus = Watched | Unwatched

  /** The three tabs of the season view; `Unselected` lists anime without a status. */
  datatype ViewTab = UnwatchedTab | UnselectedTab | WatchedTab
}
