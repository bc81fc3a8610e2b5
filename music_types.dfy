/** The interface between the app and a music-streaming catalogue: the query sent for one song
    and the candidates it returns. */
module MusicTypes {
  import opened Wrappers

  /** How well a candidate matches its query. The catalogue client only ever reports `Partial`;
      the match classifier upgrades candidates to `Exact`. */
  datatype Confidence = Exact | Partial | Low

  datatype TrackSearchQuery = TrackSearchQuery(trackName: string, artist: Option<string>)

  datatype TrackSearchResult = TrackSearchResult(
    id: string,
    name: string,
    artist: string,
    album: Option<string>,
    uri: string,
    confidence: Confidence,
    durationMs: Option<int>,
    releaseDate: Option<string>,
    previewUrl: Option<string>)

  datatype CreatePlaylistOptions = CreatePlaylistOptions(
    name: string,
    description: Option<string>,
    trackUris: seq<string>)

  /** What the catalogue's `searchTrack` promise settles to: its candidates or a rejection. */
  datatype SearchOutcome = Resolved(results: seq<TrackSearchResult>) | Rejected
}
