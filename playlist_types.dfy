/** The per-season playlist draft: one matching decision per song, persisted between visits. */
module PlaylistTypes {
  import opened Wrappers
  import opened AnimeTypes
  import opened MusicTypes

  /** `Pending` belongs to the declared type but no operation of the app produces it. */
  datatype MatchStatus = Auto | Manual | Pending | Skipped

  /** The decision recorded for one song. `candidates` is optional in the declared type; every
      decision the app records carries it, so it is a plain list here. */
  datatype DraftTrack = DraftTrack(
    animeId: string,
    animeName: string,
    song: Song,
    matchStatus: MatchStatus,
    selectedTrack: Option<TrackSearchResult>,
    candidates: seq<TrackSearchResult>)

  /** Which songs of an anime go into a playlist: all of them, or openings and endings only. */
  datatype SongFilterMode = All | OpEd

  /** `songFilter` is read and written by the playlist page although the declared type lacks
      it, so it is optional. Timestamps are ISO-8601 strings. */
  datatype PlaylistDraft = PlaylistDraft(
    quarter: string,
    createdAt: string,
    updatedAt: string,
    tracks: seq<DraftTrack>,
    songFilter: Option<SongFilterMode>)

  predicate HasSelection(t: DraftTrack) { t.selectedTrack.Some? }

  /** A decision is consistent when the track it selected is one of the candidates it kept. */
  predicate WellFormedTrack(t: DraftTrack) {
    t.selectedTrack.Some? ==> t.selectedTrack.value in t.candidates
  }
}
