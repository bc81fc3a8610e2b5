/** The catalogue client's own logic: the search query and the mapping of its results, the
    expiry test and the refresh of the access token, reading the saved tokens, the state check of
    the sign-in callback, and the hundred-URI chunks a playlist is filled in. The HTTP requests
    are left to parameters that stand for their outcome. */
module SpotifyClient {
  import opened Wrappers
  import opened Strings
  import opened MusicTypes
  import Pkce

  // ---------------------------------------------------------------------------------------------
  // Searching

  /** `track:<name> artist:<artist>` when the artist is given and non-empty, else `track:<name>`. */
  function SearchQueryString(query: TrackSearchQuery): (q: string)
    ensures |q| >= 6 + |query.trackName| && q[..6] == "track:" && q[6..6 + |query.trackName|] == query.trackName
    ensures query.artist.Some? && query.artist.value != "" ==>
      q[6 + |query.trackName|..] == " artist:" + query.artist.value
    ensures query.artist.None? || query.artist.value == "" ==> |q| == 6 + |query.trackName|
  {
    var prefix := "track:" + query.trackName;
    assert prefix[..6] == "track:" && prefix[6..] == query.trackName;
    if query.artist.Some? && query.artist.value != "" then
      var q := prefix + " artist:" + query.artist.value;
      assert q[..|prefix|] == prefix && q[|prefix|..] == " artist:" + query.artist.value;
      q
    else prefix
  }

  /** Two queries whose track names have the same length give the same search text only when
      they name the same track and the same artist (an absent artist and an empty one count as
      the same). Without the length condition a title containing " artist:" collides with a
      shorter title and an artist. */
  lemma SearchQueryInjective(a: TrackSearchQuery, b: TrackSearchQuery)
    requires SearchQueryString(a) == SearchQueryString(b)
    requires |a.trackName| == |b.trackName|
    ensures a.trackName == b.trackName
    ensures (a.artist.Some? && a.artist.value != "") == (b.artist.Some? && b.artist.value != "")
    ensures a.artist.Some? && a.artist.value != "" ==> a.artist == b.artist
  {
    var n := |a.trackName|;
    var q := SearchQueryString(a);
    if a.artist.Some? && a.artist.value != "" && b.artist.Some? && b.artist.value != "" {
      assert q[6 + n..] == " artist:" + a.artist.value == " artist:" + b.artist.value;
      assert a.artist.value == (" artist:" + a.artist.value)[8..];
      assert b.artist.value == (" artist:" + b.artist.value)[8..];
    }
  }

  /** An artist of a catalogue track (`{ name }`). */
  datatype SpotifyArtist = SpotifyArtist(name: string)

  /** A track of the search response. */
  datatype SpotifyTrack = SpotifyTrack(id: string, name: string, artists: seq<SpotifyArtist>, albumName: string, uri: string)

  function ArtistNames(artists: seq<SpotifyArtist>): (r: seq<string>)
    ensures |r| == |artists| && forall i :: 0 <= i < |r| ==> r[i] == artists[i].name
  {
    seq(|artists|, i requires 0 <= i < |artists| => artists[i].name)
  }

  /** One result: the artists' names joined with ", ", the album's name, and the confidence
      `partial`; the response carries no duration, release date or preview. */
  function ToResult(track: SpotifyTrack): TrackSearchResult {
    TrackSearchResult(track.id, track.name, JoinWith(ArtistNames(track.artists), ", "),
      Some(track.albumName), track.uri, Partial, None, None, None)
  }

  /** `data.tracks.items.map(...)`: one result per track, in the response's order, all `partial`
      (the exact/partial decision is the match classifier's). */
  function ToResults(items: seq<SpotifyTrack>): (r: seq<TrackSearchResult>)
    ensures |r| == |items|
    ensures forall i :: 0 <= i < |r| ==>
      (r[i].id == items[i].id && r[i].name == items[i].name && r[i].uri == items[i].uri
      && r[i].album == Some(items[i].albumName) && r[i].confidence == Partial
      && r[i].artist == JoinWith(ArtistNames(items[i].artists), ", "))
  {
    seq(|items|, i requires 0 <= i < |items| => ToResult(items[i]))
  }

  /** The artist text of one artist is its name; each further artist adds ", " and its name. */
  lemma {:induction false} ArtistText(artists: seq<SpotifyArtist>, last: SpotifyArtist)
    ensures JoinWith(ArtistNames([last]), ", ") == last.name
    ensures artists != [] ==>
      JoinWith(ArtistNames(artists + [last]), ", ") == JoinWith(ArtistNames(artists), ", ") + ", " + last.name
  {
    assert ArtistNames([last]) == [last.name];
    if artists != [] {
      JoinWithSnoc(ArtistNames(artists), last.name, ", ");
      assert ArtistNames(artists + [last]) == ArtistNames(artists) + [last.name];
    }
  }

  lemma {:induction false} JoinWithSnoc(parts: seq<string>, x: string, sep: string)
    requires parts != []
    ensures JoinWith(parts + [x], sep) == JoinWith(parts, sep) + sep + x
  {
    if |parts| == 1 {
      assert parts + [x] == [parts[0], x];
      assert JoinWith([x], sep) == x;
    } else {
      assert (parts + [x])[1..] == parts[1..] + [x];
      JoinWithSnoc(parts[1..], x, sep);
    }
  }

  // ---------------------------------------------------------------------------------------------
  // Tokens

  /** The saved tokens; `expiresAt` is a time in milliseconds. */
  datatype SpotifyTokens = SpotifyTokens(accessToken: string, refreshToken: string, expiresAt: int)

  /** The token endpoint's answer: `access_token`, `refresh_token` (absent as `None`) and
      `expires_in` in seconds. */
  datatype TokenGrant = TokenGrant(accessToken: string, refreshToken: Option<string>, expiresIn: int)

  /** Tokens are refreshed this long, in milliseconds, before they expire. */
  const RefreshMarginMs: int := 5 * 60 * 1000

  /** `tokens.expiresAt - Date.now() < 5 * 60 * 1000`. */
  predicate IsExpiringSoon(tokens: SpotifyTokens, now: int) {
    tokens.expiresAt - now < RefreshMarginMs
  }

  /** The tokens of a code exchange answered at `now`. */
  function TokensFromExchange(grant: TokenGrant, now: int): (r: SpotifyTokens)
    requires grant.refreshToken.Some?
    ensures r.accessToken == grant.accessToken && r.refreshToken == grant.refreshToken.value
    ensures r.expiresAt == now + grant.expiresIn * 1000
  {
    SpotifyTokens(grant.accessToken, grant.refreshToken.value, now + grant.expiresIn * 1000)
  }

  /** The tokens of a refresh answered at `now`: the refresh token of the answer when it has a
      non-empty one, else the one that was sent. */
  function TokensFromRefresh(grant: TokenGrant, sent: string, now: int): (r: SpotifyTokens)
    ensures r.accessToken == grant.accessToken && r.expiresAt == now + grant.expiresIn * 1000
    ensures grant.refreshToken.Some? && grant.refreshToken.value != "" ==> r.refreshToken == grant.refreshToken.value
    ensures grant.refreshToken.None? || grant.refreshToken.value == "" ==> r.refreshToken == sent
  {
    SpotifyTokens(grant.accessToken,
      if grant.refreshToken.Some? && grant.refreshToken.value != "" then grant.refreshToken.value else sent,
      now + grant.expiresIn * 1000)
  }

  /** Tokens granted at `issued` for `expiresIn` seconds are used as they are until five minutes
      before they expire and refreshed from then on. */
  lemma ExpiryWindow(grant: TokenGrant, sent: string, issued: int, now: int)
    ensures IsExpiringSoon(TokensFromRefresh(grant, sent, issued), now) <==>
      now > issued + grant.expiresIn * 1000 - RefreshMarginMs
  {
  }

  /** Once tokens are expiring soon they stay so. */
  lemma ExpiringStays(tokens: SpotifyTokens, now: int, later: int)
    requires IsExpiringSoon(tokens, now) && now <= later
    ensures IsExpiringSoon(tokens, later)
  {
  }

  /** Refreshing again with an answer that has no refresh token keeps the one in use. */
  lemma RefreshKeepsRefreshToken(tokens: SpotifyTokens, grant: TokenGrant, now: int)
    requires grant.refreshToken.None?
    ensures TokensFromRefresh(grant, tokens.refreshToken, now).refreshToken == tokens.refreshToken
  {
  }

  /** `loadTokens`: nothing for a missing or empty entry or one that does not parse, else the
      parsed tokens. */
  function LoadTokens(stored: Option<string>, parse: string -> Option<SpotifyTokens>): (r: Option<SpotifyTokens>)
    ensures stored.None? || stored.value == "" ==> r.None?
    ensures stored.Some? && stored.value != "" ==> r == parse(stored.value)
  {
    if stored.None? || stored.value == "" then None else parse(stored.value)
  }

  /** `handleAuthCallback`'s checks: the saved state must be present, non-empty and equal to the
      returned one, and a non-empty code verifier must be saved; the verifier is what the code is
      then exchanged with. */
  function CallbackCheck(savedState: Option<string>, state: string, savedVerifier: Option<string>): (r: Result<string, string>)
    ensures r.Ok? <==> savedState == Some(state) && state != "" && savedVerifier.Some? && savedVerifier.value != ""
    ensures r.Ok? ==> r.value == savedVerifier.value
    ensures !(savedState == Some(state) && state != "") ==> r == Err("Invalid state parameter")
  {
    if savedState.None? || savedState.value == "" || savedState.value != state then Err("Invalid state parameter")
    else if savedVerifier.None? || savedVerifier.value == "" then Err("Code verifier not found")
    else Ok(savedVerifier.value)
  }

  /** The browser storage the client keeps its three entries in. */
  class AuthStorage {
    /** `JSON.stringify` and `JSON.parse` of the tokens. */
    const encode: SpotifyTokens -> string
    const parse: string -> Option<SpotifyTokens>
    /** The entries `spotify_tokens`, `spotify_code_verifier` and `spotify_auth_state`. */
    var tokens: Option<string>
    var codeVerifier: Option<string>
    var authState: Option<string>

    constructor (encode: SpotifyTokens -> string, parse: string -> Option<SpotifyTokens>)
      ensures this.encode == encode && this.parse == parse
      ensures tokens.None? && codeVerifier.None? && authState.None?
    {
      this.encode := encode;
      this.parse := parse;
      tokens, codeVerifier, authState := None, None, None;
    }

    function Load(): Option<SpotifyTokens>
      reads this
    {
      LoadTokens(tokens, parse)
    }

    /** `isAuthenticated`. */
    predicate IsAuthenticated()
      reads this
    {
      Load().Some?
    }

    /** The storage half of `authenticate`: the verifier and the state of this sign-in are
        saved before the browser leaves for the authorisation page. */
    method Authenticate(verifierBytes: seq<Pkce.Byte>, stateBytes: seq<Pkce.Byte>)
      requires |verifierBytes| == 64 && |stateBytes| == 16
      modifies this
      ensures codeVerifier == Some(Pkce.CodeVerifier(verifierBytes)) && authState == Some(Pkce.State(stateBytes))
      ensures tokens == old(tokens)
    {
      codeVerifier := Some(Pkce.CodeVerifier(verifierBytes));
      authState := Some(Pkce.State(stateBytes));
    }

    /** `handleAuthCallback(code, state)`, with `exchange` the answer of the code exchange (`None`
        when it fails). On success the tokens are saved and both sign-in entries removed; on
        failure nothing changes. */
    method HandleAuthCallback(state: string, exchange: Option<TokenGrant>, now: int) returns (r: Result<(), string>)
      requires exchange.Some? ==> exchange.value.refreshToken.Some?
      modifies this
      ensures var check := CallbackCheck(old(authState), state, old(codeVerifier));
        (check.Err? ==> r == Err(check.error) && unchanged(this))
        && (check.Ok? && exchange.None? ==> r.Err? && unchanged(this))
        && (check.Ok? && exchange.Some? ==>
          (r == Ok(()) && tokens == Some(encode(TokensFromExchange(exchange.value, now)))
          && codeVerifier.None? && authState.None?))
    {
      var check := CallbackCheck(authState, state, codeVerifier);
      if check.Err? {
        return Err(check.error);
      }
      if exchange.None? {
        return Err("Token exchange failed");
      }
      tokens := Some(encode(TokensFromExchange(exchange.value, now)));
      codeVerifier := None;
      authState := None;
      r := Ok(());
    }

    /** `getValidAccessToken` at time `now`, with `refresh` the answer of the refresh request if
        one is made (`None` when it fails). */
    method GetValidAccessToken(now: int, refresh: Option<TokenGrant>) returns (r: Result<string, string>)
      modifies this
      ensures old(Load()).None? ==> r == Err("Not authenticated") && unchanged(this)
      ensures old(Load()).Some? && !IsExpiringSoon(old(Load()).value, now) ==>
        r == Ok(old(Load()).value.accessToken) && unchanged(this)
      ensures old(Load()).Some? && IsExpiringSoon(old(Load()).value, now) && refresh.None? ==>
        r.Err? && unchanged(this)
      ensures old(Load()).Some? && IsExpiringSoon(old(Load()).value, now) && refresh.Some? ==>
        (r == Ok(refresh.value.accessToken)
        && tokens == Some(encode(TokensFromRefresh(refresh.value, old(Load()).value.refreshToken, now))))
      ensures codeVerifier == old(codeVerifier) && authState == old(authState)
    {
      var current := Load();
      if current.None? {
        return Err("Not authenticated");
      }
      if !IsExpiringSoon(current.value, now) {
        return Ok(current.value.accessToken);
      }
      if refresh.None? {
        return Err("Token refresh failed");
      }
      var renewed := TokensFromRefresh(refresh.value, current.value.refreshToken, now);
      tokens := Some(encode(renewed));
      r := Ok(renewed.accessToken);
    }
  }

  /** A sign-in whose callback returns the state it sent gets past the state check. */
  lemma SignInRoundTrip(verifierBytes: seq<Pkce.Byte>, stateBytes: seq<Pkce.Byte>)
    requires |verifierBytes| == 64 && |stateBytes| == 16
    ensures CallbackCheck(Some(Pkce.State(stateBytes)), Pkce.State(stateBytes), Some(Pkce.CodeVerifier(verifierBytes)))
      == Ok(Pkce.CodeVerifier(verifierBytes))
  {
  }

  /** Under a JSON codec that reads back what it writes, saving tokens signs the user in, and the
      tokens read back are those saved. */
  lemma SavedTokensLoad(encode: SpotifyTokens -> string, parse: string -> Option<SpotifyTokens>, t: SpotifyTokens)
    requires encode(t) != "" && parse(encode(t)) == Some(t)
    ensures LoadTokens(Some(encode(t)), parse) == Some(t)
  {
  }

  // ---------------------------------------------------------------------------------------------
  // Filling a playlist

  /** Concatenation of chunks. */
  function Flatten(chunks: seq<seq<string>>): seq<string> {
    if chunks == [] then [] else Flatten(chunks[..|chunks| - 1]) + chunks[|chunks| - 1]
  }

  const ChunkSize: nat := 100

  /** The chunk loop of `addTracksToPlaylist`: slices of 100 URIs from the start, the last one
      holding what remains. */
  method Chunks(uris: seq<string>) returns (chunks: seq<seq<string>>)
    ensures Flatten(chunks) == uris
    ensures forall k :: 0 <= k < |chunks| ==> 0 < |chunks[k]| <= ChunkSize
    ensures forall k :: 0 <= k < |chunks| - 1 ==> |chunks[k]| == ChunkSize
    ensures chunks == [] <==> uris == []
  {
    chunks := [];
    var i := 0;
    while i < |uris|
      invariant i == ChunkSize * |chunks|
      invariant i <= |uris| ==> Flatten(chunks) == uris[..i]
      invariant i > |uris| ==> Flatten(chunks) == uris && |uris| > 0
      invariant forall k :: 0 <= k < |chunks| ==> 0 < |chunks[k]| <= ChunkSize
      invariant forall k :: 0 <= k < |chunks| - 1 ==> |chunks[k]| == ChunkSize
      invariant i < |uris| ==> forall k :: 0 <= k < |chunks| ==> |chunks[k]| == ChunkSize
      decreases |uris| - i
    {
      var end := if i + ChunkSize <= |uris| then i + ChunkSize else |uris|;
      var chunk := uris[i..end];
      assert Flatten(chunks + [chunk]) == Flatten(chunks) + chunk by {
        assert (chunks + [chunk])[..|chunks|] == chunks;
      }
      assert uris[..i] + uris[i..end] == uris[..end];
      chunks := chunks + [chunk];
      i := i + ChunkSize;
      if end == |uris| {
        assert uris[..end] == uris;
      }
    }
    if uris == [] {
      assert chunks == [];
    }
  }

  /** A request `createPlaylist` sends after the user lookup: the playlist itself, or one chunk
      of its tracks. */
  datatype Request = CreateRequest(name: string, description: string, isPublic: bool) | AddRequest(uris: seq<string>)

  /** The URIs the add requests carry, in the order they are sent. */
  function AddedUris(requests: seq<Request>): seq<string> {
    if requests == [] then []
    else
      var last := requests[|requests| - 1];
      AddedUris(requests[..|requests| - 1]) + (if last.AddRequest? then last.uris else [])
  }

  lemma {:induction false} AddedUrisOfChunks(chunks: seq<seq<string>>, adds: seq<Request>)
    requires |adds| == |chunks| && forall k :: 0 <= k < |chunks| ==> adds[k] == AddRequest(chunks[k])
    ensures AddedUris(adds) == Flatten(chunks)
  {
    if chunks != [] {
      AddedUrisOfChunks(chunks[..|chunks| - 1], adds[..|adds| - 1]);
    }
  }

  /** `createPlaylist`: a private playlist with the given name and description (an empty one when
      missing), then the playlist's URIs in order, in requests of at most 100, and no add request
      for a playlist without tracks. */
  method CreatePlaylistRequests(options: CreatePlaylistOptions) returns (requests: seq<Request>)
    ensures |requests| >= 1 && requests[0] == CreateRequest(options.name, options.description.GetOr(""), false)
    ensures |requests| == 1 <==> options.trackUris == []
    ensures forall k :: 1 <= k < |requests| ==> requests[k].AddRequest? && 0 < |requests[k].uris| <= ChunkSize
    ensures AddedUris(requests[1..]) == options.trackUris
  {
    requests := [CreateRequest(options.name, options.description.GetOr(""), false)];
    if |options.trackUris| > 0 {
      var chunks := Chunks(options.trackUris);
      var adds := seq(|chunks|, k requires 0 <= k < |chunks| => AddRequest(chunks[k]));
      AddedUrisOfChunks(chunks, adds);
      requests := requests + adds;
      assert requests[1..] == adds;
    }
  }
}
