/** The match classifier of `useTrackSearch`: string normalisation, the exact-match rule, the
    confidence upgrade applied to the catalogue's candidates, and the auto-match decision. */
module TrackSearch {
  import opened Wrappers
  import opened Strings
  import opened AnimeTypes
  import opened MusicTypes
  import Seqs

  // ---------------------------------------------------------------------------------------------
  // Normalisation: lowercase, NFKC, drop white space / '-' / '_', drop the corner brackets

  /** Unicode NFKC on one character, restricted to the compatibility mappings that the titles of
      this catalogue exercise: full-width ASCII forms (U+FF01–U+FF5E) fold to ASCII, the
      half-width corner brackets ｢｣ fold to 「」, and the compatibility spaces fold to ' '. */
  function NfkcChar(c: char): char
  {
    if '\U{FF01}' <= c <= '\U{FF5E}' then (c as int - 0xFEE0) as char
    else if c == '\U{FF62}' then '「'
    else if c == '\U{FF63}' then '」'
    else if c == '\U{00A0}' || ('\U{2000}' <= c <= '\U{200A}') || c == '\U{202F}'
         || c == '\U{205F}' || c == '\U{3000}' then ' '
    else c
  }

  function Nfkc(s: string): (r: string)
    ensures |r| == |s| && forall i :: 0 <= i < |s| ==> r[i] == NfkcChar(s[i])
  {
    seq(|s|, i requires 0 <= i < |s| => NfkcChar(s[i]))
  }

  /** What lowercasing followed by NFKC makes of one character. */
  function FoldChar(c: char): (d: char)
    ensures !('A' <= d <= 'Z')
    ensures LowerChar(d) == d && NfkcChar(d) == d
  {
    NfkcChar(LowerChar(c))
  }

  /** The characters of `/[\s\-_]/`. */
  predicate IsSeparator(c: char) { IsJsWhitespace(c) || c == '-' || c == '_' }

  /** The characters of `/[「」『』【】]/`. */
  predicate IsCornerBracket(c: char) {
    c == '「' || c == '」' || c == '『' || c == '』' || c == '【' || c == '】'
  }

  predicate KeptAfterSeparators(c: char) { !IsSeparator(c) }

  predicate KeptAfterBrackets(c: char) { !IsCornerBracket(c) }

  /** `normalizeString`: the four steps in the order the source applies them. */
  function NormalizeString(s: string): (r: string)
    ensures forall i :: 0 <= i < |r| ==> !IsSeparator(r[i]) && !IsCornerBracket(r[i])
    ensures forall i :: 0 <= i < |r| ==> !('A' <= r[i] <= 'Z')
    ensures |r| <= |s|
  {
    var folded := Nfkc(ToLower(s));
    assert forall c :: c in folded ==> exists k :: 0 <= k < |s| && c == FoldChar(s[k]);
    Seqs.Filter(Seqs.Filter(folded, KeptAfterSeparators), KeptAfterBrackets)
  }

  /** A string that normalisation leaves as it is: every character is already folded and none
      of them is removed. */
  predicate IsNormalized(t: string) {
    forall i :: 0 <= i < |t| ==> FoldChar(t[i]) == t[i] && !IsSeparator(t[i]) && !IsCornerBracket(t[i])
  }

  lemma NormalizeNormalized(t: string)
    requires IsNormalized(t)
    ensures NormalizeString(t) == t
  {
    assert ToLower(t) == t;
    assert Nfkc(t) == t;
    Seqs.FilterAll(t, KeptAfterSeparators);
    Seqs.FilterAll(t, KeptAfterBrackets);
  }

  /** The output of normalisation is itself normalised. */
  lemma NormalizeIsNormalized(s: string)
    ensures IsNormalized(NormalizeString(s))
  {
    var folded := Nfkc(ToLower(s));
    var r := NormalizeString(s);
    forall i | 0 <= i < |r| ensures FoldChar(r[i]) == r[i] {
      assert r[i] in Seqs.Filter(folded, KeptAfterSeparators);
      assert r[i] in folded;
      var k :| 0 <= k < |folded| && folded[k] == r[i];
      assert r[i] == FoldChar(s[k]);
    }
  }

  /** Normalising twice is normalising once (for the character tables modelled here). */
  lemma NormalizeIdempotent(s: string)
    ensures NormalizeString(NormalizeString(s)) == NormalizeString(s)
  {
    NormalizeIsNormalized(s);
    NormalizeNormalized(NormalizeString(s));
  }

  /** Normalisation works character by character, so it distributes over concatenation. */
  lemma NormalizeAppend(a: string, b: string)
    ensures NormalizeString(a + b) == NormalizeString(a) + NormalizeString(b)
  {
    assert ToLower(a + b) == ToLower(a) + ToLower(b);
    assert Nfkc(ToLower(a + b)) == Nfkc(ToLower(a)) + Nfkc(ToLower(b));
    Seqs.FilterAppend(Nfkc(ToLower(a)), Nfkc(ToLower(b)), KeptAfterSeparators);
    Seqs.FilterAppend(Seqs.Filter(Nfkc(ToLower(a)), KeptAfterSeparators),
                      Seqs.Filter(Nfkc(ToLower(b)), KeptAfterSeparators), KeptAfterBrackets);
  }

  /** A single character normalises to its folded form, or to nothing when that is removed. */
  lemma NormalizeSingle(c: char)
    ensures NormalizeString([c]) ==
      if IsSeparator(FoldChar(c)) || IsCornerBracket(FoldChar(c)) then [] else [FoldChar(c)]
  {
    var folded := Nfkc(ToLower([c]));
    assert folded == [FoldChar(c)];
    assert folded[1..] == [];
    var kept := Seqs.Filter(folded, KeptAfterSeparators);
    assert kept == if IsSeparator(FoldChar(c)) then [] else [FoldChar(c)];
    if kept != [] {
      assert kept[1..] == [];
    }
  }

  /** Inserting a character that folds to white space, '-', '_' or a corner bracket anywhere
      (a space, "－", "｢", ...) does not change the normal form. */
  lemma NormalizeIgnoresInsertedSeparator(a: string, c: char, b: string)
    requires IsSeparator(FoldChar(c)) || IsCornerBracket(FoldChar(c))
    ensures NormalizeString(a + [c] + b) == NormalizeString(a + b)
  {
    NormalizeAppend(a + [c], b);
    NormalizeAppend(a, [c]);
    NormalizeAppend(a, b);
    NormalizeSingle(c);
  }

  /** Strings that agree character by character up to case and width have equal normal forms. */
  lemma NormalizeFoldEquivalent(s: string, t: string)
    requires |s| == |t| && forall i :: 0 <= i < |s| ==> FoldChar(s[i]) == FoldChar(t[i])
    ensures NormalizeString(s) == NormalizeString(t)
  {
    assert Nfkc(ToLower(s)) == Nfkc(ToLower(t));
  }

  // ---------------------------------------------------------------------------------------------
  // The exact-match rule

  /** `!query.artist`: the artist is missing or the empty string. */
  predicate HasArtist(query: TrackSearchQuery) {
    query.artist.Some? && query.artist.value != ""
  }

  /** `isExactMatch`: names agree after normalisation and, when the query names an artist,
      so do the artists. */
  predicate IsExactMatch(query: TrackSearchQuery, result: TrackSearchResult) {
    var trackMatch := NormalizeString(query.trackName) == NormalizeString(result.name);
    if !HasArtist(query) then trackMatch
    else trackMatch && NormalizeString(query.artist.value) == NormalizeString(result.artist)
  }

  /** Without a query artist the candidate's artist plays no part in the decision. */
  lemma ExactMatchIgnoresArtistWithoutQueryArtist(query: TrackSearchQuery, result: TrackSearchResult, other: string)
    requires !HasArtist(query)
    ensures IsExactMatch(query, result) == IsExactMatch(query, result.(artist := other))
    ensures IsExactMatch(query, result) <==> NormalizeString(query.trackName) == NormalizeString(result.name)
  {
  }

  /** With a query artist, both the names and the artists must agree after normalisation. */
  lemma ExactMatchWithQueryArtist(query: TrackSearchQuery, result: TrackSearchResult)
    requires HasArtist(query)
    ensures IsExactMatch(query, result) <==>
      NormalizeString(query.trackName) == NormalizeString(result.name)
      && NormalizeString(query.artist.value) == NormalizeString(result.artist)
  {
  }

  /** The decision looks only at names and artists, never at the supplied confidence. */
  lemma ExactMatchIgnoresConfidence(query: TrackSearchQuery, result: TrackSearchResult, c: Confidence)
    ensures IsExactMatch(query, result.(confidence := c)) == IsExactMatch(query, result)
  {
  }

  // ---------------------------------------------------------------------------------------------
  // Classification of the catalogue's candidates

  /** The confidence upgrade in `searchTrack`: each candidate keeps its position and every field
      but `confidence`, which becomes `Exact` when the candidate is an exact match and is
      otherwise left as the catalogue supplied it. */
  function Classify(query: TrackSearchQuery, results: seq<TrackSearchResult>): (r: seq<TrackSearchResult>)
    ensures |r| == |results|
    ensures forall i :: 0 <= i < |r| ==> r[i] == results[i].(confidence := r[i].confidence)
    ensures forall i :: 0 <= i < |r| ==>
      (r[i].confidence == Exact <==> IsExactMatch(query, results[i]) || results[i].confidence == Exact)
    ensures forall i :: 0 <= i < |r| && r[i].confidence != Exact ==> r[i].confidence == results[i].confidence
  {
    seq(|results|, i requires 0 <= i < |results| =>
      results[i].(confidence := if IsExactMatch(query, results[i]) then Exact else results[i].confidence))
  }

  /** Classifying an already classified list changes nothing. */
  lemma ClassifyIdempotent(query: TrackSearchQuery, results: seq<TrackSearchResult>)
    ensures Classify(query, Classify(query, results)) == Classify(query, results)
  {
    var once := Classify(query, results);
    var twice := Classify(query, once);
    forall i | 0 <= i < |once| ensures twice[i] == once[i] {
      ExactMatchIgnoresConfidence(query, results[i], once[i].confidence);
    }
  }

  /** The query `searchTrack` builds from a song. */
  function QueryFor(song: Song): TrackSearchQuery {
    TrackSearchQuery(song.trackName, song.artist)
  }

  /** `searchTrack`: the catalogue's candidates, classified; a rejected catalogue call is
      swallowed and yields no candidates. */
  function SearchTrack(song: Song, outcome: SearchOutcome): (r: seq<TrackSearchResult>)
    ensures outcome.Rejected? ==> r == []
    ensures outcome.Resolved? ==> |r| == |outcome.results|
    ensures outcome.Resolved? ==> forall i :: 0 <= i < |r| ==>
      (r[i].confidence == Exact <==> IsExactMatch(QueryFor(song), outcome.results[i]) || outcome.results[i].confidence == Exact)
  {
    match outcome
    case Rejected => []
    case Resolved(results) => Classify(QueryFor(song), results)
  }

  // ---------------------------------------------------------------------------------------------
  // The auto-match decision

  predicate IsExactCandidate(r: TrackSearchResult) { r.confidence == Exact }

  /** `canAutoMatch`: the candidates holding `Exact` number exactly one. */
  predicate CanAutoMatch(results: seq<TrackSearchResult>) {
    |Seqs.Filter(results, IsExactCandidate)| == 1
  }

  /** Exactly one position of the list holds an `Exact` candidate. */
  ghost predicate UniqueExactAt(results: seq<TrackSearchResult>, k: int) {
    0 <= k < |results| && results[k].confidence == Exact
    && forall j :: 0 <= j < |results| && results[j].confidence == Exact ==> j == k
  }

  lemma {:induction false} NoExactCount(results: seq<TrackSearchResult>)
    ensures |Seqs.Filter(results, IsExactCandidate)| == 0 <==>
      forall j :: 0 <= j < |results| ==> results[j].confidence != Exact
  {
    if results != [] {
      NoExactCount(results[1..]);
      assert forall j :: 1 <= j < |results| ==> results[j] == results[1..][j - 1];
    }
  }

  /** `canAutoMatch` holds exactly when a single position holds an `Exact` candidate:
      zero exact candidates and two or more are both refused. */
  lemma {:induction false} CanAutoMatchIffUniqueExact(results: seq<TrackSearchResult>)
    ensures CanAutoMatch(results) <==> exists k :: UniqueExactAt(results, k)
  {
    if results != [] {
      var tail := results[1..];
      CanAutoMatchIffUniqueExact(tail);
      NoExactCount(tail);
      assert forall j :: 1 <= j < |results| ==> results[j] == tail[j - 1];
      if results[0].confidence == Exact {
        if CanAutoMatch(results) {
          assert UniqueExactAt(results, 0);
        }
        if k :| UniqueExactAt(results, k) {
          assert k == 0;
          forall j | 0 <= j < |tail| ensures tail[j].confidence != Exact {
            assert results[j + 1] == tail[j];
          }
        }
      } else {
        if CanAutoMatch(results) {
          var k :| UniqueExactAt(tail, k);
          assert UniqueExactAt(results, k + 1);
        }
        if k :| UniqueExactAt(results, k) {
          assert k > 0;
          assert UniqueExactAt(tail, k - 1);
        }
      }
    }
  }

  /** `results.find(r => r.confidence === 'exact')`. */
  function FindExact(results: seq<TrackSearchResult>): (r: Option<TrackSearchResult>)
    ensures r.None? <==> forall j :: 0 <= j < |results| ==> results[j].confidence != Exact
    ensures r.Some? ==> r.value.confidence == Exact
    ensures r.Some? ==> exists k :: (0 <= k < |results| && results[k] == r.value
      && forall j :: 0 <= j < k ==> results[j].confidence != Exact)
  {
    if results == [] then None
    else if results[0].confidence == Exact then Some(results[0])
    else
      var r := FindExact(results[1..]);
      assert forall j :: 1 <= j < |results| ==> results[j] == results[1..][j - 1];
      r
  }

  /** `getAutoMatchResult`: the one exact candidate when auto-matching is possible, and none
      otherwise. */
  function GetAutoMatchResult(results: seq<TrackSearchResult>): (r: Option<TrackSearchResult>)
    ensures r.Some? <==> CanAutoMatch(results)
    ensures r.Some? ==> exists k :: UniqueExactAt(results, k) && results[k] == r.value
  {
    CanAutoMatchIffUniqueExact(results);
    if !CanAutoMatch(results) then None else FindExact(results)
  }

  // ---------------------------------------------------------------------------------------------
  // The documented examples

  /** Without a query artist only the names are compared. */
  lemma ExampleNoQueryArtist(candidate: TrackSearchResult)
    requires candidate.name == "Title"
    ensures IsExactMatch(TrackSearchQuery("Title", None), candidate)
  {
  }

  /** A query artist that differs from the candidate's refuses the match. */
  lemma ExampleArtistMismatch(candidate: TrackSearchResult)
    requires candidate.name == "Title" && candidate.artist == "Y"
    ensures !IsExactMatch(TrackSearchQuery("Title", Some("X")), candidate)
  {
    NormalizeLetter('X', 'x');
    NormalizeLetter('Y', 'y');
    ArtistMismatch(TrackSearchQuery("Title", Some("X")), candidate);
  }

  lemma NormalizeLetter(c: char, d: char)
    requires 'A' <= c <= 'Z' && d == (c as int + 32) as char
    ensures NormalizeString([c]) == [d]
  {
    NormalizeSingle(c);
  }

  /** Artists that differ after normalisation refuse the match. */
  lemma ArtistMismatch(query: TrackSearchQuery, result: TrackSearchResult)
    requires HasArtist(query) && NormalizeString(query.artist.value) != NormalizeString(result.artist)
    ensures !IsExactMatch(query, result)
  {
  }

  /** One exact candidate qualifies for auto-matching; none, or the same one twice, does not. */
  lemma ExampleAutoMatchCounts(candidate: TrackSearchResult)
    requires candidate.confidence == Exact
    ensures !CanAutoMatch([])
    ensures CanAutoMatch([candidate])
    ensures !CanAutoMatch([candidate, candidate])
  {
    assert !UniqueExactAt([candidate, candidate], 0);
    assert !UniqueExactAt([candidate, candidate], 1);
    CanAutoMatchIffUniqueExact([candidate, candidate]);
    assert UniqueExactAt([candidate], 0);
    CanAutoMatchIffUniqueExact([candidate]);
  }
}
