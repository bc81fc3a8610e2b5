/** `TrackConfirmation`: the recorded decisions split into the songs with a chosen catalogue track
    and the skipped ones, the summary counts, the re-select index of each row and its badge. */
module TrackConfirmation {
  import opened Wrappers
  import opened PlaylistTypes
  import Seqs

  predicate IsSkipped(t: DraftTrack) { !HasSelection(t) }

  /** `tracks.filter((t) => t.selectedTrack)`. */
  function MatchedTracks(tracks: seq<DraftTrack>): seq<DraftTrack> {
    Seqs.Filter(tracks, HasSelection)
  }

  /** `tracks.filter((t) => !t.selectedTrack)`. */
  function SkippedTracks(tracks: seq<DraftTrack>): seq<DraftTrack> {
    Seqs.Filter(tracks, IsSkipped)
  }

  /** The two lists split the decisions: the counts add up to the total, and together they hold
      every decision exactly as often as `tracks` does. */
  lemma {:induction false} MatchedSkippedPartition(tracks: seq<DraftTrack>)
    ensures |MatchedTracks(tracks)| + |SkippedTracks(tracks)| == |tracks|
    ensures multiset(MatchedTracks(tracks)) + multiset(SkippedTracks(tracks)) == multiset(tracks)
    ensures forall t :: t in MatchedTracks(tracks) ==> HasSelection(t)
    ensures forall t :: t in SkippedTracks(tracks) ==> !HasSelection(t)
  {
    if tracks != [] {
      MatchedSkippedPartition(tracks[1..]);
      assert tracks == [tracks[0]] + tracks[1..];
    }
  }

  /** The positions from `i` on, in `tracks`, of the decisions `p` keeps, in increasing order:
      the rows of a list as `tracks.indexOf(track)` locates them (each row is its own object, so
      the search finds that row's own position). */
  function PositionsFrom(tracks: seq<DraftTrack>, p: DraftTrack -> bool, i: nat): (r: seq<nat>)
    requires i <= |tracks|
    ensures |r| == |KeptFrom(tracks, p, i)|
    ensures forall k :: 0 <= k < |r| ==> i <= r[k] < |tracks| && tracks[r[k]] == KeptFrom(tracks, p, i)[k]
    ensures forall j :: i <= j < |tracks| && p(tracks[j]) ==> j in r
    decreases |tracks| - i
  {
    if i == |tracks| then []
    else
      var rest := PositionsFrom(tracks, p, i + 1);
      if p(tracks[i]) then
        PositionsCons(tracks, p, i, rest);
        [i] + rest
      else rest
  }

  /** The step of `PositionsFrom` for a kept decision at `i`. */
  lemma PositionsCons(tracks: seq<DraftTrack>, p: DraftTrack -> bool, i: nat, rest: seq<nat>)
    requires i < |tracks| && p(tracks[i])
    requires |rest| == |KeptFrom(tracks, p, i + 1)|
    requires forall k :: 0 <= k < |rest| ==> i + 1 <= rest[k] < |tracks| && tracks[rest[k]] == KeptFrom(tracks, p, i + 1)[k]
    requires forall j :: i + 1 <= j < |tracks| && p(tracks[j]) ==> j in rest
    ensures |[i] + rest| == |KeptFrom(tracks, p, i)|
    ensures forall k :: 0 <= k < |[i] + rest| ==> i <= ([i] + rest)[k] < |tracks| && tracks[([i] + rest)[k]] == KeptFrom(tracks, p, i)[k]
    ensures forall j :: i <= j < |tracks| && p(tracks[j]) ==> j in [i] + rest
  {
    var r, f, g := [i] + rest, KeptFrom(tracks, p, i), KeptFrom(tracks, p, i + 1);
    assert f == [tracks[i]] + g;
    forall k | 0 <= k < |r| ensures i <= r[k] < |tracks| && tracks[r[k]] == f[k] {
      if k > 0 { assert r[k] == rest[k - 1] && f[k] == g[k - 1]; }
    }
    forall j | i <= j < |tracks| && p(tracks[j]) ensures j in r {
      if j > i { assert j in rest; }
    }
  }

  /** The decisions from position `i` on that `p` keeps, in order. */
  function KeptFrom(tracks: seq<DraftTrack>, p: DraftTrack -> bool, i: nat): seq<DraftTrack>
    requires i <= |tracks|
    decreases |tracks| - i
  {
    if i == |tracks| then [] else (if p(tracks[i]) then [tracks[i]] else []) + KeptFrom(tracks, p, i + 1)
  }

  lemma {:induction false} KeptFromIsFilter(tracks: seq<DraftTrack>, p: DraftTrack -> bool, i: nat)
    requires i <= |tracks|
    ensures KeptFrom(tracks, p, i) == Seqs.Filter(tracks[i..], p)
    decreases |tracks| - i
  {
    if i < |tracks| {
      KeptFromIsFilter(tracks, p, i + 1);
      Seqs.FilterFrom(tracks, p, i);
    }
  }

  predicate Increasing(r: seq<nat>) {
    forall k, l :: 0 <= k < l < |r| ==> r[k] < r[l]
  }

  lemma IncreasingCons(i: nat, rest: seq<nat>)
    requires Increasing(rest) && forall k :: 0 <= k < |rest| ==> i < rest[k]
    ensures Increasing([i] + rest)
  {
    var r := [i] + rest;
    forall k, l | 0 <= k < l < |r| ensures r[k] < r[l] {
      assert r[l] == rest[l - 1];
      if k > 0 { assert r[k] == rest[k - 1]; }
    }
  }

  lemma PositionsFromStep(tracks: seq<DraftTrack>, p: DraftTrack -> bool, i: nat)
    requires i < |tracks|
    ensures PositionsFrom(tracks, p, i) == (if p(tracks[i]) then [i] else []) + PositionsFrom(tracks, p, i + 1)
  {
    if !p(tracks[i]) {
      assert [] + PositionsFrom(tracks, p, i + 1) == PositionsFrom(tracks, p, i + 1);
    }
  }

  /** The positions come in increasing order. */
  lemma {:induction false} PositionsFromIncreasing(tracks: seq<DraftTrack>, p: DraftTrack -> bool, i: nat)
    requires i <= |tracks|
    ensures Increasing(PositionsFrom(tracks, p, i))
    decreases |tracks| - i
  {
    if i < |tracks| {
      PositionsFromIncreasing(tracks, p, i + 1);
      PositionsFromStep(tracks, p, i);
      if p(tracks[i]) {
        IncreasingCons(i, PositionsFrom(tracks, p, i + 1));
      }
    }
  }

  function Positions(tracks: seq<DraftTrack>, p: DraftTrack -> bool): (r: seq<nat>)
    ensures |r| == |Seqs.Filter(tracks, p)|
    ensures forall k :: 0 <= k < |r| ==> r[k] < |tracks| && tracks[r[k]] == Seqs.Filter(tracks, p)[k]
    ensures Increasing(r)
    ensures forall j :: 0 <= j < |tracks| && p(tracks[j]) ==> j in r
  {
    assert tracks[0..] == tracks;
    KeptFromIsFilter(tracks, p, 0);
    PositionsFromIncreasing(tracks, p, 0);
    PositionsFrom(tracks, p, 0)
  }

  /** The index row `k` of the matched list passes to `onEditTrack`: a valid position of `tracks`
      holding that row's decision. */
  function MatchedEditIndex(tracks: seq<DraftTrack>, k: nat): (i: nat)
    requires k < |MatchedTracks(tracks)|
    ensures i < |tracks| && tracks[i] == MatchedTracks(tracks)[k] && HasSelection(tracks[i])
  {
    Positions(tracks, HasSelection)[k]
  }

  /** The index row `k` of the skipped list passes to `onEditTrack`. */
  function SkippedEditIndex(tracks: seq<DraftTrack>, k: nat): (i: nat)
    requires k < |SkippedTracks(tracks)|
    ensures i < |tracks| && tracks[i] == SkippedTracks(tracks)[k] && !HasSelection(tracks[i])
  {
    Positions(tracks, IsSkipped)[k]
  }

  /** Every position of `tracks` is reachable from exactly one of the two lists. */
  lemma EditIndexCovers(tracks: seq<DraftTrack>, i: nat)
    requires i < |tracks|
    ensures HasSelection(tracks[i]) ==> i in Positions(tracks, HasSelection) && i !in Positions(tracks, IsSkipped)
    ensures !HasSelection(tracks[i]) ==> i in Positions(tracks, IsSkipped) && i !in Positions(tracks, HasSelection)
  {
    var m, s := Positions(tracks, HasSelection), Positions(tracks, IsSkipped);
    if i in m {
      var k :| 0 <= k < |m| && m[k] == i;
      assert HasSelection(Seqs.Filter(tracks, HasSelection)[k]);
    }
    if i in s {
      var k :| 0 <= k < |s| && s[k] == i;
      assert IsSkipped(Seqs.Filter(tracks, IsSkipped)[k]);
    }
  }

  /** The badge of a row of the matched list: 自動 for an automatic decision, 手動 for a manual
      one, none otherwise. The skipped list shows no badge. */
  function MatchedBadge(t: DraftTrack): (r: Option<string>)
    ensures r == Some("自動") <==> t.matchStatus == Auto
    ensures r == Some("手動") <==> t.matchStatus == Manual
    ensures r.None? <==> t.matchStatus != Auto && t.matchStatus != Manual
  {
    if t.matchStatus == Auto then Some("自動")
    else if t.matchStatus == Manual then Some("手動")
    else None
  }
}
