/** `cleanTrackName`: strip one of the fixed Japanese role prefixes, keep the interior of the first
    bracketed part, and trim. */
module TrackName {
  import opened Wrappers
  import opened Strings

  /** The alternatives of `/^(オープニングテーマ|エンディングテーマ|挿入歌|主題歌|イメージソング|キャラクターソング|劇中歌)/`, in order. */
  const Prefixes: seq<string> := ["オープニングテーマ", "エンディングテーマ", "挿入歌", "主題歌",
                                  "イメージソング", "キャラクターソング", "劇中歌"]

  /** No two listed prefixes start with the same character, so at most one of them can begin a
      given string and the order of the alternation never matters. */
  lemma PrefixesStartDistinct()
    ensures forall m :: 0 <= m < |Prefixes| ==> |Prefixes[m]| > 0
    ensures forall m, n :: 0 <= m < n < |Prefixes| ==> Prefixes[m][0] != Prefixes[n][0]
  {
  }

  /** A string whose first character begins none of the prefixes is left alone. */
  lemma NoPrefixByInitial(s: string)
    requires s != [] && s[0] !in "オエ挿主イキ劇"
    ensures StripPrefix(s) == s
  {
    assert forall m :: 0 <= m < |Prefixes| ==> Prefixes[m][0] in "オエ挿主イキ劇";
  }

  lemma NotTwoPrefixes(s: string, m: nat, n: nat)
    requires m < n < |Prefixes|
    ensures !(Prefixes[m] <= s) || !(Prefixes[n] <= s)
  {
    PrefixesStartDistinct();
    if Prefixes[m] <= s {
      assert s[0] == Prefixes[m][0];
    }
  }

  lemma NoLaterPrefix(s: string, n: nat)
    requires n < |Prefixes| && Prefixes[n] <= s
    ensures forall m :: n < m < |Prefixes| ==> !(Prefixes[m] <= s)
  {
    forall m | n < m < |Prefixes| ensures !(Prefixes[m] <= s) {
      NotTwoPrefixes(s, n, m);
    }
  }

  /** The prefix replacement, trying the alternatives from position `n` on. */
  function StripPrefixFrom(s: string, n: nat): (r: string)
    requires n <= |Prefixes|
    ensures forall m :: n <= m < |Prefixes| && Prefixes[m] <= s ==> r == s[|Prefixes[m]|..]
    ensures (forall m :: n <= m < |Prefixes| ==> !(Prefixes[m] <= s)) ==> r == s
    decreases |Prefixes| - n
  {
    if n == |Prefixes| then s
    else if Prefixes[n] <= s then
      NoLaterPrefix(s, n);
      s[|Prefixes[n]|..]
    else StripPrefixFrom(s, n + 1)
  }

  /** Removes the listed prefix `s` begins with, once and only at position 0; any other string is
      returned unchanged. */
  function StripPrefix(s: string): (r: string)
    ensures forall m :: 0 <= m < |Prefixes| && Prefixes[m] <= s ==> r == s[|Prefixes[m]|..]
    ensures (forall m :: 0 <= m < |Prefixes| ==> !(Prefixes[m] <= s)) ==> r == s
  {
    StripPrefixFrom(s, 0)
  }

  /** A repeated prefix is removed only once. */
  lemma StripPrefixOnlyOnce(m: nat, rest: string)
    requires m < |Prefixes|
    ensures StripPrefix(Prefixes[m] + rest) == rest
    ensures StripPrefix(Prefixes[m] + Prefixes[m] + rest) == Prefixes[m] + rest
  {
    assert Prefixes[m] <= Prefixes[m] + rest;
    assert Prefixes[m] <= Prefixes[m] + Prefixes[m] + rest;
    assert (Prefixes[m] + Prefixes[m] + rest)[|Prefixes[m]|..] == Prefixes[m] + rest;
  }

  // ---------------------------------------------------------------------------------------------
  // The bracket match `/[「『【](.+?)[」』】]/`

  predicate IsOpener(c: char) { c == '「' || c == '『' || c == '【' }

  predicate IsCloser(c: char) { c == '」' || c == '』' || c == '】' }

  /** The pattern matches `s[i..k + 1]`: an opener at `i`, a closer at `k`, and between them a
      non-empty stretch of characters that `.` accepts. */
  ghost predicate IsMatchAt(s: string, i: int, k: int) {
    0 <= i && i + 2 <= k < |s| && IsOpener(s[i]) && IsCloser(s[k])
    && forall m :: i < m < k ==> !IsLineTerminator(s[m])
  }

  /** The match the regular-expression engine reports: the leftmost start, and for that start the
      shortest interior (the quantifier is lazy). */
  ghost predicate IsFirstMatch(s: string, i: int, k: int) {
    IsMatchAt(s, i, k)
    && (forall i', k' :: 0 <= i' < i && IsMatchAt(s, i', k') ==> false)
    && (forall k' :: k' < k && IsMatchAt(s, i, k') ==> false)
  }

  /** The lazy scan for a closer, from position `j`, for the opener at `i`. */
  function FindClose(s: string, i: nat, j: nat): (r: Option<nat>)
    requires i + 2 <= j && i < |s| && IsOpener(s[i])
    requires forall m :: i < m < j && m < |s| ==> !IsLineTerminator(s[m])
    requires forall m :: i + 2 <= m < j && m < |s| ==> !IsCloser(s[m])
    ensures r.Some? ==> IsMatchAt(s, i, r.value) && forall k :: k < r.value ==> !IsMatchAt(s, i, k)
    ensures r.None? ==> forall k :: !IsMatchAt(s, i, k)
    decreases |s| - j
  {
    if j >= |s| then None
    else if IsCloser(s[j]) then Some(j)
    else if IsLineTerminator(s[j]) then
      assert forall k :: j < k ==> !IsMatchAt(s, i, k) by {
        forall k | j < k ensures !IsMatchAt(s, i, k) {
          if k < |s| { assert i < j < k && IsLineTerminator(s[j]); }
        }
      }
      None
    else FindClose(s, i, j + 1)
  }

  /** The shortest match starting at `i`, if any. */
  function MatchAt(s: string, i: nat): (r: Option<nat>)
    requires i < |s|
    ensures r.Some? ==> IsMatchAt(s, i, r.value) && forall k :: k < r.value ==> !IsMatchAt(s, i, k)
    ensures r.None? ==> forall k :: !IsMatchAt(s, i, k)
  {
    if i + 1 < |s| && IsOpener(s[i]) && !IsLineTerminator(s[i + 1]) then FindClose(s, i, i + 2)
    else None
  }

  /** The regular-expression search from start position `i` on. */
  function FindMatch(s: string, i: nat): (r: Option<(nat, nat)>)
    requires i <= |s|
    requires forall i', k :: i' < i && IsMatchAt(s, i', k) ==> false
    ensures r.Some? ==> IsFirstMatch(s, r.value.0, r.value.1)
    ensures r.None? ==> forall i', k :: !IsMatchAt(s, i', k)
    decreases |s| - i
  {
    if i == |s| then None
    else
      match MatchAt(s, i)
      case Some(k) => Some((i, k))
      case None => FindMatch(s, i + 1)
  }

  /** `s.match(/[「『【](.+?)[」』】]/)`: the positions of the bracket pair, or `None`. */
  function BracketMatch(s: string): (r: Option<(nat, nat)>)
    ensures r.Some? ==> IsFirstMatch(s, r.value.0, r.value.1)
    ensures r.None? ==> forall i, k :: !IsMatchAt(s, i, k)
  {
    FindMatch(s, 0)
  }

  /** `cleanTrackName`. When the prefix-stripped text contains a bracket match, the result is the
      trimmed interior of the first one (non-empty before trimming, ending at the first closer of
      any kind after it); otherwise it is the prefix-stripped text, trimmed. Either way it has no
      white space at its ends. */
  function CleanTrackName(trackName: string): (r: string)
    ensures r == [] || (!IsJsWhitespace(r[0]) && !IsJsWhitespace(r[|r| - 1]))
    ensures forall i, k :: IsFirstMatch(StripPrefix(trackName), i, k) ==>
      k - i >= 2 && r == Trim(StripPrefix(trackName)[i + 1..k])
    ensures (forall i, k :: !IsMatchAt(StripPrefix(trackName), i, k)) ==> r == Trim(StripPrefix(trackName))
  {
    var cleaned := StripPrefix(trackName);
    var m := BracketMatch(cleaned);
    FirstMatchUnique(cleaned);
    if m.Some? then Trim(cleaned[m.value.0 + 1..m.value.1]) else Trim(cleaned)
  }

  /** The first match is unique. */
  lemma FirstMatchUnique(s: string)
    ensures forall i, k, i', k' :: IsFirstMatch(s, i, k) && IsFirstMatch(s, i', k') ==> i == i' && k == k'
  {
  }

  /** Text with no listed prefix and no opening bracket is only trimmed. */
  lemma CleanPlainText(s: string)
    requires forall m :: 0 <= m < |Prefixes| ==> !(Prefixes[m] <= s)
    requires forall i :: 0 <= i < |s| ==> !IsOpener(s[i])
    ensures CleanTrackName(s) == Trim(s)
  {
  }

  /** A title made of a listed prefix (or none), an opening bracket, a non-empty interior without
      closing brackets or line breaks, and any closing bracket, whatever follows: the cleaned name
      is the trimmed interior. The bracket kinds need not pair. */
  lemma CleanLeadingBracket(p: string, o: char, x: string, c: char, rest: string)
    requires p == [] || p in Prefixes
    requires IsOpener(o) && IsCloser(c) && x != []
    requires forall m :: 0 <= m < |x| ==> !IsCloser(x[m]) && !IsLineTerminator(x[m])
    ensures CleanTrackName(p + [o] + x + [c] + rest) == Trim(x)
  {
    var t := [o] + x + [c] + rest;
    assert p + [o] + x + [c] + rest == p + t;
    StripBeforeBracket(p, t);
    LeadingMatch(o, x, c, rest);
    CleanOfFirstMatch(p + t, 0, |x| + 1);
  }

  /** The prefix, if any, is all that is stripped in front of an opening bracket. */
  lemma StripBeforeBracket(p: string, t: string)
    requires p == [] || p in Prefixes
    requires t != [] && IsOpener(t[0])
    ensures StripPrefix(p + t) == t
  {
    if p == [] {
      assert p + t == t;
      NoPrefixByInitial(t);
    } else {
      var m :| 0 <= m < |Prefixes| && Prefixes[m] == p;
      StripPrefixOnlyOnce(m, t);
    }
  }

  /** An opener at position 0 closed at the first closer after a non-empty interior is the first
      match. */
  lemma LeadingMatch(o: char, x: string, c: char, rest: string)
    requires IsOpener(o) && IsCloser(c) && x != []
    requires forall m :: 0 <= m < |x| ==> !IsCloser(x[m]) && !IsLineTerminator(x[m])
    ensures IsFirstMatch([o] + x + [c] + rest, 0, |x| + 1)
    ensures ([o] + x + [c] + rest)[1..|x| + 1] == x
  {
    var t, k := [o] + x + [c] + rest, |x| + 1;
    assert t[0] == o && t[k] == c && t[1..k] == x;
    assert forall m :: 0 < m < k ==> t[m] == x[m - 1];
  }

  /** The cleaned name is the trimmed interior of the first match. */
  lemma CleanOfFirstMatch(s: string, i: int, k: int)
    requires IsFirstMatch(StripPrefix(s), i, k)
    ensures CleanTrackName(s) == Trim(StripPrefix(s)[i + 1..k])
  {
  }

  /** `【A』B」`: the match opens with 【 and closes at the first closer, 』. */
  lemma MixedBracketsMatch()
    ensures BracketMatch("【A』B」") == Some((0, 2))
  {
    var u := "【A』B」";
    assert FindClose(u, 0, 2) == Some(2);
  }
}
