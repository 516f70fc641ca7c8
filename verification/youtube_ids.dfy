/** The player page's `extractVideoId`: a video id is taken from a YouTube
    link (watch, short or embed form) or accepted as a bare 11-character id.
    The two regular expressions are written out as the search they perform. */
module YoutubeIds {
  import opened Common

  const WatchPrefix: string := "youtube.com/watch?v="
  const ShortPrefix: string := "youtu.be/"
  const EmbedPrefix: string := "youtube.com/embed/"

  /** The characters that end the captured id: `&`, newline, `?` and `#`. */
  predicate IsStop(c: char) {
    c == '&' || c == '\n' || c == '?' || c == '#'
  }

  /** The bare-id alphabet `[a-zA-Z0-9_-]`. */
  predicate IsIdChar(c: char) {
    ('a' <= c <= 'z') || ('A' <= c <= 'Z') || ('0' <= c <= '9') || c == '_' || c == '-'
  }

  predicate NoStops(s: string) {
    forall k :: 0 <= k < |s| ==> !IsStop(s[k])
  }

  /** `p` occurs in `s` at position `i`. */
  predicate PrefixAt(s: string, i: nat, p: string) {
    i + |p| <= |s| && s[i..i + |p|] == p
  }

  /** The alternative `p` followed by at least one id character matches at `i`. */
  predicate MatchesAt(s: string, i: nat, p: string) {
    PrefixAt(s, i, p) && i + |p| < |s| && !IsStop(s[i + |p|])
  }

  /** Some alternative of the link pattern matches at `i`. */
  predicate AnyMatchAt(s: string, i: nat) {
    MatchesAt(s, i, WatchPrefix) || MatchesAt(s, i, ShortPrefix) || MatchesAt(s, i, EmbedPrefix)
  }

  /** The greedy `[^&\n?#]+` run that starts at `j`: the longest stretch
      free of stop characters. */
  function RunFrom(s: string, j: nat): (r: string)
    requires j <= |s|
    ensures j + |r| <= |s| && r == s[j..j + |r|]
    ensures NoStops(r)
    ensures j + |r| == |s| || IsStop(s[j + |r|])
    decreases |s| - j
  {
    if j == |s| || IsStop(s[j]) then [] else [s[j]] + RunFrom(s, j + 1)
  }

  /** The capture at position `i`, the alternatives tried in their written order. */
  function CaptureAt(s: string, i: nat): (r: Option<string>)
    ensures r.Some? <==> AnyMatchAt(s, i)
    ensures r.Some? ==> r.value != "" && NoStops(r.value)
  {
    if MatchesAt(s, i, WatchPrefix) then Some(RunFrom(s, i + |WatchPrefix|))
    else if MatchesAt(s, i, ShortPrefix) then Some(RunFrom(s, i + |ShortPrefix|))
    else if MatchesAt(s, i, EmbedPrefix) then Some(RunFrom(s, i + |EmbedPrefix|))
    else None
  }

  /** The search for the link pattern from position `i` on: the leftmost
      matching position wins. */
  function FindFrom(s: string, i: nat): (r: Option<string>)
    requires i <= |s|
    ensures r.Some? ==> (exists k :: i <= k < |s| && CaptureAt(s, k) == r &&
                           forall m :: i <= m < k ==> !AnyMatchAt(s, m))
    ensures r.None? <==> forall k :: i <= k < |s| ==> !AnyMatchAt(s, k)
    decreases |s| - i
  {
    if i == |s| then None
    else if AnyMatchAt(s, i) then CaptureAt(s, i)
    else FindFrom(s, i + 1)
  }

  /** `^([a-zA-Z0-9_-]{11})$`. */
  predicate IsBareId(s: string) {
    |s| == 11 && forall k :: 0 <= k < |s| ==> IsIdChar(s[k])
  }

  /** `extractVideoId(url)`: the link pattern first, then the bare id. */
  function ExtractVideoId(url: string): (r: Option<string>)
    ensures r.Some? ==> r.value != ""
    ensures r.None? <==> (forall k :: 0 <= k < |url| ==> !AnyMatchAt(url, k)) && !IsBareId(url)
    // a link anywhere in the input takes priority over the bare form
    ensures (exists k :: 0 <= k < |url| && AnyMatchAt(url, k)) ==> r == FindFrom(url, 0)
    ensures (forall k :: 0 <= k < |url| ==> !AnyMatchAt(url, k)) && IsBareId(url) ==> r == Some(url)
  {
    match FindFrom(url, 0)
    case Some(id) => Some(id)
    case None => if IsBareId(url) then Some(url) else None
  }

  /** A link match needs a `y` at its first position. */
  lemma NoMatchWithoutY(s: string, i: nat)
    requires i < |s| && s[i] != 'y'
    ensures !AnyMatchAt(s, i)
  {
    assert WatchPrefix[0] == ShortPrefix[0] == EmbedPrefix[0] == 'y';
  }

  /** Every alternative contains a `.`, which the bare-id alphabet lacks. */
  lemma BareIdHasNoLink(s: string, i: nat)
    requires IsBareId(s)
    ensures !AnyMatchAt(s, i)
  {
    assert WatchPrefix[7] == ShortPrefix[5] == EmbedPrefix[7] == '.';
    assert i + 7 < |s| ==> IsIdChar(s[i + 7]);
    assert i + 5 < |s| ==> IsIdChar(s[i + 5]);
  }

  /** The run is determined by where the next stop character (or the end) is. */
  lemma {:induction false} RunStopsAt(s: string, j: nat, e: nat)
    requires j <= e <= |s|
    requires forall k :: j <= k < e ==> !IsStop(s[k])
    requires e == |s| || IsStop(s[e])
    ensures RunFrom(s, j) == s[j..e]
    decreases e - j
  {
    if j < e {
      RunStopsAt(s, j + 1, e);
      assert s[j..e] == [s[j]] + s[j + 1..e];
    }
  }

  /** A bare id is returned as it is. */
  lemma BareIdRoundTrip(id: string)
    requires IsBareId(id)
    ensures ExtractVideoId(id) == Some(id)
  {
    forall k | 0 <= k < |id| ensures !AnyMatchAt(id, k) {
      BareIdHasNoLink(id, k);
    }
  }

  /** A short link gives back the id it was built from. */
  lemma ShortLinkRoundTrip(id: string)
    requires id != "" && NoStops(id)
    ensures ExtractVideoId(ShortPrefix + id) == Some(id)
  {
    var s := ShortPrefix + id;
    assert PrefixAt(s, 0, ShortPrefix) by { assert s[0..|ShortPrefix|] == ShortPrefix; }
    assert s[5] == '.' && WatchPrefix[5] == EmbedPrefix[5] == 'b';
    assert s[|ShortPrefix|] == id[0];
    RunStopsAt(s, |ShortPrefix|, |s|);
    assert s[|ShortPrefix|..|s|] == id;
  }

  /** A full watch link with further query parameters gives back the id:
      the capture stops at the `&`. */
  lemma WatchLinkRoundTrip(id: string, rest: string)
    requires id != "" && NoStops(id)
    ensures ExtractVideoId("https://www." + WatchPrefix + id + "&" + rest) == Some(id)
  {
    var head := "https://www.";
    var s := head + WatchPrefix + id + "&" + rest;
    var start := |head| + |WatchPrefix|;
    forall m | 0 <= m < |head| ensures FindFrom(s, m) == FindFrom(s, m + 1) {
      assert s[m] == head[m];
      NoMatchWithoutY(s, m);
      FindStep(s, m);
    }
    assert PrefixAt(s, |head|, WatchPrefix) by {
      assert s[|head|..start] == WatchPrefix;
    }
    assert s[start] == id[0];
    assert forall k :: start <= k < start + |id| ==> s[k] == id[k - start];
    assert s[start + |id|] == '&';
    RunStopsAt(s, start, start + |id|);
    assert s[start..start + |id|] == id;
    assert FindFrom(s, 0) == Some(id) by {
      FindSkipsNonMatches(s, 0, |head|);
    }
  }

  /** One position where nothing matches is passed over. */
  lemma FindStep(s: string, i: nat)
    requires i < |s| && !AnyMatchAt(s, i)
    ensures FindFrom(s, i) == FindFrom(s, i + 1)
  {
  }

  /** A stretch of positions each passed over is passed over as a whole. */
  lemma {:induction false} FindSkipsNonMatches(s: string, i: nat, k: nat)
    requires i <= k <= |s|
    requires forall m :: i <= m < k ==> FindFrom(s, m) == FindFrom(s, m + 1)
    ensures FindFrom(s, i) == FindFrom(s, k)
    decreases k - i
  {
    if i < k {
      FindSkipsNonMatches(s, i + 1, k);
    }
  }
}
