/** The pure logic of the YouTube player page: the `mm:ss` clock, the
    choice of the subtitle to highlight, and the sidebar list operations
    (save, rename, delete) together with what `loadVideo` does to the page
    state before and after its fetch. Times are whole numbers. */
module PlayerPage {
  import opened Common
  import opened Decimal
  import opened YoutubeIds
  import opened VideoCards

  /** `Math.trunc(a / b)` for a positive divisor, rounding toward zero. */
  function TruncDiv(a: int, b: int): (q: int)
    requires b > 0
    ensures a >= 0 ==> q == a / b
    ensures a < 0 ==> q == -((-a) / b)
  {
    if a >= 0 then a / b else -((-a) / b)
  }

  /** JavaScript's `a % b`: the remainder takes the sign of `a`. */
  function JsRem(a: int, b: int): (r: int)
    requires b > 0
    ensures a == TruncDiv(a, b) * b + r
    ensures a >= 0 ==> 0 <= r < b
    ensures a < 0 ==> -b < r <= 0
  {
    a - TruncDiv(a, b) * b
  }

  /** `formatTime(seconds)`: `Math.floor(s / 60)` and `Math.floor(s % 60)`,
      each rendered and padded to two characters. */
  function FormatTime(seconds: int): (t: string)
    ensures |t| >= 5
  {
    var mins := seconds / 60;
    var secs := JsRem(seconds, 60);
    PadStart2(IntToString(mins)) + ":" + PadStart2(IntToString(secs))
  }

  /** The shape `formatTime` produces for a non-negative time: digits, a
      colon, and two second digits. */
  predicate IsClock(t: string) {
    |t| >= 3 && t[|t| - 3] == ':' && AllDigits(t[..|t| - 3]) && AllDigits(t[|t| - 2..])
  }

  /** The seconds field of a clock text. */
  function ClockSeconds(t: string): nat
    requires IsClock(t)
  {
    DigitsValue(t[|t| - 2..])
  }

  /** Reads an `mm:ss` text back: the minutes before the colon, the two
      second digits after it. */
  function ParseClock(t: string): nat
    requires IsClock(t)
  {
    60 * DigitsValue(t[..|t| - 3]) + ClockSeconds(t)
  }

  /** The padded text of a number reads back as that number. */
  lemma PaddedRoundTrip(n: nat)
    ensures AllDigits(PadStart2(NatToString(n)))
    ensures DigitsValue(PadStart2(NatToString(n))) == n
  {
    var s := NatToString(n);
    NatToStringRoundTrip(n);
    if |s| == 1 {
      LeadingZero(s);
      assert PadStart2(s) == "0" + s;
    }
  }

  /** A seconds field below 60 pads to exactly two digits. */
  lemma SecondsFieldWidth(n: nat)
    requires n < 60
    ensures |PadStart2(NatToString(n))| == 2
  {
    if n >= 10 {
      assert NatToString(n) == NatToString(n / 10) + [DigitChar(n % 10)];
    }
  }

  /** The two fields of `mm:ss` sit on either side of the third-last character. */
  lemma SplitClock(mm: string, ss: string)
    requires |ss| == 2
    ensures var t := mm + ":" + ss;
      |t| >= 3 && t[|t| - 3] == ':' && t[..|t| - 3] == mm && t[|t| - 2..] == ss
  {
    var t := mm + ":" + ss;
    assert t[..|t| - 3] == mm;
    assert t[|t| - 2..] == ss;
  }

  /** For a non-negative time the two fields are the padded minutes and
      the padded seconds within the minute. */
  lemma FormatTimeFields(seconds: nat)
    ensures FormatTime(seconds) ==
      PadStart2(NatToString(seconds / 60)) + ":" + PadStart2(NatToString(seconds % 60))
    ensures seconds == 60 * (seconds / 60) + seconds % 60 && seconds % 60 < 60
  {
    assert TruncDiv(seconds, 60) == seconds / 60;
    assert JsRem(seconds, 60) == seconds % 60;
  }

  /** A clock text built from two digit fields reads back as their value. */
  lemma ParseJoined(mm: string, ss: string)
    requires AllDigits(mm) && AllDigits(ss) && |ss| == 2
    ensures IsClock(mm + ":" + ss)
    ensures ParseClock(mm + ":" + ss) == 60 * DigitsValue(mm) + DigitsValue(ss)
    ensures ClockSeconds(mm + ":" + ss) == DigitsValue(ss)
  {
    SplitClock(mm, ss);
  }

  /** The padded fields of `mins` and `secs < 60` read back as `60 * mins + secs`. */
  lemma ClockRoundTrip(mins: nat, secs: nat)
    requires secs < 60
    ensures IsClock(PadStart2(NatToString(mins)) + ":" + PadStart2(NatToString(secs)))
    ensures ParseClock(PadStart2(NatToString(mins)) + ":" + PadStart2(NatToString(secs))) == 60 * mins + secs
    ensures ClockSeconds(PadStart2(NatToString(mins)) + ":" + PadStart2(NatToString(secs))) == secs
  {
    SecondsFieldWidth(secs);
    PaddedRoundTrip(mins);
    PaddedRoundTrip(secs);
    ParseJoined(PadStart2(NatToString(mins)), PadStart2(NatToString(secs)));
  }

  /** For a non-negative time the clock keeps every second: minutes are
      not capped at two digits and the seconds field is always 00 to 59. */
  lemma FormatTimeRoundTrip(seconds: nat)
    ensures IsClock(FormatTime(seconds))
    ensures ParseClock(FormatTime(seconds)) == seconds
    ensures ClockSeconds(FormatTime(seconds)) < 60
  {
    FormatTimeFields(seconds);
    ClockRoundTrip(seconds / 60, seconds % 60);
  }

  /** One subtitle line: it shows from `start` for `duration`. */
  datatype Subtitle = Subtitle(start: int, duration: int, text: string)

  predicate Shows(s: Subtitle, time: int) {
    s.start <= time < s.start + s.duration
  }

  /** A line that can win: it shows now and its start beats the initial
      `closestStart` of -1. */
  predicate Candidate(subs: seq<Subtitle>, i: int, time: int)
    requires 0 <= i < |subs|
  {
    Shows(subs[i], time) && subs[i].start > -1
  }

  /** `getCurrentSubtitleIndex()`: the showing line with the latest start,
      the earliest such line on a tie, or -1. */
  method CurrentSubtitleIndex(subs: seq<Subtitle>, time: int) returns (best: int)
    ensures -1 <= best < |subs|
    ensures best == -1 <==> forall j :: 0 <= j < |subs| ==> !Candidate(subs, j, time)
    ensures best >= 0 ==> Candidate(subs, best, time)
    ensures best >= 0 ==> forall j :: 0 <= j < |subs| && Candidate(subs, j, time) ==> subs[j].start <= subs[best].start
    ensures best >= 0 ==> forall j :: 0 <= j < best && Candidate(subs, j, time) ==> subs[j].start < subs[best].start
    // with no negative starts, -1 means exactly that no line is showing
    ensures (forall j :: 0 <= j < |subs| ==> subs[j].start >= 0) ==>
      (best == -1 <==> forall j :: 0 <= j < |subs| ==> !Shows(subs[j], time))
  {
    if |subs| == 0 {
      return -1;
    }
    best := -1;
    var closestStart := -1;
    var i := 0;
    while i < |subs|
      invariant 0 <= i <= |subs|
      invariant -1 <= best < i
      invariant best == -1 ==> closestStart == -1
      invariant best >= 0 ==> closestStart == subs[best].start && Candidate(subs, best, time)
      invariant best == -1 <==> forall j :: 0 <= j < i ==> !Candidate(subs, j, time)
      invariant forall j :: 0 <= j < i && Candidate(subs, j, time) ==> subs[j].start <= closestStart
      invariant best >= 0 ==> forall j :: 0 <= j < best && Candidate(subs, j, time) ==> subs[j].start < closestStart
    {
      var sub := subs[i];
      var endTime := sub.start + sub.duration;
      if time >= sub.start && time < endTime {
        if sub.start > closestStart {
          closestStart := sub.start;
          best := i;
        }
      }
      i := i + 1;
    }
  }

  /** The page state the list operations read and write. */
  datatype Page = Page(
    videoUrl: string,
    videoId: string,
    subtitles: seq<Subtitle>,
    error: string,
    customTitle: string,
    showAddForm: bool,
    loading: bool,
    cards: seq<VideoCard>)

  /** The medium thumbnail the page stores. */
  function MediumThumbnail(id: string): string {
    "https://img.youtube.com/vi/" + id + "/mqdefault.jpg"
  }

  /** `saveCurrentVideo(title, tempVideoId)`: prepends a card unless the
      id is empty or already listed. */
  function SaveCurrentVideo(p: Page, title: Js<string>, tempVideoId: Js<string>, lang: string, now: int): (r: seq<VideoCard>)
    ensures var id := OrString(tempVideoId, p.videoId);
      (id == "" || HasCard(p.cards, id)) ==> r == p.cards
    ensures var id := OrString(tempVideoId, p.videoId);
      (id != "" && !HasCard(p.cards, id)) ==>
        (|r| == |p.cards| + 1 && r[1..] == p.cards && r[0].id == id && r[0].title != "" &&
         r[0].title == OrString(title, OrString(Value(p.customTitle), "Video " + id)) &&
         r[0].thumbnail == MediumThumbnail(id) &&
         r[0].url == p.videoUrl && r[0].addedAt == now && r[0].lang == lang)
  {
    var id := OrString(tempVideoId, p.videoId);
    if id == "" then p.cards
    else
      var card := VideoCard(id, p.videoUrl, OrString(title, OrString(Value(p.customTitle), "Video " + id)),
                            MediumThumbnail(id), lang, now);
      if Exists(p.cards, (v: VideoCard) => v.id == id) then p.cards else [card] + p.cards
  }

  /** Saving never lists the same id twice. */
  lemma SaveKeepsDistinct(p: Page, title: Js<string>, tempVideoId: Js<string>, lang: string, now: int)
    requires DistinctCards(p.cards)
    ensures DistinctCards(SaveCurrentVideo(p, title, tempVideoId, lang, now))
  {
    var r := SaveCurrentVideo(p, title, tempVideoId, lang, now);
    var id := OrString(tempVideoId, p.videoId);
    if id != "" && !HasCard(p.cards, id) {
      forall i, j | 0 <= i < j < |r| ensures r[i].id != r[j].id {
        if i == 0 {
          assert r[j] == p.cards[j - 1];
        } else {
          assert r[i] == p.cards[i - 1] && r[j] == p.cards[j - 1];
        }
      }
    }
  }

  /** `deleteVideo(id)`: drops every card with that id and, when it is the
      current video, clears the video and its subtitles. */
  function DeleteVideo(p: Page, id: string): (r: Page)
    ensures !HasCard(r.cards, id)
    ensures forall c :: c in p.cards && c.id != id ==> c in r.cards
    ensures forall c :: c in r.cards ==> c in p.cards
    ensures p.videoId == id ==> r.videoId == "" && r.subtitles == []
    ensures p.videoId != id ==> r.videoId == p.videoId && r.subtitles == p.subtitles
    // nothing but the list, the current video and its subtitles changes
    ensures r == p.(cards := r.cards, videoId := r.videoId, subtitles := r.subtitles)
  {
    var kept := Filter(p.cards, (v: VideoCard) => v.id != id);
    assert forall j :: 0 <= j < |kept| ==> kept[j] in kept;
    if p.videoId == id then p.(cards := kept, videoId := "", subtitles := [])
    else p.(cards := kept)
  }

  /** The cards that survive a deletion keep their order. */
  lemma DeleteKeepsOrder(p: Page, id: string)
    ensures IsSubsequence(DeleteVideo(p, id).cards, p.cards)
  {
    FilterIsSubsequence(p.cards, (v: VideoCard) => v.id != id);
  }

  /** The message `loadVideo` shows for an input with no video id. */
  const InvalidUrl: string := "URL YouTube không hợp lệ"

  /** The placeholder title of a card added before the real title is known. */
  const LoadingTitle: string := "Đang tải..."

  /** The part of `loadVideo(customId, customLang)` that runs before its
      fetch: resolve the id, close the form, list the video at once. */
  function LoadVideoStart(p: Page, customId: Js<string>, lang: string, now: int): (r: Page)
    // no id: only the error message changes
    ensures (!Truthy(customId) && ExtractVideoId(p.videoUrl).None?) ==> r == p.(error := InvalidUrl)
    ensures (Truthy(customId) || ExtractVideoId(p.videoUrl).Some?) ==>
      (var id := if Truthy(customId) then customId.v else ExtractVideoId(p.videoUrl).value;
       && r.videoId == id && r.error == "" && r.loading && !r.showAddForm
       && r.customTitle == "" && r.videoUrl == ""
       && HasCard(r.cards, id)
       == (HasCard(p.cards, id) || !Truthy(customId)))
    // the list grows only for a typed URL not listed yet, by one card in front
    ensures (Truthy(customId) || ExtractVideoId(p.videoUrl).Some?) ==>
      (var id := if Truthy(customId) then customId.v else ExtractVideoId(p.videoUrl).value;
       && ((Truthy(customId) || HasCard(p.cards, id)) ==> r.cards == p.cards)
       && (!Truthy(customId) && !HasCard(p.cards, id) ==>
             |r.cards| == |p.cards| + 1 && r.cards[1..] == p.cards && r.cards[0].id == id))
    // the subtitles are left to the fetch, and nothing else changes
    ensures r.subtitles == p.subtitles
    ensures r == p.(videoUrl := r.videoUrl, videoId := r.videoId, error := r.error, customTitle := r.customTitle,
                    showAddForm := r.showAddForm, loading := r.loading, cards := r.cards)
  {
    var extracted := if Truthy(customId) then Some(customId.v) else ExtractVideoId(p.videoUrl);
    match extracted
    case None => p.(error := InvalidUrl)
    case Some(id) =>
      var savedTitle := p.customTitle;
      var cards :=
        if !Truthy(customId) && !Exists(p.cards, (v: VideoCard) => v.id == id)
        then SaveCurrentVideo(p, Value(OrString(Value(savedTitle), LoadingTitle)), Value(id), lang, now)
        else p.cards;
      assert !Truthy(customId) && !HasCard(p.cards, id) ==> cards[0].id == id;
      p.(showAddForm := false, customTitle := "", videoUrl := "", cards := cards,
         error := "", loading := true, videoId := id)
  }

  /** The message `loadVideo` shows when the response holds no subtitle array. */
  const NoSubtitles: string := "Không có phụ đề cho video này"

  /** How the subtitle fetch and title lookup of `loadVideo` ended: the
      fetched lines (`None` when the response held no array), already in
      seconds, and the player's title (`None` when the five-second wait ran
      out); or a failure. */
  datatype LoadOutcome =
    | TitleKnown(fetched: Option<seq<Subtitle>>, playerTitle: Option<string>)
    | LoadError(message: string)

  /** The part of `loadVideo` after its fetch: show the fetched lines (or
      the no-subtitles message and none), then rename the card to the title
      typed in, else the player's title, else `Video <id>`; on a failure,
      drop the card unless the video came from the list. */
  function LoadVideoFinish(p: Page, id: string, customId: Js<string>, savedTitle: string, outcome: LoadOutcome): (r: Page)
    ensures !r.loading
    // the fetched lines are shown; without them the message appears and the list is still renamed
    ensures outcome.TitleKnown? && outcome.fetched.Some? ==>
      r.subtitles == outcome.fetched.value && r.error == p.error
    ensures outcome.TitleKnown? && outcome.fetched.None? ==> r.subtitles == [] && r.error == NoSubtitles
    // on success only the matching cards change, and only in their title
    ensures outcome.TitleKnown? ==> |r.cards| == |p.cards|
    ensures outcome.TitleKnown? ==> forall i :: 0 <= i < |p.cards| && p.cards[i].id != id ==> r.cards[i] == p.cards[i]
    ensures outcome.TitleKnown? ==> forall i :: 0 <= i < |p.cards| && p.cards[i].id == id ==>
      (r.cards[i] == p.cards[i].(title := r.cards[i].title) && r.cards[i].title != "" &&
       (savedTitle != "" ==> r.cards[i].title == savedTitle) &&
       (savedTitle == "" && outcome.playerTitle.Some? && outcome.playerTitle.value != "" ==>
          r.cards[i].title == outcome.playerTitle.value) &&
       (savedTitle == "" && (outcome.playerTitle.None? || outcome.playerTitle.value == "") ==>
          r.cards[i].title == "Video " + id))
    ensures outcome.LoadError? && !Truthy(customId) ==> !HasCard(r.cards, id) && r.error == outcome.message
    ensures outcome.LoadError? && !Truthy(customId) ==> forall c :: c in p.cards && c.id != id ==> c in r.cards
    ensures outcome.LoadError? && Truthy(customId) ==> r.cards == p.cards && r.error == outcome.message
    ensures outcome.LoadError? ==> r.subtitles == p.subtitles
  {
    match outcome
    case TitleKnown(fetched, t) =>
      var shown := match fetched
        case Some(subs) => p.(subtitles := subs)
        case None => p.(error := NoSubtitles, subtitles := []);
      var playerTitle := match t case Some(s) => OrString(Value(s), "Video " + id) case None => "Video " + id;
      var finalTitle := OrString(Value(savedTitle), playerTitle);
      shown.(cards := RenameCards(p.cards, id, finalTitle), loading := false)
    case LoadError(m) =>
      var cards := if !Truthy(customId) then Filter(p.cards, (v: VideoCard) => v.id != id) else p.cards;
      assert forall j :: 0 <= j < |cards| ==> cards[j] in cards;
      p.(error := m, cards := cards, loading := false)
  }

  /** A video loaded from a typed URL that is not listed yet ends up first
      in the list with the title typed in (if any), or, when the load
      fails, the list is as it was before. */
  lemma {:induction false} LoadNewUrl(p: Page, lang: string, now: int, outcome: LoadOutcome)
    requires ExtractVideoId(p.videoUrl).Some? && !HasCard(p.cards, ExtractVideoId(p.videoUrl).value)
    ensures var id := ExtractVideoId(p.videoUrl).value;
      var r := LoadVideoFinish(LoadVideoStart(p, Undefined, lang, now), id, Undefined, p.customTitle, outcome);
      && (outcome.TitleKnown? ==>
            |r.cards| == |p.cards| + 1 && r.cards[0].id == id && r.cards[1..] == p.cards &&
            (p.customTitle != "" ==> r.cards[0].title == p.customTitle))
      && (outcome.LoadError? ==> r.cards == p.cards)
  {
    var id := ExtractVideoId(p.videoUrl).value;
    var mid := LoadVideoStart(p, Undefined, lang, now);
    var r := LoadVideoFinish(mid, id, Undefined, p.customTitle, outcome);
    assert mid.cards == [mid.cards[0]] + p.cards && mid.cards[0].id == id;
    if outcome.TitleKnown? {
      assert |r.cards| == |mid.cards|;
      forall i | 1 <= i < |r.cards| ensures r.cards[i] == p.cards[i - 1] {
        assert mid.cards[i] == p.cards[i - 1];
      }
      assert r.cards[1..] == p.cards;
    } else {
      assert mid.cards == [mid.cards[0]] + p.cards;
      var keep := (v: VideoCard) => v.id != id;
      assert Filter(mid.cards, keep) == Filter(p.cards, keep);
      assert forall x :: x in p.cards ==> keep(x);
    }
  }
}
