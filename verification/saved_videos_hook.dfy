/** The saved-videos hook of the player: how stored videos become sidebar
    cards, and the guest path of `addVideo` and `deleteVideo` over browser
    storage. The signed-in path only calls the server and is not modelled
    here; the server side is `VideoRoutes`. */
module SavedVideosHook {
  import opened Common
  import opened VideoRecord
  import opened GuestVideos
  import opened VideoCards

  const WatchUrlPrefix: string := "https://youtube.com/watch?v="

  /** The small thumbnail used when a video has none. */
  function DefaultThumbnail(id: string): string {
    "https://img.youtube.com/vi/" + id + "/default.jpg"
  }

  /** The message a guest gets at the two-video limit. */
  const LoginMessage: string := "Bạn chỉ có thể lưu tối đa 2 video. Vui lòng đăng nhập để lưu nhiều hơn!"

  /** One stored video as a card. `createdAt` is taken as already converted
      to milliseconds; a missing one means "now". */
  function ToCard(v: SavedVideo, now: int): (c: VideoCard)
    ensures c.id == v.videoId && c.url == WatchUrlPrefix + v.videoId
    ensures c.title != "" && c.lang != ""
    ensures Truthy(v.title) ==> c.title == v.title.v
    ensures !Truthy(v.title) ==> c.title == "Untitled"
    ensures Truthy(v.thumbnailUrl) ==> c.thumbnail == v.thumbnailUrl.v
    ensures !Truthy(v.thumbnailUrl) ==> c.thumbnail == DefaultThumbnail(v.videoId)
    ensures Truthy(v.lang) ==> c.lang == v.lang.v
    ensures !Truthy(v.lang) ==> c.lang == "ko"
    ensures v.createdAt.Value? ==> c.addedAt == v.createdAt.v
    ensures !v.createdAt.Value? ==> c.addedAt == now
  {
    VideoCard(
      v.videoId,
      WatchUrlPrefix + v.videoId,
      OrString(v.title, "Untitled"),
      OrString(v.thumbnailUrl, DefaultThumbnail(v.videoId)),
      OrString(v.lang, "ko"),
      if v.createdAt.Value? then v.createdAt.v else now)
  }

  /** `loadVideos()`: the same mapping for server and local lists. */
  function Display(vs: seq<SavedVideo>, now: int): (cards: seq<VideoCard>)
    ensures |cards| == |vs|
    ensures forall i :: 0 <= i < |vs| ==> cards[i] == ToCard(vs[i], now)
  {
    Map(vs, (v: SavedVideo) => ToCard(v, now))
  }

  /** The cards list the videos in their stored order, one card per video,
      so distinct stored ids give distinct cards. */
  lemma DisplayKeepsOrderAndIds(vs: seq<SavedVideo>, now: int)
    ensures forall i :: 0 <= i < |vs| ==> Display(vs, now)[i].id == vs[i].videoId
    ensures DistinctIds(vs) ==> DistinctCards(Display(vs, now))
    ensures forall id :: HasId(vs, id) <==> HasCard(Display(vs, now), id)
  {
    var cards := Display(vs, now);
    forall id ensures HasId(vs, id) <==> HasCard(cards, id) {
      if HasId(vs, id) {
        var i :| 0 <= i < |vs| && vs[i].videoId == id;
        assert cards[i].id == id;
      }
      if HasCard(cards, id) {
        var i :| 0 <= i < |cards| && cards[i].id == id;
        assert vs[i].videoId == id;
      }
    }
  }

  /** What `addVideo` resolves to. */
  datatype AddReply = AddReply(success: bool, error: Option<string>)

  /** The guest outcome of `addVideo`: the reply, the storage afterwards and
      the reloaded cards (unchanged when the limit refused the video). */
  datatype GuestAdd = GuestAdd(reply: AddReply, storage: Storage, cards: seq<VideoCard>)

  /** The record `addVideo` builds: its own title and language, the small
      thumbnail, the subtitles or `[]`; no translation fields. */
  function AddRecord(videoId: string, title: string, lang: Option<string>, subtitles: Js<seq<Cue>>): (v: SavedVideo)
    ensures v.videoId == videoId && v.title == Value(title)
    ensures v.thumbnailUrl == Value(DefaultThumbnail(videoId))
    ensures lang.Some? ==> v.lang == Value(lang.value)
    ensures lang.None? ==> v.lang == Value("ko")
    ensures subtitles.Value? ==> v.subtitles == subtitles
    ensures v.subtitles.Value? && (!subtitles.Value? ==> v.subtitles.v == [])
    ensures v.createdAt == Undefined && v.updatedAt == Undefined
    ensures v.translatedTo == Undefined && v.translatedSubtitles == Undefined
  {
    SavedVideo(
      videoId,
      Value(title),
      Value(DefaultThumbnail(videoId)),
      Value(match lang case Some(l) => l case None => "ko"),
      Value(OrArray(subtitles, [])),
      Undefined, Undefined, Undefined, Undefined)
  }

  /** `addVideo(videoId, title, lang, subtitles)` for a guest. */
  function AddVideoGuest(st: Storage, cards: seq<VideoCard>, videoId: string, title: string,
                         lang: Option<string>, subtitles: Js<seq<Cue>>, now: int): (r: GuestAdd)
    ensures var limited := !HasId(ReadLocal(st), videoId) && |ReadLocal(st)| >= MaxGuestVideos;
      (limited ==> r == GuestAdd(AddReply(false, Some(LoginMessage)), st, cards)) &&
      (!limited ==> r.reply == AddReply(true, None) && HasCard(r.cards, videoId))
  {
    var step := AddLocal(st, AddRecord(videoId, title, lang, subtitles), now);
    match step.result
    case MaxLimitReached => GuestAdd(AddReply(false, Some(LoginMessage)), st, cards)
    case Added =>
      DisplayKeepsOrderAndIds(ReadLocal(step.storage), now);
      GuestAdd(AddReply(true, None), step.storage, Display(ReadLocal(step.storage), now))
  }

  /** A guest's new video, under the limit, shows as the last card with
      the title typed (or `Untitled`), the small thumbnail, the language
      passed (or `ko`) and the time it was added. */
  lemma GuestAddShowsNewCard(st: Storage, cards: seq<VideoCard>, videoId: string, title: string,
                             lang: Option<string>, subtitles: Js<seq<Cue>>, now: int)
    requires !HasId(ReadLocal(st), videoId) && |ReadLocal(st)| < MaxGuestVideos
    ensures var r := AddVideoGuest(st, cards, videoId, title, lang, subtitles, now);
      |r.cards| == |ReadLocal(st)| + 1 &&
      r.cards[|ReadLocal(st)|] ==
        VideoCard(videoId, WatchUrlPrefix + videoId, if title != "" then title else "Untitled",
                  DefaultThumbnail(videoId), if lang.Some? && lang.value != "" then lang.value else "ko", now)
  {
    var v := AddRecord(videoId, title, lang, subtitles);
    var after := ReadLocal(AddLocal(st, v, now).storage);
    assert after[|ReadLocal(st)|] == v.(createdAt := Value(now), updatedAt := Value(now));
  }

  /** Adding a video the guest already saved keeps its translation. */
  lemma ReAddKeepsTranslation(st: Storage, cards: seq<VideoCard>, videoId: string, title: string,
                              lang: Option<string>, subtitles: Js<seq<Cue>>, now: int, i: nat)
    requires i < |ReadLocal(st)| && ReadLocal(st)[i].videoId == videoId
    requires DistinctIds(ReadLocal(st))
    ensures var after := ReadLocal(AddVideoGuest(st, cards, videoId, title, lang, subtitles, now).storage);
      i < |after| && after[i].translatedTo == ReadLocal(st)[i].translatedTo &&
      after[i].translatedSubtitles == ReadLocal(st)[i].translatedSubtitles
  {
    AddExistingUpdatesInPlace(st, AddRecord(videoId, title, lang, subtitles), now, i);
  }

  /** `deleteVideo(videoId)` for a guest: remove, then reload the cards. */
  function DeleteVideoGuest(st: Storage, videoId: string, now: int): (r: (Storage, seq<VideoCard>))
    ensures !HasCard(r.1, videoId)
    ensures r.1 == Display(ReadLocal(r.0), now)
    ensures forall v :: v in ReadLocal(st) && v.videoId != videoId ==> v in ReadLocal(r.0)
  {
    var after := RemoveLocal(st, videoId);
    DisplayKeepsOrderAndIds(ReadLocal(after), now);
    (after, Display(ReadLocal(after), now))
  }
}
