/** The guest's saved-video list kept in browser storage under one key,
    with its two-video limit. Storage is an explicit value passed in and
    returned; the clock is the `now` parameter. */
module GuestVideos {
  import opened Common
  import opened VideoRecord

  /** `MAX_GUEST_VIDEOS`. */
  const MaxGuestVideos: nat := 2

  /** The client-side `SavedVideo`: every field but `videoId` may be absent. */
  datatype SavedVideo = SavedVideo(
    videoId: string,
    title: Js<string>,
    thumbnailUrl: Js<string>,
    lang: Js<string>,
    subtitles: Js<seq<Cue>>,
    translatedTo: Js<string>,
    translatedSubtitles: Js<seq<Cue>>,
    createdAt: Js<int>,
    updatedAt: Js<int>)

  /** The `saved_videos` storage entry: absent, unparsable, or a list. */
  datatype Storage = Missing | Unreadable | Stored(videos: seq<SavedVideo>)

  /** `getLocalSavedVideos()`: a missing or unreadable entry reads as `[]`. */
  function ReadLocal(st: Storage): (vs: seq<SavedVideo>)
    ensures st.Stored? ==> vs == st.videos
    ensures !st.Stored? ==> vs == []
  {
    if st.Stored? then st.videos else []
  }

  predicate HasId(vs: seq<SavedVideo>, id: string) {
    exists i :: 0 <= i < |vs| && vs[i].videoId == id
  }

  predicate DistinctIds(vs: seq<SavedVideo>) {
    forall i, j :: 0 <= i < j < |vs| ==> vs[i].videoId != vs[j].videoId
  }

  /** `isVideoSavedLocally(videoId)`. */
  function IsVideoSavedLocally(st: Storage, id: string): (b: bool)
    ensures b <==> exists v :: v in ReadLocal(st) && v.videoId == id
  {
    var vs := ReadLocal(st);
    assert forall v :: v in vs ==> exists i :: 0 <= i < |vs| && vs[i] == v;
    Exists(vs, (v: SavedVideo) => v.videoId == id)
  }

  /** `{ ...stored, ...incoming }`: a property present on `incoming` wins. */
  function Overlay(stored: SavedVideo, incoming: SavedVideo): (r: SavedVideo)
    ensures r.videoId == incoming.videoId
    ensures incoming.title != Undefined ==> r.title == incoming.title
    ensures incoming.title == Undefined ==> r.title == stored.title
    ensures incoming.translatedTo != Undefined ==> r.translatedTo == incoming.translatedTo
    ensures incoming.translatedTo == Undefined ==> r.translatedTo == stored.translatedTo
    ensures incoming.thumbnailUrl != Undefined ==> r.thumbnailUrl == incoming.thumbnailUrl
    ensures incoming.thumbnailUrl == Undefined ==> r.thumbnailUrl == stored.thumbnailUrl
    ensures incoming.lang != Undefined ==> r.lang == incoming.lang
    ensures incoming.lang == Undefined ==> r.lang == stored.lang
    ensures incoming.subtitles != Undefined ==> r.subtitles == incoming.subtitles
    ensures incoming.subtitles == Undefined ==> r.subtitles == stored.subtitles
    ensures incoming.translatedSubtitles != Undefined ==> r.translatedSubtitles == incoming.translatedSubtitles
    ensures incoming.translatedSubtitles == Undefined ==> r.translatedSubtitles == stored.translatedSubtitles
    ensures incoming.createdAt != Undefined ==> r.createdAt == incoming.createdAt
    ensures incoming.createdAt == Undefined ==> r.createdAt == stored.createdAt
    ensures incoming.updatedAt != Undefined ==> r.updatedAt == incoming.updatedAt
    ensures incoming.updatedAt == Undefined ==> r.updatedAt == stored.updatedAt
  {
    SavedVideo(
      incoming.videoId,
      if incoming.title != Undefined then incoming.title else stored.title,
      if incoming.thumbnailUrl != Undefined then incoming.thumbnailUrl else stored.thumbnailUrl,
      if incoming.lang != Undefined then incoming.lang else stored.lang,
      if incoming.subtitles != Undefined then incoming.subtitles else stored.subtitles,
      if incoming.translatedTo != Undefined then incoming.translatedTo else stored.translatedTo,
      if incoming.translatedSubtitles != Undefined then incoming.translatedSubtitles else stored.translatedSubtitles,
      if incoming.createdAt != Undefined then incoming.createdAt else stored.createdAt,
      if incoming.updatedAt != Undefined then incoming.updatedAt else stored.updatedAt)
  }

  /** Spreading is associative: overlaying twice in turn is overlaying
      once with the second spread over the first, and a spread over
      itself changes nothing. */
  lemma OverlayAssociative(a: SavedVideo, b: SavedVideo, c: SavedVideo)
    ensures Overlay(Overlay(a, b), c) == Overlay(a, Overlay(b, c))
    ensures Overlay(a, a) == a
  {
  }

  datatype AddResult = Added | MaxLimitReached

  datatype AddStep = AddStep(result: AddResult, storage: Storage)

  /** `addVideoToLocal(video)`. */
  function AddLocal(st: Storage, video: SavedVideo, now: int): (r: AddStep)
    // the limit refuses only a new id, and a refusal writes nothing
    ensures r.result == MaxLimitReached <==> !HasId(ReadLocal(st), video.videoId) && |ReadLocal(st)| >= MaxGuestVideos
    ensures r.result == MaxLimitReached ==> r.storage == st
    ensures r.result == Added ==> r.storage.Stored? && HasId(r.storage.videos, video.videoId)
    // an existing id is updated in place: same length, same position
    ensures HasId(ReadLocal(st), video.videoId) ==> |r.storage.videos| == |ReadLocal(st)|
    // a new id is appended with both timestamps set to now
    ensures r.result == Added && !HasId(ReadLocal(st), video.videoId) ==>
      r.storage.videos == ReadLocal(st) + [video.(createdAt := Value(now), updatedAt := Value(now))]
  {
    var vs := ReadLocal(st);
    match FirstIndex(vs, (v: SavedVideo) => v.videoId == video.videoId)
    case Some(i) =>
      var updated := vs[i := Overlay(vs[i], video).(updatedAt := Value(now))];
      assert updated[i].videoId == video.videoId;
      AddStep(Added, Stored(updated))
    case None =>
      if |vs| >= MaxGuestVideos then AddStep(MaxLimitReached, st)
      else
        var appended := vs + [video.(createdAt := Value(now), updatedAt := Value(now))];
        assert appended[|vs|].videoId == video.videoId;
        AddStep(Added, Stored(appended))
  }

  /** Re-adding a saved id, even at the limit, replaces only that entry: the
      incoming fields override, `updatedAt` is refreshed, others stay put. */
  lemma AddExistingUpdatesInPlace(st: Storage, video: SavedVideo, now: int, i: nat)
    requires i < |ReadLocal(st)| && ReadLocal(st)[i].videoId == video.videoId
    requires forall j :: 0 <= j < i ==> ReadLocal(st)[j].videoId != video.videoId
    ensures var r := AddLocal(st, video, now);
      r.result == Added && r.storage.Stored? && |r.storage.videos| == |ReadLocal(st)| &&
      r.storage.videos[i] == Overlay(ReadLocal(st)[i], video).(updatedAt := Value(now)) &&
      forall j :: 0 <= j < |ReadLocal(st)| && j != i ==> r.storage.videos[j] == ReadLocal(st)[j]
  {
    var vs := ReadLocal(st);
    var k := FirstIndex(vs, (v: SavedVideo) => v.videoId == video.videoId);
    assert k == Some(i);
  }

  /** Adding keeps ids distinct and never grows a list past the limit. */
  lemma AddKeepsDistinctAndBounded(st: Storage, video: SavedVideo, now: int)
    requires DistinctIds(ReadLocal(st))
    ensures var after := ReadLocal(AddLocal(st, video, now).storage);
      DistinctIds(after) && |after| <= Max(|ReadLocal(st)|, MaxGuestVideos)
  {
    var vs := ReadLocal(st);
    var after := ReadLocal(AddLocal(st, video, now).storage);
    match FirstIndex(vs, (v: SavedVideo) => v.videoId == video.videoId)
    case Some(i) =>
      assert after == vs[i := Overlay(vs[i], video).(updatedAt := Value(now))];
      assert forall j :: 0 <= j < |after| ==> after[j].videoId == vs[j].videoId;
    case None =>
  }

  /** `removeVideoFromLocal(videoId)`: always rewrites the entry. */
  function RemoveLocal(st: Storage, id: string): (r: Storage)
    ensures r.Stored? && !HasId(r.videos, id)
    ensures forall v :: v in ReadLocal(st) && v.videoId != id ==> v in r.videos
    ensures forall v :: v in r.videos ==> v in ReadLocal(st)
  {
    var kept := Filter(ReadLocal(st), (v: SavedVideo) => v.videoId != id);
    assert forall j :: 0 <= j < |kept| ==> kept[j] in kept;
    Stored(kept)
  }

  /** The entries that survive a removal keep their relative order. */
  lemma RemoveKeepsOrder(st: Storage, id: string)
    ensures IsSubsequence(ReadLocal(RemoveLocal(st, id)), ReadLocal(st))
  {
    FilterIsSubsequence(ReadLocal(st), (v: SavedVideo) => v.videoId != id);
  }

  /** `updateVideoTranslationLocal(videoId, translatedTo, translatedSubtitles)`. */
  function UpdateTranslationLocal(st: Storage, id: string, translatedTo: string, subs: seq<Cue>, now: int): (r: Storage)
    ensures !HasId(ReadLocal(st), id) ==> r == st
    ensures HasId(ReadLocal(st), id) ==> r.Stored? && |r.videos| == |ReadLocal(st)|
    ensures HasId(ReadLocal(st), id) ==>
      (exists i :: 0 <= i < |ReadLocal(st)| && ReadLocal(st)[i].videoId == id &&
         (forall j :: 0 <= j < i ==> ReadLocal(st)[j].videoId != id) &&
         r.videos == ReadLocal(st)[i := ReadLocal(st)[i].(translatedTo := Value(translatedTo),
                                         translatedSubtitles := Value(subs), updatedAt := Value(now))])
  {
    var vs := ReadLocal(st);
    match FirstIndex(vs, (v: SavedVideo) => v.videoId == id)
    case None => st
    case Some(i) =>
      Stored(vs[i := vs[i].(translatedTo := Value(translatedTo), translatedSubtitles := Value(subs), updatedAt := Value(now))])
  }

  /** `clearLocalSavedVideos()`: removes the entry, so the list reads empty. */
  function ClearLocal(st: Storage): (r: Storage)
    ensures ReadLocal(r) == [] && forall id :: !IsVideoSavedLocally(r, id)
  {
    Missing
  }
}
