/** The saved-video HTTP handlers of the backend, as functions from the
    store, the authenticated user and the request to a status code and the
    store afterwards. `now` is the server clock in milliseconds. */
module VideoRoutes {
  import opened Common
  import opened VideoRecord

  /** The fields the handlers destructure from a request body. */
  datatype VideoBody = VideoBody(
    videoId: Js<string>,
    title: Js<string>,
    thumbnailUrl: Js<string>,
    lang: Js<string>,
    subtitles: Js<seq<Cue>>,
    translatedTo: Js<string>,
    translatedSubtitles: Js<seq<Cue>>)

  datatype Reply = Reply(status: int, store: Store)

  /** Nothing outside `key` differs between the two stores. */
  predicate OnlyKeyChanged(before: Store, after: Store, key: Key) {
    && after.Keys - {key} == before.Keys - {key}
    && forall k :: k in after && k in before && k != key ==> after[k] == before[k]
  }

  /** The document a create path builds: `x || default` for every field,
      so an empty `translatedTo` becomes `null`. */
  function Create(userId: UserId, videoId: VideoId, b: VideoBody, now: int): (r: Record)
    ensures KeyOf(r) == Key(userId, videoId)
    ensures r.title == OrString(b.title, "") && r.thumbnailUrl == OrString(b.thumbnailUrl, "")
    ensures r.lang == OrString(b.lang, DefaultLang)
    ensures r.subtitles == OrArray(b.subtitles, []) && r.translatedSubtitles == OrArray(b.translatedSubtitles, [])
    ensures r.translatedTo == if Truthy(b.translatedTo) then Some(b.translatedTo.v) else None
    ensures r.createdAt == now && r.updatedAt == now
  {
    Record(userId, videoId,
      OrString(b.title, ""), OrString(b.thumbnailUrl, ""), OrString(b.lang, DefaultLang),
      OrArray(b.subtitles, []),
      if Truthy(b.translatedTo) then Some(b.translatedTo.v) else None,
      OrArray(b.translatedSubtitles, []),
      now, now)
  }

  /** The update path of `POST /`: strings change only to a non-empty
      value, arrays whenever supplied (even `[]`), and `translatedTo`
      whenever it is not `undefined`, so `null` clears it. */
  function PostMerge(stored: Record, b: VideoBody): (r: Record)
    ensures KeyOf(r) == KeyOf(stored) && r.createdAt == stored.createdAt
    ensures r.title == (if Truthy(b.title) then b.title.v else stored.title)
    ensures r.thumbnailUrl == (if Truthy(b.thumbnailUrl) then b.thumbnailUrl.v else stored.thumbnailUrl)
    ensures r.lang == (if Truthy(b.lang) then b.lang.v else stored.lang)
    ensures r.subtitles == (if b.subtitles.Value? then b.subtitles.v else stored.subtitles)
    ensures r.translatedSubtitles == (if b.translatedSubtitles.Value? then b.translatedSubtitles.v else stored.translatedSubtitles)
    ensures b.translatedTo.Undefined? ==> r.translatedTo == stored.translatedTo
    ensures b.translatedTo.Null? ==> r.translatedTo.None?
    ensures b.translatedTo.Value? ==> r.translatedTo == Some(b.translatedTo.v)
  {
    stored.(
      title := OrString(b.title, stored.title),
      thumbnailUrl := OrString(b.thumbnailUrl, stored.thumbnailUrl),
      lang := OrString(b.lang, stored.lang),
      subtitles := OrArray(b.subtitles, stored.subtitles),
      translatedTo := match b.translatedTo
        case Undefined => stored.translatedTo
        case Null => None
        case Value(t) => Some(t),
      translatedSubtitles := OrArray(b.translatedSubtitles, stored.translatedSubtitles))
  }

  /** Merging the same body a second time changes nothing more. */
  lemma PostMergeIdempotent(stored: Record, b: VideoBody)
    ensures PostMerge(PostMerge(stored, b), b) == PostMerge(stored, b)
  {
  }

  /** What `save()` of a document loaded earlier writes: Mongoose sends a
      `$set` of only the paths whose value the handler changed from the
      loaded one, so every other path keeps what the collection holds now. */
  function WriteChanged(current: Record, loaded: Record, edited: Record): (r: Record)
    // with nothing written in between, the edited document is stored
    ensures current == loaded ==> r == edited
    // an edit that changes nothing leaves the stored document as it is
    ensures edited == loaded ==> r == current
    ensures KeyOf(current) == KeyOf(loaded) == KeyOf(edited) ==> KeyOf(r) == KeyOf(current)
    ensures edited.translatedTo == loaded.translatedTo ==> r.translatedTo == current.translatedTo
    ensures edited.translatedSubtitles == loaded.translatedSubtitles ==>
      r.translatedSubtitles == current.translatedSubtitles
  {
    Record(
      if edited.userId != loaded.userId then edited.userId else current.userId,
      if edited.videoId != loaded.videoId then edited.videoId else current.videoId,
      if edited.title != loaded.title then edited.title else current.title,
      if edited.thumbnailUrl != loaded.thumbnailUrl then edited.thumbnailUrl else current.thumbnailUrl,
      if edited.lang != loaded.lang then edited.lang else current.lang,
      if edited.subtitles != loaded.subtitles then edited.subtitles else current.subtitles,
      if edited.translatedTo != loaded.translatedTo then edited.translatedTo else current.translatedTo,
      if edited.translatedSubtitles != loaded.translatedSubtitles then edited.translatedSubtitles
      else current.translatedSubtitles,
      if edited.createdAt != loaded.createdAt then edited.createdAt else current.createdAt,
      if edited.updatedAt != loaded.updatedAt then edited.updatedAt else current.updatedAt)
  }

  /** `POST /` decided on `found`, the result of its `findOne`, and committed
      against `s`, the store when its `save` runs. The validators see the
      edited document; the pre-save hook stamps `updatedAt`. */
  function PostWith(found: Option<Record>, s: Store, userId: UserId, b: VideoBody, now: int): (r: Reply)
    requires found.Some? ==> Truthy(b.videoId) && KeyOf(found.value) == Key(userId, b.videoId.v)
    ensures r.status in {200, 201, 400, 409, 500}
    ensures r.status == 400 <==> !Truthy(b.videoId)
    ensures r.status in {400, 409, 500} ==> r.store == s
    ensures r.status == 409 <==> Truthy(b.videoId) && found.None? && Key(userId, b.videoId.v) in s &&
                                 Valid(Create(userId, b.videoId.v, b, now))
    // the create path writes the new document, re-stamped
    ensures r.status == 201 <==> Truthy(b.videoId) && found.None? && Key(userId, b.videoId.v) !in s &&
                                 Valid(Create(userId, b.videoId.v, b, now))
    ensures r.status == 201 ==>
      r.store == s[Key(userId, b.videoId.v) := Create(userId, b.videoId.v, b, now).(updatedAt := now)]
    // the update path writes the changed paths over the document now stored
    ensures r.status == 200 <==> found.Some? && Key(userId, b.videoId.v) in s && Valid(PostMerge(found.value, b))
    ensures r.status == 200 ==>
      r.store == s[Key(userId, b.videoId.v) :=
                   WriteChanged(s[Key(userId, b.videoId.v)], found.value, PostMerge(found.value, b)).(updatedAt := now)]
  {
    if !Truthy(b.videoId) then Reply(400, s)
    else
      var key := Key(userId, b.videoId.v);
      match found
      case Some(stored) =>
        if key !in s then Reply(500, s)   // the document vanished: save finds nothing to update
        else if !Valid(PostMerge(stored, b)) then Reply(500, s)
        else Reply(200, s[key := WriteChanged(s[key], stored, PostMerge(stored, b)).(updatedAt := now)])
      case None =>
        match Save(s, Create(userId, b.videoId.v, b, now), true, now)
        case Saved(s', _) => Reply(201, s')
        case Failed(DuplicateKey) => Reply(409, s)
        case Failed(ValidationError) => Reply(500, s)
  }

  /** A POST that leaves the translation alone does not undo a translation
      a `PUT` stored after the POST's lookup. */
  lemma PostKeepsConcurrentTranslation(stored: Record, s: Store, userId: UserId, b: VideoBody, now: int)
    requires Truthy(b.videoId) && KeyOf(stored) == Key(userId, b.videoId.v) && Key(userId, b.videoId.v) in s
    requires b.translatedTo.Undefined? && !b.translatedSubtitles.Value?
    ensures var r := PostWith(Some(stored), s, userId, b, now);
      r.status == 200 ==>
        r.store[Key(userId, b.videoId.v)].translatedTo == s[Key(userId, b.videoId.v)].translatedTo &&
        r.store[Key(userId, b.videoId.v)].translatedSubtitles == s[Key(userId, b.videoId.v)].translatedSubtitles
  {
  }

  /** `findOne({ userId, videoId })`. */
  function Find(s: Store, key: Key): (r: Option<Record>)
    ensures r.Some? <==> key in s
    ensures r.Some? ==> r.value == s[key]
  {
    if key in s then Some(s[key]) else None
  }

  /** `POST /`, with nothing interleaved between the lookup and the save. */
  function Post(s: Store, userId: UserId, b: VideoBody, now: int): (r: Reply)
    requires WellKeyed(s)
    // a missing videoId is refused and nothing is written
    ensures r.status == 400 <==> !Truthy(b.videoId)
    ensures r.status in {200, 201, 400, 500}
    ensures r.status in {400, 500} ==> r.store == s
    // a new key is created with every omitted field at its default
    ensures r.status == 201 ==>
      (Key(userId, b.videoId.v) !in s &&
       r.store == s[Key(userId, b.videoId.v) := Create(userId, b.videoId.v, b, now)])
    // an existing key is merged and re-stamped
    ensures r.status == 200 ==>
      (Key(userId, b.videoId.v) in s &&
       r.store == s[Key(userId, b.videoId.v) := PostMerge(s[Key(userId, b.videoId.v)], b).(updatedAt := now)])
    ensures Truthy(b.videoId) ==> OnlyKeyChanged(s, r.store, Key(userId, b.videoId.v))
    ensures WellKeyed(r.store)
  {
    if !Truthy(b.videoId) then Reply(400, s)
    else PostWith(Find(s, Key(userId, b.videoId.v)), s, userId, b, now)
  }

  /** A body carrying only a videoId creates a document equal to the
      schema's defaults. */
  lemma PostCreatesDefaults(s: Store, userId: UserId, videoId: VideoId, now: int)
    requires WellKeyed(s) && userId != "" && videoId != "" && Key(userId, videoId) !in s
    ensures var b := VideoBody(Value(videoId), Undefined, Undefined, Undefined, Undefined, Undefined, Undefined);
      Post(s, userId, b, now) == Reply(201, s[Key(userId, videoId) := NewWithDefaults(userId, videoId, now)])
  {
  }

  /** Two requests that both saw no document both take the create path;
      the unique index turns the second save into a 409. */
  lemma ConcurrentCreateConflicts(s: Store, userId: UserId, b: VideoBody, now: int)
    requires Truthy(b.videoId) && Valid(Create(userId, b.videoId.v, b, now))
    requires Key(userId, b.videoId.v) !in s
    ensures var first := PostWith(None, s, userId, b, now);
      first.status == 201 && PostWith(None, first.store, userId, b, now) == Reply(409, first.store)
  {
  }

  /** An empty `translatedTo` is stored as `null` on creation, but the same
      request repeated writes the empty string, which the enumeration
      rejects: the second POST fails with 500 and changes nothing. */
  lemma EmptyTranslatedToFailsOnResend(s: Store, userId: UserId, videoId: VideoId, now: int, later: int)
    requires WellKeyed(s) && userId != "" && videoId != "" && Key(userId, videoId) !in s
    ensures var b := VideoBody(Value(videoId), Undefined, Undefined, Undefined, Undefined, Value(""), Undefined);
      var first := Post(s, userId, b, now);
      first.status == 201 && first.store[Key(userId, videoId)].translatedTo.None? &&
      Post(first.store, userId, b, later) == Reply(500, first.store)
  {
    var b := VideoBody(Value(videoId), Undefined, Undefined, Undefined, Undefined, Value(""), Undefined);
    var first := Post(s, userId, b, now);
    assert Valid(Create(userId, videoId, b, now));
    assert !Valid(PostMerge(first.store[Key(userId, videoId)], b));
  }

  /** `PUT /:videoId/translation`: overwrites only the translation. */
  function PutTranslation(s: Store, userId: UserId, videoId: VideoId, translatedTo: Js<string>,
                          translatedSubtitles: Js<seq<Cue>>, now: int): (r: Reply)
    requires WellKeyed(s)
    ensures r.status in {200, 400, 404, 500}
    ensures r.status == 400 <==> !Truthy(translatedTo)
    ensures r.status == 404 <==> Truthy(translatedTo) && Key(userId, videoId) !in s
    ensures r.status != 200 ==> r.store == s
    ensures r.status == 200 ==>
      (Key(userId, videoId) in s && translatedTo.v in Languages &&
       r.store == s[Key(userId, videoId) := s[Key(userId, videoId)].(
         translatedTo := Some(translatedTo.v),
         translatedSubtitles := OrArray(translatedSubtitles, []),
         updatedAt := now)])
  {
    var key := Key(userId, videoId);
    if !Truthy(translatedTo) then Reply(400, s)
    else if key !in s then Reply(404, s)
    else
      var updated := s[key].(translatedTo := Some(translatedTo.v), translatedSubtitles := OrArray(translatedSubtitles, []));
      match Save(s, updated, false, now)
      case Saved(s', _) => Reply(200, s')
      case Failed(_) => Reply(500, s)
  }

  /** A translation update on a valid document succeeds exactly when the
      language is one of the eight codes and the subtitles are complete. */
  lemma PutTranslationSucceeds(s: Store, userId: UserId, videoId: VideoId, t: string, subs: seq<Cue>, now: int)
    requires WellKeyed(s) && Key(userId, videoId) in s && Valid(s[Key(userId, videoId)]) && t != ""
    ensures PutTranslation(s, userId, videoId, Value(t), Value(subs), now).status == 200 <==>
      t in Languages && CuesComplete(subs)
  {
  }

  /** `DELETE /:videoId`, and the admin `DELETE /admin/user/:userId/:videoId`
      with both ids from the path. */
  function Delete(s: Store, userId: UserId, videoId: VideoId): (r: Reply)
    ensures r.status in {200, 404}
    ensures r.status == 404 <==> Key(userId, videoId) !in s
    ensures r.status == 404 ==> r.store == s
    ensures r.status == 200 ==> r.store.Keys == s.Keys - {Key(userId, videoId)}
    ensures OnlyKeyChanged(s, r.store, Key(userId, videoId))
  {
    var key := Key(userId, videoId);
    if key !in s then Reply(404, s) else Reply(200, s - {key})
  }

  // ----- POST /sync -----

  /** An element of the `videos` array: `null`, or an object. */
  datatype SyncItem = NullItem | Item(body: VideoBody)

  datatype Action = Created | Updated

  datatype Done = Done(videoId: VideoId, action: Action)

  datatype FailReason = MissingVideoId | SaveFailed(error: SaveError)

  /** A `failed` entry; a missing id is reported as the text `unknown`. */
  datatype Fail = Fail(videoId: string, reason: FailReason)

  /** The update rule of a sync: strings and subtitles as in POST, but the
      translation is only replaced by a truthy `translatedTo`, and then
      together with its subtitles (or `[]`). */
  function SyncMerge(stored: Record, b: VideoBody): (r: Record)
    ensures KeyOf(r) == KeyOf(stored) && r.createdAt == stored.createdAt
    ensures r.title == OrString(b.title, stored.title) && r.lang == OrString(b.lang, stored.lang)
    ensures r.thumbnailUrl == OrString(b.thumbnailUrl, stored.thumbnailUrl)
    ensures r.subtitles == OrArray(b.subtitles, stored.subtitles)
    ensures !Truthy(b.translatedTo) ==>
      r.translatedTo == stored.translatedTo && r.translatedSubtitles == stored.translatedSubtitles
    ensures Truthy(b.translatedTo) ==>
      r.translatedTo == Some(b.translatedTo.v) && r.translatedSubtitles == OrArray(b.translatedSubtitles, [])
  {
    var base := stored.(
      title := OrString(b.title, stored.title),
      thumbnailUrl := OrString(b.thumbnailUrl, stored.thumbnailUrl),
      lang := OrString(b.lang, stored.lang),
      subtitles := OrArray(b.subtitles, stored.subtitles));
    if Truthy(b.translatedTo) then
      base.(translatedTo := Some(b.translatedTo.v), translatedSubtitles := OrArray(b.translatedSubtitles, []))
    else base
  }

  /** One object of the sync array: exactly one `success` or `failed` entry. */
  datatype ItemStep = ItemStep(store: Store, done: seq<Done>, failed: seq<Fail>)

  function SyncOne(s: Store, userId: UserId, b: VideoBody, now: int): (r: ItemStep)
    requires WellKeyed(s)
    ensures |r.done| + |r.failed| == 1
    ensures !Truthy(b.videoId) ==> r.failed == [Fail("unknown", MissingVideoId)] && r.store == s
    ensures |r.done| == 1 ==>
      (Truthy(b.videoId) && r.done[0].videoId == b.videoId.v &&
       (r.done[0].action == Created <==> Key(userId, b.videoId.v) !in s))
    ensures |r.failed| == 1 ==> r.store == s
    // an item with an id succeeds exactly when the document it would write is valid
    ensures Truthy(b.videoId) ==>
      (|r.done| == 1 <==>
         Valid(if Key(userId, b.videoId.v) in s then SyncMerge(s[Key(userId, b.videoId.v)], b)
               else Create(userId, b.videoId.v, b, now)))
    ensures |r.failed| == 1 && Truthy(b.videoId) ==> r.failed[0].videoId == b.videoId.v && r.failed[0].reason.SaveFailed?
    // a created item stores the create path's document, an updated one the merge, both re-stamped
    ensures |r.done| == 1 && r.done[0].action == Created ==>
      r.store == s[Key(userId, b.videoId.v) := Create(userId, b.videoId.v, b, now).(updatedAt := now)]
    ensures |r.done| == 1 && r.done[0].action == Updated ==>
      r.store == s[Key(userId, b.videoId.v) := SyncMerge(s[Key(userId, b.videoId.v)], b).(updatedAt := now)]
    ensures |r.done| == 1 ==> Key(userId, b.videoId.v) in r.store && OnlyKeyChanged(s, r.store, Key(userId, b.videoId.v))
    ensures s.Keys <= r.store.Keys && WellKeyed(r.store)
  {
    if !Truthy(b.videoId) then ItemStep(s, [], [Fail("unknown", MissingVideoId)])
    else
      var id := b.videoId.v;
      var key := Key(userId, id);
      if key !in s then
        (match Save(s, Create(userId, id, b, now), true, now)
         case Saved(s', _) => ItemStep(s', [Done(id, Created)], [])
         case Failed(e) => ItemStep(s, [], [Fail(id, SaveFailed(e))]))
      else
        match Save(s, SyncMerge(s[key], b), false, now)
        case Saved(s', _) => ItemStep(s', [Done(id, Updated)], [])
        case Failed(e) => ItemStep(s, [], [Fail(id, SaveFailed(e))])
  }

  /** For a key not yet stored, a sync item creates the same document as
      `POST /` with the same body; for a stored key both keep the creation
      time and update the same fields, except that only POST lets a `null`
      or an empty `translatedTo` through. */
  lemma SyncAgreesWithPost(s: Store, userId: UserId, b: VideoBody, now: int)
    requires WellKeyed(s) && Truthy(b.videoId)
    ensures Key(userId, b.videoId.v) !in s ==>
      (SyncOne(s, userId, b, now).store == Post(s, userId, b, now).store &&
       (|SyncOne(s, userId, b, now).done| == 1 <==> Post(s, userId, b, now).status == 201))
    ensures Key(userId, b.videoId.v) in s && Truthy(b.translatedTo) ==>
      SyncMerge(s[Key(userId, b.videoId.v)], b) ==
        PostMerge(s[Key(userId, b.videoId.v)], b.(translatedSubtitles := Value(OrArray(b.translatedSubtitles, []))))
  {
  }

  datatype SyncReply = SyncReply(status: int, store: Store, success: seq<Done>, failed: seq<Fail>)

  predicate HasNull(items: seq<SyncItem>) {
    exists i :: 0 <= i < |items| && items[i].NullItem?
  }

  /** The loop over the array, one item after the other, each seeing the
      writes of the ones before. A `null` element makes the error handler
      itself throw (`video.videoId` on `null`), so the request ends with
      500; the writes of the earlier items stay. */
  function SyncItems(s: Store, userId: UserId, items: seq<SyncItem>, now: int): (r: SyncReply)
    requires WellKeyed(s)
    ensures r.status == 200 <==> !HasNull(items)
    ensures r.status != 200 ==> r.status == 500 && r.success == [] && r.failed == []
    ensures r.status == 200 ==> |r.success| + |r.failed| == |items|
    ensures s.Keys <= r.store.Keys && WellKeyed(r.store)
    ensures forall d :: d in r.success ==> Key(userId, d.videoId) in r.store
    decreases |items|
  {
    if |items| == 0 then SyncReply(200, s, [], [])
    else match items[0]
      case NullItem => SyncReply(500, s, [], [])
      case Item(b) =>
        var one := SyncOne(s, userId, b, now);
        var rest := SyncItems(one.store, userId, items[1..], now);
        assert HasNull(items) <==> HasNull(items[1..]) by {
          if HasNull(items[1..]) {
            var i :| 0 <= i < |items[1..]| && items[1..][i].NullItem?;
            assert items[i + 1].NullItem?;
          }
        }
        if rest.status != 200 then rest
        else SyncReply(200, rest.store, one.done + rest.success, one.failed + rest.failed)
  }

  /** On the 200 path the first item is reported by its own entry, ahead of
      the entries of the rest, which run against the store it left. */
  lemma SyncItemsCons(s: Store, userId: UserId, b: VideoBody, rest: seq<SyncItem>, now: int)
    requires WellKeyed(s)
    ensures var one := SyncOne(s, userId, b, now);
      var tail := SyncItems(one.store, userId, rest, now);
      var r := SyncItems(s, userId, [Item(b)] + rest, now);
      && (tail.status == 200 ==>
            r == SyncReply(200, tail.store, one.done + tail.success, one.failed + tail.failed))
      && (tail.status != 200 ==> r == tail)
  {
    assert ([Item(b)] + rest)[0] == Item(b) && ([Item(b)] + rest)[1..] == rest;
  }

  /** A `null` element ends the request with 500 and no report, while the
      writes of every item before it stay in the store. */
  lemma {:induction false} SyncNullKeepsEarlierWrites(s: Store, userId: UserId, pre: seq<SyncItem>,
                                                      post: seq<SyncItem>, now: int)
    requires WellKeyed(s) && !HasNull(pre)
    ensures SyncItems(s, userId, pre + [NullItem] + post, now) ==
      SyncReply(500, SyncItems(s, userId, pre, now).store, [], [])
    decreases |pre|
  {
    var items := pre + [NullItem] + post;
    if |pre| == 0 {
      assert items[0] == NullItem;
    } else {
      assert items[0] == pre[0];
      assert items[1..] == pre[1..] + [NullItem] + post;
      var one := SyncOne(s, userId, pre[0].body, now);
      SyncNullKeepsEarlierWrites(one.store, userId, pre[1..], post, now);
      var tail := SyncItems(one.store, userId, pre[1..], now);
      assert tail.status == 200;
    }
  }

  /** Without a `null` element every item is reported exactly once, in
      input order: each item's entry comes from its own step, run against
      the store the items before it left. */
  lemma {:induction false} SyncReportsEachItem(s: Store, userId: UserId, items: seq<SyncItem>, now: int)
    requires WellKeyed(s) && !HasNull(items)
    ensures var r := SyncItems(s, userId, items, now);
      r.status == 200 &&
      (|items| == 0 ==> r == SyncReply(200, s, [], [])) &&
      (|items| > 0 ==>
         var one := SyncOne(s, userId, items[0].body, now);
         var tail := SyncItems(one.store, userId, items[1..], now);
         r.success == one.done + tail.success && r.failed == one.failed + tail.failed &&
         r.store == tail.store)
    decreases |items|
  {
    if |items| > 0 {
      SyncItemsCons(s, userId, items[0].body, items[1..], now);
      assert items == [Item(items[0].body)] + items[1..];
    }
  }

  /** `POST /sync`. */
  function Sync(s: Store, userId: UserId, videos: Option<seq<SyncItem>>, now: int): (r: SyncReply)
    requires WellKeyed(s)
    ensures videos.None? ==> r.status == 400 && r.store == s
    ensures videos.Some? ==> (r.status == 200 <==> !HasNull(videos.value))
    ensures r.status == 200 ==> |r.success| + |r.failed| == |videos.value|
    ensures s.Keys <= r.store.Keys && WellKeyed(r.store)
  {
    if videos.None? then SyncReply(400, s, [], []) else SyncItems(s, userId, videos.value, now)
  }
}
