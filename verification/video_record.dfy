/** The saved-video document of the backend: its fields, the two language
    enumerations, the defaults, the per-subtitle required fields, the
    unique `(userId, videoId)` index and the `updatedAt` refresh on save.
    A collection of such documents is a map keyed by the unique index. */
module VideoRecord {
  import opened Common

  /** The eight codes accepted for `lang`, and (with `null`) for `translatedTo`. */
  const Languages: set<string> := {"ko", "en", "ja", "zh", "vi", "id", "th", "my"}

  /** `lang`'s default. */
  const DefaultLang: string := "ko"

  /** One subtitle line as the request carries it; the schema requires all
      three fields. */
  datatype Cue = Cue(start: Option<int>, duration: Option<int>, text: Option<string>)

  /** A String path marked `required` rejects a missing value and the empty string. */
  predicate CueComplete(c: Cue) {
    c.start.Some? && c.duration.Some? && c.text.Some? && c.text.value != ""
  }

  predicate CuesComplete(cs: seq<Cue>) {
    forall i :: 0 <= i < |cs| ==> CueComplete(cs[i])
  }

  type UserId = string
  type VideoId = string

  datatype Key = Key(userId: UserId, videoId: VideoId)

  /** One stored document. `translatedTo` is `None` for `null`. Times are
      milliseconds. */
  datatype Record = Record(
    userId: UserId,
    videoId: VideoId,
    title: string,
    thumbnailUrl: string,
    lang: string,
    subtitles: seq<Cue>,
    translatedTo: Option<string>,
    translatedSubtitles: seq<Cue>,
    createdAt: int,
    updatedAt: int)

  function KeyOf(r: Record): Key { Key(r.userId, r.videoId) }

  /** The schema's validators: required ids, the two enumerations and the
      required subtitle fields. */
  predicate Valid(r: Record) {
    && r.userId != "" && r.videoId != ""
    && r.lang in Languages
    && (r.translatedTo.Some? ==> r.translatedTo.value in Languages)
    && CuesComplete(r.subtitles) && CuesComplete(r.translatedSubtitles)
  }

  /** A new document built from only the required fields takes every
      default: empty title and thumbnail, Korean, no subtitles, no
      translation, both timestamps at creation time. */
  function NewWithDefaults(userId: UserId, videoId: VideoId, now: int): (r: Record)
    requires userId != "" && videoId != ""
    ensures Valid(r) && KeyOf(r) == Key(userId, videoId)
    ensures r.title == "" && r.thumbnailUrl == "" && r.lang == "ko"
    ensures r.subtitles == [] && r.translatedTo.None? && r.translatedSubtitles == []
    ensures r.createdAt == now && r.updatedAt == now
  {
    Record(userId, videoId, "", "", DefaultLang, [], None, [], now, now)
  }

  /** The collection, indexed by the unique `(userId, videoId)` pair. */
  type Store = map<Key, Record>

  /** Every document sits under its own key. */
  predicate WellKeyed(s: Store) {
    forall k :: k in s ==> KeyOf(s[k]) == k
  }

  datatype SaveError = ValidationError | DuplicateKey

  /** `document.save()`: the validators run first, a new document whose key
      is taken violates the unique index (error code 11000), and the
      pre-save hook stamps `updatedAt`. */
  function Save(s: Store, r: Record, isNew: bool, now: int): (res: Result)
    ensures res.Saved? <==> Valid(r) && !(isNew && KeyOf(r) in s)
    ensures res.Failed? && !Valid(r) ==> res.error == ValidationError
    ensures res.Failed? && Valid(r) ==> res.error == DuplicateKey && isNew && KeyOf(r) in s
    ensures res.Saved? ==> res.store == s[KeyOf(r) := r.(updatedAt := now)]
    ensures res.Saved? ==> res.record == r.(updatedAt := now) && Valid(res.record)
  {
    if !Valid(r) then Failed(ValidationError)
    else if isNew && KeyOf(r) in s then Failed(DuplicateKey)
    else
      var stamped := r.(updatedAt := now);
      Saved(s[KeyOf(r) := stamped], stamped)
  }

  datatype Result = Saved(store: Store, record: Record) | Failed(error: SaveError)

  /** A save keeps every document under its own key and at most one per key. */
  lemma SaveKeepsWellKeyed(s: Store, r: Record, isNew: bool, now: int)
    requires WellKeyed(s)
    ensures Save(s, r, isNew, now).Saved? ==> WellKeyed(Save(s, r, isNew, now).store)
  {
  }
}
