/** The document-link instance of the cache slot, and `getDocumentData`. */
module DocumentCache {
  import opened Common
  import opened SlotCache

  /** `DocumentLinkItem`. */
  datatype DocumentLink = DocumentLink(
    id: string,
    title: string,
    description: Option<string>,
    category: string,
    skill: Option<string>,
    googleDriveLink: string,
    previewImageUrl: Option<string>,
    fileType: string,
    year: Option<int>)

  type DocumentSlot = Slot<DocumentLink>

  /** What `getDocumentData` settles to. It has no `catch`, so a rejected
      joined load reaches its caller as a rejection. */
  datatype DocumentAnswer = Found(doc: DocumentLink) | NotFound | Threw

  /** The first document whose `id` is strictly equal to `documentId`. */
  function GetDocumentData(all: Joined<DocumentLink>, documentId: string): (r: DocumentAnswer)
    ensures r.Threw? <==> all.Rejected?
    ensures r.Found? ==> r.doc.id == documentId
    ensures r.Found? ==> (exists i :: 0 <= i < |all.data| && all.data[i] == r.doc &&
                           forall j :: 0 <= j < i ==> all.data[j].id != documentId)
    ensures r.NotFound? <==> all.Resolved? && forall d :: d in all.data ==> d.id != documentId
  {
    match all
    case Rejected => Threw
    case Resolved(xs) =>
      match FirstIndex(xs, (d: DocumentLink) => d.id == documentId)
      case None => NotFound
      case Some(i) => Found(xs[i])
  }

  /** For a valid document slot, the reported age and remaining seconds
      never add up to more than the one-hour TTL. */
  lemma DocumentStatsWithinHour(s: DocumentSlot, now: int)
    requires GetStats(s, now).status == Valid
    ensures GetStats(s, now).ageSeconds + GetStats(s, now).remainingSeconds <= 3600
  {
    StatsAgeBudget(s, now);
  }
}
