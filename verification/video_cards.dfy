/** The card shown for a saved video in the player's sidebar. The player
    page and the saved-videos hook declare the same six-field shape, and
    both rename a card the same way. */
module VideoCards {
  import opened Common

  /** `{ id, url, title, thumbnail, lang, addedAt }`; `addedAt` is in ms. */
  datatype VideoCard = VideoCard(id: string, url: string, title: string, thumbnail: string, lang: string, addedAt: int)

  predicate HasCard(cards: seq<VideoCard>, id: string) {
    exists i :: 0 <= i < |cards| && cards[i].id == id
  }

  predicate DistinctCards(cards: seq<VideoCard>) {
    forall i, j :: 0 <= i < j < |cards| ==> cards[i].id != cards[j].id
  }

  /** `cards.map(v => v.id === id ? { ...v, title: newTitle } : v)`. */
  function RenameCards(cards: seq<VideoCard>, id: string, newTitle: string): (r: seq<VideoCard>)
    ensures |r| == |cards|
    // only the title of a matching card changes
    ensures forall i :: 0 <= i < |cards| && cards[i].id == id ==> r[i] == cards[i].(title := newTitle)
    ensures forall i :: 0 <= i < |cards| && cards[i].id != id ==> r[i] == cards[i]
    ensures !HasCard(cards, id) ==> r == cards
  {
    Map(cards, (v: VideoCard) => if v.id == id then v.(title := newTitle) else v)
  }

  /** Renaming keeps the id list, so distinct ids stay distinct. */
  lemma RenameKeepsIds(cards: seq<VideoCard>, id: string, newTitle: string)
    ensures forall i :: 0 <= i < |cards| ==> RenameCards(cards, id, newTitle)[i].id == cards[i].id
    ensures DistinctCards(cards) ==> DistinctCards(RenameCards(cards, id, newTitle))
  {
  }

  /** Renaming twice is renaming once with the last title. */
  lemma RenameTwice(cards: seq<VideoCard>, id: string, t1: string, t2: string)
    ensures RenameCards(RenameCards(cards, id, t1), id, t2) == RenameCards(cards, id, t2)
  {
  }
}
