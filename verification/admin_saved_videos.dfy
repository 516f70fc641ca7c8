/** The admin saved-videos page: the search box, the previous/next pager
    over the user list, and the two overview figures taken from the
    server's top lists. The fetches themselves are inputs: `PagesLoaded`
    stands for a user-list response arriving with its page count. */
module AdminSavedVideos {
  import opened Common

  /** The page's list state: the typed text, the applied search, the
      current page and the page count last received. */
  datatype ListState = ListState(searchInput: string, search: string, page: int, totalPages: int)

  /** `page = 1`, `totalPages = 1`, no search. */
  const Initial: ListState := ListState("", "", 1, 1)

  datatype Event = Typed(text: string) | SearchClicked | PrevClicked | NextClicked | PagesLoaded(totalPages: nat)

  /** The pager is rendered only when there is more than one page. */
  predicate PagerShown(s: ListState) {
    s.totalPages > 1
  }

  predicate PrevEnabled(s: ListState) { PagerShown(s) && s.page != 1 }

  predicate NextEnabled(s: ListState) { PagerShown(s) && s.page != s.totalPages }

  /** One event; a click on a hidden or disabled button does nothing. */
  function Step(s: ListState, e: Event): (r: ListState)
    ensures e.SearchClicked? ==> r == s.(search := s.searchInput, page := 1)
    ensures e.PrevClicked? && PrevEnabled(s) ==> r == s.(page := Max(1, s.page - 1))
    ensures e.NextClicked? && NextEnabled(s) ==> r == s.(page := Min(s.totalPages, s.page + 1))
    ensures (e.PrevClicked? && !PrevEnabled(s)) || (e.NextClicked? && !NextEnabled(s)) ==> r == s
    ensures !e.PagesLoaded? ==> r.totalPages == s.totalPages
    // typing changes only the box; a response changes only the page count
    ensures e.Typed? ==> r == s.(searchInput := e.text)
    ensures e.PagesLoaded? ==> r == s.(totalPages := e.totalPages)
  {
    match e
    case Typed(t) => s.(searchInput := t)
    case SearchClicked => s.(search := s.searchInput, page := 1)
    case PrevClicked => if PrevEnabled(s) then s.(page := Max(1, s.page - 1)) else s
    case NextClicked => if NextEnabled(s) then s.(page := Min(s.totalPages, s.page + 1)) else s
    case PagesLoaded(n) => s.(totalPages := n)
  }

  /** The page stays at least 1 through every event. */
  lemma PageAtLeastOne(s: ListState, e: Event)
    requires s.page >= 1
    ensures Step(s, e).page >= 1
  {
  }

  /** While the page count does not change, clicks keep the page within
      `1..totalPages`; a search always returns to page 1. */
  lemma ClicksStayInRange(s: ListState, e: Event)
    requires 1 <= s.page <= s.totalPages && !e.PagesLoaded?
    ensures 1 <= Step(s, e).page <= Step(s, e).totalPages
    ensures e.PrevClicked? && PrevEnabled(s) ==> Step(s, e).page == s.page - 1
    ensures e.NextClicked? && NextEnabled(s) ==> Step(s, e).page == s.page + 1
  {
  }

  /** A page count that shrank under the current page is repaired by the
      next button, which jumps back to the last page. */
  lemma NextClampsStalePage(s: ListState)
    requires s.totalPages > 1 && s.page > s.totalPages
    ensures Step(s, NextClicked).page == s.totalPages
  {
  }

  /** A run of events. */
  function Run(s: ListState, es: seq<Event>): ListState
    decreases |es|
  {
    if |es| == 0 then s else Run(Step(s, es[0]), es[1..])
  }

  /** From the initial state, every run without page-count updates stays on page 1
      of 1: the pager never shows. */
  lemma {:induction false} NoPagerWithoutPages(es: seq<Event>)
    requires forall i :: 0 <= i < |es| ==> !es[i].PagesLoaded?
    ensures Run(Initial, es).page == 1 && !PagerShown(Run(Initial, es))
  {
    RunKeepsSinglePage(Initial, es);
  }

  lemma {:induction false} RunKeepsSinglePage(s: ListState, es: seq<Event>)
    requires s.page == 1 && s.totalPages == 1
    requires forall i :: 0 <= i < |es| ==> !es[i].PagesLoaded?
    ensures Run(s, es).page == 1 && Run(s, es).totalPages == 1
    decreases |es|
  {
    if |es| > 0 {
      RunKeepsSinglePage(Step(s, es[0]), es[1..]);
    }
  }

  /** One entry of the overview's top lists. */
  datatype TopEntry = TopEntry(id: string, count: nat)

  /** The "Top Saved Videos" grid: at most six, in server order. */
  function TopVideosShown(topVideos: seq<TopEntry>): (r: seq<TopEntry>)
    ensures |r| == Min(6, |topVideos|)
    ensures r == topVideos[..|r|]
  {
    if |topVideos| <= 6 then topVideos else topVideos[..6]
  }

  /** "Most Active User": the first user's count, or 0 with no users. */
  function MostActive(topUsers: seq<TopEntry>): (n: nat)
    ensures |topUsers| == 0 ==> n == 0
    ensures |topUsers| > 0 ==> n == topUsers[0].count
  {
    if |topUsers| > 0 && topUsers[0].count != 0 then topUsers[0].count else 0
  }
}
