/** The pagination arithmetic of the three paginated admin listings: the
    number of documents to skip for a page, the page count, and the slice
    of a sorted result the `skip`/`limit` pair selects. */
module Pagination {
  import opened Common

  /** `(page - 1) * limit`: the documents that precede `page`. */
  function Skip(page: int, limit: int): (r: int)
    ensures r + limit == page * limit
    // for a positive limit the skip is negative exactly for a page below 1
    ensures limit >= 1 ==> (r >= 0 <==> page >= 1)
    ensures limit >= 1 && page < 1 ==> r <= -limit
  {
    (page - 1) * limit
  }

  /** `Math.ceil(total / limit)`: the fewest pages of `limit` that hold
      `total` documents. */
  function TotalPages(total: nat, limit: int): (r: nat)
    requires limit >= 1
  {
    (total + limit - 1) / limit
  }

  /** The page count is the least `n` with `n * limit >= total`. */
  lemma TotalPagesIsCeiling(total: nat, limit: int)
    requires limit >= 1
    ensures TotalPages(total, limit) * limit >= total
    ensures TotalPages(total, limit) == 0 || (TotalPages(total, limit) - 1) * limit < total
  {
    var n := TotalPages(total, limit);
    var q := total + limit - 1;
    assert q == n * limit + q % limit;
    assert 0 <= q % limit < limit;
  }

  /** No documents, no pages; otherwise at least one. */
  lemma TotalPagesZeroIffEmpty(total: nat, limit: int)
    requires limit >= 1
    ensures TotalPages(total, limit) == 0 <==> total == 0
  {
    TotalPagesIsCeiling(total, limit);
  }

  /** `.skip(skip).limit(limit)` over an already sorted result. */
  function PageSlice<T>(xs: seq<T>, page: int, limit: int): (r: seq<T>)
    requires page >= 1 && limit >= 1
    ensures |r| == Max(0, Min(limit, |xs| - Skip(page, limit)))
    ensures forall i :: 0 <= i < |r| ==> r[i] == xs[Skip(page, limit) + i]
  {
    var lo := Min(Skip(page, limit), |xs|);
    var hi := Min(Skip(page, limit) + limit, |xs|);
    xs[lo..hi]
  }

  /** What a listing's `.skip(skip).limit(limit)` answers for any page
      number read from the query: the database refuses a negative skip, and
      the handler then answers 500 (`None`). */
  function QueryPage<T>(xs: seq<T>, page: int, limit: int): (r: Option<seq<T>>)
    requires limit >= 1
    ensures r.None? <==> page < 1
    ensures r.Some? ==> |r.value| <= limit
    ensures r.Some? ==> (Skip(page, limit) < |xs| <==> |r.value| > 0)
    ensures r.Some? ==> forall i :: 0 <= i < |r.value| ==>
      Skip(page, limit) + i < |xs| && r.value[i] == xs[Skip(page, limit) + i]
  {
    if Skip(page, limit) < 0 then None else Some(PageSlice(xs, page, limit))
  }

  /** Pages `p` to `last`, in order, laid end to end. */
  function PagesFrom<T>(xs: seq<T>, limit: int, p: int, last: int): seq<T>
    requires p >= 1 && limit >= 1
    decreases last - p + 1
  {
    if p > last then [] else PageSlice(xs, p, limit) + PagesFrom(xs, limit, p + 1, last)
  }

  /** The pages from `p` onwards, up to the reported page count, hold
      exactly the documents from `Skip(p)` onwards. */
  lemma {:induction false} PagesFromCoverSuffix<T>(xs: seq<T>, limit: int, p: int)
    requires p >= 1 && limit >= 1
    requires p <= TotalPages(|xs|, limit) + 1
    ensures PagesFrom(xs, limit, p, TotalPages(|xs|, limit)) == xs[Min(Skip(p, limit), |xs|)..]
    decreases TotalPages(|xs|, limit) - p + 1
  {
    var n := TotalPages(|xs|, limit);
    TotalPagesIsCeiling(|xs|, limit);
    if p > n {
      assert p == n + 1;
      assert Skip(p, limit) == n * limit >= |xs|;
    } else {
      PagesFromCoverSuffix(xs, limit, p + 1);
      var lo := Min(Skip(p, limit), |xs|);
      var hi := Min(Skip(p, limit) + limit, |xs|);
      assert Skip(p + 1, limit) == Skip(p, limit) + limit;
      assert xs[lo..] == xs[lo..hi] + xs[hi..];
    }
  }

  /** Pages 1 to `TotalPages` together list every document exactly once,
      in order: no document is skipped and none is shown twice. */
  lemma PagesCoverAll<T>(xs: seq<T>, limit: int)
    requires limit >= 1
    ensures PagesFrom(xs, limit, 1, TotalPages(|xs|, limit)) == xs
  {
    PagesFromCoverSuffix(xs, limit, 1);
  }

  /** Skips grow with the page number. */
  lemma SkipMonotone(p: int, q: int, limit: int)
    requires 1 <= p <= q && limit >= 1
    ensures Skip(p, limit) + (q - p) * limit == Skip(q, limit)
    ensures Skip(p, limit) <= Skip(q, limit)
  {
    assert (q - 1) * limit == (p - 1) * limit + (q - p) * limit;
  }

  /** Every page up to the count is non-empty, and any page after it is empty. */
  lemma PagesWithinCountAreNonEmpty<T>(xs: seq<T>, limit: int, page: int)
    requires page >= 1 && limit >= 1
    ensures page <= TotalPages(|xs|, limit) <==> PageSlice(xs, page, limit) != []
  {
    TotalPagesIsCeiling(|xs|, limit);
    var n := TotalPages(|xs|, limit);
    if page <= n {
      SkipMonotone(page, n, limit);
      assert Skip(n, limit) < |xs|;
    } else {
      SkipMonotone(n + 1, page, limit);
      assert Skip(n + 1, limit) == n * limit;
    }
  }
}
