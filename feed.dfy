/**
 * The infinite feed of frontend/src/components/Feed.tsx: the page cursor,
 * the flattening of fetched pages, the total count, the scroll-sentinel
 * guard, the search and filter flags, the query key and the per-page
 * request. The fetched pages are the `ArticlesResponse` bodies the server
 * sends.
 */
module Feed {
  import opened Common
  import opened Paging
  import Api
  import Text

  const FirstPageParam := 1
  const FeedPageSize := 20

  /** `getNextPageParam`: the next page when the last one says there is more. */
  function NextPageParam(last: ArticlesResponse): (r: Option<int>)
    ensures r.Some? <==> last.hasMore
    ensures r.Some? ==> r.value == last.page + 1
  {
    if last.hasMore then Some(last.page + 1) else None
  }

  /**
   * Against the server's paging, the cursor walks pages 1, 2, ... and
   * stops exactly at the last page, ceil(total / 20).
   */
  lemma CursorStopsAtLastPage(articles: seq<Article>, totalCount: nat, p: int)
    requires totalCount > 0
    requires 1 <= p <= (totalCount + FeedPageSize - 1) / FeedPageSize
    ensures var last := (totalCount + FeedPageSize - 1) / FeedPageSize;
      var next := NextPageParam(Respond(articles, totalCount, Clamp(p, FeedPageSize)));
      && (p < last ==> next == Some(p + 1))
      && (p == last ==> next.None?)
  {
    LastPage(totalCount, FeedPageSize);
  }

  /** `pages.flatMap((page) => page.articles)`. */
  function Flatten(pages: seq<ArticlesResponse>): (r: seq<Article>)
    ensures |pages| == 0 ==> r == []
  {
    if |pages| == 0 then [] else pages[0].articles + Flatten(pages[1..])
  }

  /** A newly fetched page's articles come after all earlier ones. */
  lemma {:induction false} FlattenAppend(pages: seq<ArticlesResponse>, page: ArticlesResponse)
    ensures Flatten(pages + [page]) == Flatten(pages) + page.articles
  {
    if |pages| > 0 {
      assert (pages + [page])[1..] == pages[1..] + [page];
      FlattenAppend(pages[1..], page);
    } else {
      assert pages + [page] == [page];
    }
  }

  /** `data?.pages[0]?.total_count || 0`. */
  function TotalCount(pages: seq<ArticlesResponse>): (r: int)
    ensures |pages| == 0 ==> r == 0
    ensures |pages| > 0 ==> r == pages[0].totalCount
  {
    if |pages| == 0 || pages[0].totalCount == 0 then 0 else pages[0].totalCount
  }

  /** `searchParams.get('search') || ''`, then `urlSearch || searchQuery`. */
  function EffectiveSearch(urlSearch: Option<string>, searchQuery: string): (r: string)
    ensures urlSearch.Some? && urlSearch.value != "" ==> r == urlSearch.value
    ensures urlSearch.None? || urlSearch.value == "" ==> r == searchQuery
  {
    var fromUrl := if urlSearch.Some? then urlSearch.value else "";
    if fromUrl != "" then fromUrl else searchQuery
  }

  /** Line 74. */
  predicate HasActiveFilters(selectedTags: seq<string>, effectiveSearch: string) {
    |selectedTags| > 0 || effectiveSearch != ""
  }

  /** Line 258: "You've reached the end". */
  predicate ShowEndOfList(hasNextPage: bool, articles: seq<Article>) {
    !hasNextPage && |articles| > 0
  }

  /**
   * Filters count as active exactly when a tag is selected, the URL has a
   * non-empty search, or the store's search is non-empty; after
   * `clearFilters` with no URL search, none is.
   */
  lemma ActiveFilters(selectedTags: seq<string>, urlSearch: Option<string>, searchQuery: string)
    ensures HasActiveFilters(selectedTags, EffectiveSearch(urlSearch, searchQuery)) <==>
      |selectedTags| > 0 || (urlSearch.Some? && urlSearch.value != "") || searchQuery != ""
    ensures !HasActiveFilters([], EffectiveSearch(None, ""))
  {
  }

  /**
   * The end marker shows once the last fetched page reports no more and
   * something was loaded; while the last page reports more it never shows.
   */
  lemma EndMarker(pages: seq<ArticlesResponse>)
    requires |pages| > 0
    ensures var hasNext := NextPageParam(pages[|pages| - 1]).Some?;
      ShowEndOfList(hasNext, Flatten(pages)) <==> !pages[|pages| - 1].hasMore && |Flatten(pages)| > 0
  {
  }

  /** The query key `['articles', selectedTags, effectiveSearch, sortBy]`. */
  datatype QueryKey = QueryKey(selectedTags: seq<string>, effectiveSearch: string, sortBy: SortOption)

  /**
   * The tag list in the key is ordered: the same tags chosen in another
   * order (here the first two swapped) are another query.
   */
  lemma TagOrderChangesKey(tags: seq<string>, search: string, sortBy: SortOption)
    requires |tags| >= 2 && tags[0] != tags[1]
    ensures var swapped := [tags[1], tags[0]] + tags[2..];
      && multiset(swapped) == multiset(tags)
      && QueryKey(swapped, search, sortBy) != QueryKey(tags, search, sortBy)
  {
    var swapped := [tags[1], tags[0]] + tags[2..];
    assert tags == [tags[0], tags[1]] + tags[2..];
    assert swapped[0] != tags[0];
  }

  /** The filters of one page request (lines 36-43). */
  function PageFilters(key: QueryKey, pageParam: int): (f: Api.ArticleFilters)
    ensures f.tags == Some(key.selectedTags) && f.search == Some(key.effectiveSearch)
    ensures f.sortBy == Some(key.sortBy) && f.page == Some(pageParam) && f.pageSize == Some(FeedPageSize)
    ensures Api.NumberValue(f.pageSize) == Some("20")
  {
    assert Text.IntToString(20) == "20" by { assert Text.Digit(2) == '2' && Text.Digit(0) == '0'; }
    Api.ArticleFilters(Some(key.selectedTags), Some(key.effectiveSearch), Some(key.sortBy), Some(pageParam), Some(FeedPageSize))
  }

  /**
   * The pages of one query, whether a next-page fetch is in flight, and
   * whether the last fetch failed (`error`, shown at lines 187-195).
   */
  class InfiniteFeed {
    var pages: seq<ArticlesResponse>
    var isFetchingNextPage: bool
    var failed: bool

    constructor()
      ensures pages == [] && !isFetchingNextPage && !failed
    {
      pages := [];
      isFetchingNextPage := false;
      failed := false;
    }

    /** `hasNextPage`: the last page yields a next page parameter. */
    predicate HasNextPage()
      reads this
    {
      |pages| > 0 && NextPageParam(pages[|pages| - 1]).Some?
    }

    function Articles(): seq<Article>
      reads this
    {
      Flatten(pages)
    }

    /**
     * `handleObserver` (lines 53-55): fetch the next page only when the
     * sentinel intersects, a next page exists and none is in flight.
     */
    method OnIntersect(isIntersecting: bool) returns (request: Option<int>)
      modifies this
      ensures pages == old(pages)
      ensures request.Some? <==> isIntersecting && old(HasNextPage()) && !old(isFetchingNextPage)
      ensures request.Some? ==> request == NextPageParam(pages[|pages| - 1]) && isFetchingNextPage
      ensures request.None? ==> isFetchingNextPage == old(isFetchingNextPage)
      ensures failed == old(failed)
    {
      if isIntersecting && HasNextPage() && !isFetchingNextPage {
        request := NextPageParam(pages[|pages| - 1]);
        isFetchingNextPage := true;
      } else {
        request := None;
      }
    }

    /** A fetched page is appended; its articles follow the earlier ones. */
    method PageArrived(page: ArticlesResponse)
      modifies this
      ensures pages == old(pages) + [page] && !isFetchingNextPage
      ensures Articles() == old(Articles()) + page.articles
      ensures HasNextPage() <==> page.hasMore
      ensures !failed
    {
      FlattenAppend(pages, page);
      pages := pages + [page];
      isFetchingNextPage := false;
      failed := false;
    }

    /**
     * A rejected page fetch: the error is surfaced, the pages already loaded
     * stay, and nothing is in flight any more, so a later intersection may
     * try the same page again.
     */
    method PageFailed()
      modifies this
      ensures pages == old(pages) && Articles() == old(Articles())
      ensures !isFetchingNextPage && failed
      ensures HasNextPage() == old(HasNextPage())
    {
      isFetchingNextPage := false;
      failed := true;
    }
  }

  /**
   * A failed next-page fetch does not block the feed: the next
   * intersection asks for the same page again.
   */
  method RetryAfterFailure(feed: InfiniteFeed) returns (first: Option<int>, retry: Option<int>)
    requires feed.HasNextPage() && !feed.isFetchingNextPage
    modifies feed
    ensures first.Some? && retry == first
    ensures feed.isFetchingNextPage && feed.failed && feed.pages == old(feed.pages)
  {
    first := feed.OnIntersect(true);
    feed.PageFailed();
    retry := feed.OnIntersect(true);
  }
}
