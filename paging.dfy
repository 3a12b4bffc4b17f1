/**
 * Paging of the list endpoints (`GetArticles` in
 * backend/internal/handlers/articles.go and `GetBookmarks` in
 * backend/internal/handlers/bookmarks.go): clamping of the `page` and
 * `page_size` query parameters, the SQL offset, and `has_more`.
 * A parameter arrives as the value `strconv.Atoi` gives it: the number,
 * or 0 when the text is not a number; an absent parameter is its default.
 */
module Paging {
  import opened Common

  const DefaultPage := 1
  const DefaultPageSize := 20
  const MaxPageSize := 50

  datatype Window = Window(page: int, pageSize: int, offset: int)

  /** `models.ArticlesResponse`. */
  datatype ArticlesResponse = ArticlesResponse(
    articles: seq<Article>, totalCount: int, page: int, pageSize: int, hasMore: bool)

  /** The clamped window for the parsed `page` and `page_size` parameters. */
  function Clamp(page: int, pageSize: int): (w: Window)
    ensures w.page >= 1 && 1 <= w.pageSize <= MaxPageSize && w.offset >= 0
    ensures page >= 1 ==> w.page == page
    ensures page < 1 ==> w.page == 1
    ensures 1 <= pageSize <= MaxPageSize ==> w.pageSize == pageSize
    ensures !(1 <= pageSize <= MaxPageSize) ==> w.pageSize == DefaultPageSize
    ensures w.offset == (w.page - 1) * w.pageSize
  {
    var p := if page < 1 then 1 else page;
    var ps := if pageSize < 1 || pageSize > MaxPageSize then DefaultPageSize else pageSize;
    Window(p, ps, (p - 1) * ps)
  }

  /** `hasMore := totalCount > page * pageSize`. */
  predicate HasMore(totalCount: int, w: Window) {
    totalCount > w.page * w.pageSize
  }

  /** The response body of a list endpoint. */
  function Respond(articles: seq<Article>, totalCount: int, w: Window): (r: ArticlesResponse)
    ensures r.articles == articles && r.totalCount == totalCount
    ensures r.page == w.page && r.pageSize == w.pageSize
    ensures r.hasMore <==> totalCount > w.page * w.pageSize
  {
    ArticlesResponse(articles, totalCount, w.page, w.pageSize, HasMore(totalCount, w))
  }

  /** `has_more` holds exactly when some row lies past the end of the requested page. */
  lemma HasMoreIffRowsBeyond(totalCount: int, page: int, pageSize: int)
    ensures var w := Clamp(page, pageSize);
      HasMore(totalCount, w) <==> totalCount > w.offset + w.pageSize
  {
    var w := Clamp(page, pageSize);
    assert w.page * w.pageSize == (w.page - 1) * w.pageSize + w.pageSize;
  }

  /**
   * Walking pages 1, 2, ... while `has_more` holds stops at page
   * ceil(total / pageSize): that page reports no more, and every
   * earlier page reports more.
   */
  lemma {:induction false} LastPage(totalCount: nat, pageSize: int)
    requires 1 <= pageSize <= MaxPageSize && totalCount > 0
    ensures var last := (totalCount + pageSize - 1) / pageSize;
      && last >= 1
      && !HasMore(totalCount, Clamp(last, pageSize))
      && forall p :: 1 <= p < last ==> HasMore(totalCount, Clamp(p, pageSize))
  {
    var last := (totalCount + pageSize - 1) / pageSize;
    var r := (totalCount + pageSize - 1) % pageSize;
    assert last * pageSize + r == totalCount + pageSize - 1;
    assert 0 <= r < pageSize;
    assert last * pageSize >= totalCount;
    assert (last - 1) * pageSize < totalCount;
    forall p | 1 <= p < last ensures HasMore(totalCount, Clamp(p, pageSize)) {
      assert p <= last - 1;
      MulMonotone(p, last - 1, pageSize);
    }
  }

  lemma MulMonotone(a: int, b: int, c: int)
    requires a <= b && c >= 0
    ensures a * c <= b * c
  {
    assert b * c - a * c == (b - a) * c;
  }
}
