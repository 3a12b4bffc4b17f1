/**
 * The bookmark handlers of backend/internal/handlers/bookmarks.go over an
 * abstract `bookmarks` table: a map from (user id, article id) to the
 * bookmark's `created_at`, so the table holds at most one entry per pair,
 * as the `ON CONFLICT (user_id, article_id)` upsert keeps it.
 */
module Bookmarks {
  import opened Common
  import opened Paging
  import opened Articles

  /** A row of the bookmarks query; None is a row whose `Scan` failed. */
  type ScannedRow = Option<Article>

  /** Line 78: a listed article is bookmarked. */
  function Marked(a: Article): (r: Article)
    ensures r.isBookmarked && r.(isBookmarked := a.isBookmarked) == a
  {
    a.(isBookmarked := true)
  }

  /**
   * Lines 66-81: rows that scan are kept, in order, marked as bookmarked;
   * rows that do not are skipped.
   */
  function Scanned(rows: seq<ScannedRow>): (r: seq<Article>)
    ensures |r| <= |rows|
    ensures forall i :: 0 <= i < |r| ==> r[i].isBookmarked
    ensures forall k :: 0 <= k < |rows| && rows[k].Some? ==> Marked(rows[k].value) in r
  {
    if |rows| == 0 then []
    else
      var front := Scanned(rows[..|rows| - 1]);
      var last := rows[|rows| - 1];
      assert forall k :: 0 <= k < |rows| - 1 ==> rows[..|rows| - 1][k] == rows[k];
      front + (if last.Some? then [Marked(last.value)] else [])
  }

  /** `a` is the marked article of some row that scanned. */
  predicate FromRow(rows: seq<ScannedRow>, a: Article) {
    exists k :: 0 <= k < |rows| && rows[k].Some? && a == Marked(rows[k].value)
  }

  /** Every article listed comes from a row that scanned. */
  lemma {:induction false} ScannedFromRows(rows: seq<ScannedRow>)
    ensures forall i :: 0 <= i < |Scanned(rows)| ==> FromRow(rows, Scanned(rows)[i])
  {
    if |rows| > 0 {
      var front := rows[..|rows| - 1];
      ScannedFromRows(front);
      var r := Scanned(rows);
      var last := rows[|rows| - 1];
      assert r == Scanned(front) + (if last.Some? then [Marked(last.value)] else []);
      forall i | 0 <= i < |r|
        ensures FromRow(rows, r[i])
      {
        if i < |Scanned(front)| {
          var a := Scanned(front)[i];
          assert FromRow(front, a);
          var k :| 0 <= k < |front| && front[k].Some? && a == Marked(front[k].value);
          assert rows[k] == front[k] && r[i] == a;
        } else {
          assert last.Some? && r[i] == Marked(rows[|rows| - 1].value);
        }
      }
    } else {
      assert Scanned(rows) == [];
    }
  }

  /** The scan loop of lines 67-81. */
  method ScanBookmarked(rows: seq<ScannedRow>) returns (articles: seq<Article>)
    ensures articles == Scanned(rows)
  {
    articles := [];
    for i := 0 to |rows|
      invariant articles == Scanned(rows[..i])
    {
      assert rows[..i + 1][..i] == rows[..i];
      if rows[i].None? {
        continue;
      }
      var a := rows[i].value;
      a := a.(isBookmarked := true);
      articles := articles + [a];
      assert a == Marked(rows[i].value);
    }
    assert rows[..|rows|] == rows;
  }

  datatype BookmarksReply = Failed(reply: Reply) | Listed(body: ArticlesResponse)

  /**
   * `GetBookmarks`. `page` and `pageSize` are the parsed query parameters;
   * `totalCount` and `rows` are None when their query fails; the bookmark
   * and vote rows feed the enrichment step.
   */
  method GetBookmarks(userId: Option<Uuid>, page: int, pageSize: int,
                      totalCount: Option<int>, rows: Option<seq<ScannedRow>>,
                      bookmarkRows: Option<seq<Uuid>>, voteRows: Option<seq<VoteRow>>)
    returns (r: BookmarksReply)
    ensures userId.None? ==> r == Failed(Reply(StatusUnauthorized, "Unauthorized"))
    ensures userId.Some? && totalCount.None? ==> r == Failed(Reply(StatusInternalServerError, "Failed to count bookmarks"))
    ensures userId.Some? && totalCount.Some? && rows.None? ==>
      r == Failed(Reply(StatusInternalServerError, "Failed to fetch bookmarks"))
    ensures r.Listed? <==> userId.Some? && totalCount.Some? && rows.Some?
    ensures r.Listed? ==>
      var w := Clamp(page, pageSize); var kept := Scanned(rows.value);
      && r.body.page == w.page && r.body.pageSize == w.pageSize
      && r.body.totalCount == totalCount.value
      && (r.body.hasMore <==> totalCount.value > w.page * w.pageSize)
      && |r.body.articles| == |kept|
      && (forall i :: 0 <= i < |kept| ==>
            r.body.articles[i] == Enriched(kept, i, bookmarkRows.GetOr([]), voteRows.GetOr([])))
      && (forall i :: 0 <= i < |kept| ==> r.body.articles[i].isBookmarked)
  {
    if userId.None? {
      return Failed(Reply(StatusUnauthorized, "Unauthorized"));
    }
    var w := Clamp(page, pageSize);
    if totalCount.None? {
      return Failed(Reply(StatusInternalServerError, "Failed to count bookmarks"));
    }
    if rows.None? {
      return Failed(Reply(StatusInternalServerError, "Failed to fetch bookmarks"));
    }
    var kept := ScanBookmarked(rows.value);
    var buffer := new Article[|kept|](i requires 0 <= i < |kept| => kept[i]);
    assert buffer[..] == kept;
    EnrichArticlesWithUserData(buffer, bookmarkRows, voteRows);
    EnrichKeepsBookmarked(kept, bookmarkRows.GetOr([]), voteRows.GetOr([]));
    r := Listed(Respond(buffer[..], totalCount.value, w));
  }

  /**
   * Lines 102-129: the checks of `CreateBookmark` in their order. `body` is
   * None when the body does not parse, else the requested article id.
   */
  function CreateBookmarkCheck(userId: Option<Uuid>, body: Option<Uuid>, articleIds: set<Uuid>): (r: Option<Reply>)
    ensures userId.None? ==> r == Some(Reply(StatusUnauthorized, "Unauthorized"))
    ensures userId.Some? && body.None? ==> r == Some(Reply(StatusBadRequest, "Invalid request body"))
    ensures userId.Some? && body == Some(NilUuid) ==> r == Some(Reply(StatusBadRequest, "Article ID is required"))
    ensures userId.Some? && body.Some? && body.value != NilUuid && body.value !in articleIds ==>
      r == Some(Reply(StatusNotFound, "Article not found"))
    ensures r.None? <==> userId.Some? && body.Some? && body.value != NilUuid && body.value in articleIds
  {
    if userId.None? then Some(Reply(StatusUnauthorized, "Unauthorized"))
    else if body.None? then Some(Reply(StatusBadRequest, "Invalid request body"))
    else if body.value == NilUuid then Some(Reply(StatusBadRequest, "Article ID is required"))
    else if body.value !in articleIds then Some(Reply(StatusNotFound, "Article not found"))
    else None
  }

  /** The `bookmarks` table, keyed by (user_id, article_id), each row holding its `created_at`. */
  class BookmarkTable {
    var rows: map<(Uuid, Uuid), int>

    /** The table holds whatever rows the database already has; no handler creates it. */
    constructor(rows: map<(Uuid, Uuid), int>)
      ensures this.rows == rows
    {
      this.rows := rows;
    }

    /**
     * `CreateBookmark`: after the checks, an upsert that inserts the pair
     * or refreshes its `created_at` to `now`; `writeOk` is false when the
     * statement fails.
     */
    method CreateBookmark(userId: Option<Uuid>, body: Option<Uuid>, articleIds: set<Uuid>, writeOk: bool, now: int)
      returns (r: Reply)
      modifies this
      ensures CreateBookmarkCheck(userId, body, articleIds).Some? ==>
        r == CreateBookmarkCheck(userId, body, articleIds).value && rows == old(rows)
      ensures CreateBookmarkCheck(userId, body, articleIds).None? && !writeOk ==>
        r == Reply(StatusInternalServerError, "Failed to create bookmark") && rows == old(rows)
      ensures r.status == StatusCreated <==> CreateBookmarkCheck(userId, body, articleIds).None? && writeOk
      ensures r.status == StatusCreated ==>
        && rows == old(rows)[(userId.value, body.value) := now]
        && rows.Keys == old(rows).Keys + {(userId.value, body.value)}
    {
      var rejected := CreateBookmarkCheck(userId, body, articleIds);
      if rejected.Some? {
        return rejected.value;
      }
      if !writeOk {
        return Reply(StatusInternalServerError, "Failed to create bookmark");
      }
      rows := rows[(userId.value, body.value) := now];
      r := Reply(StatusCreated, "");
    }

    /**
     * `DeleteBookmark`. `articleId` is None when the path parameter is not
     * a UUID; `execOk` is false when the statement fails.
     */
    method DeleteBookmark(userId: Option<Uuid>, articleId: Option<Uuid>, execOk: bool) returns (r: Reply)
      modifies this
      ensures userId.None? ==> r == Reply(StatusUnauthorized, "Unauthorized")
      ensures userId.Some? && articleId.None? ==> r == Reply(StatusBadRequest, "Invalid article ID")
      ensures userId.Some? && articleId.Some? && !execOk ==> r == Reply(StatusInternalServerError, "Failed to delete bookmark")
      ensures userId.Some? && articleId.Some? && execOk && (userId.value, articleId.value) !in old(rows) ==>
        r == Reply(StatusNotFound, "Bookmark not found")
      ensures r.status == StatusOK <==>
        userId.Some? && articleId.Some? && execOk && (userId.value, articleId.value) in old(rows)
      ensures r.status == StatusOK ==> rows == old(rows) - {(userId.value, articleId.value)}
      ensures r.status != StatusOK ==> rows == old(rows)
    {
      if userId.None? {
        return Reply(StatusUnauthorized, "Unauthorized");
      }
      if articleId.None? {
        return Reply(StatusBadRequest, "Invalid article ID");
      }
      if !execOk {
        return Reply(StatusInternalServerError, "Failed to delete bookmark");
      }
      var key := (userId.value, articleId.value);
      if key !in rows {
        return Reply(StatusNotFound, "Bookmark not found");
      }
      rows := rows - {key};
      r := Reply(StatusOK, "");
    }
  }

  /**
   * Creating a bookmark that was absent and then deleting it leaves the
   * table as it was; creating twice leaves a single entry for the pair.
   */
  method CreateThenDelete(t: BookmarkTable, user: Uuid, article: Uuid, articleIds: set<Uuid>, now: int, later: int)
    requires article != NilUuid && article in articleIds && (user, article) !in t.rows
    modifies t
    ensures t.rows == old(t.rows)
  {
    var created := t.CreateBookmark(Some(user), Some(article), articleIds, true, now);
    var again := t.CreateBookmark(Some(user), Some(article), articleIds, true, later);
    assert again.status == StatusCreated && t.rows.Keys == old(t.rows).Keys + {(user, article)};
    var deleted := t.DeleteBookmark(Some(user), Some(article), true);
    assert deleted.status == StatusOK;
  }
}
