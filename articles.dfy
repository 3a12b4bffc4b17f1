/**
 * The request handling of backend/internal/handlers/articles.go that is not
 * SQL execution: the tag filter, the construction of the list query and
 * its count query with positional placeholders, `CreateArticle`'s
 * validation and reading time, and `enrichArticlesWithUserData`.
 *
 * SQL text is a sequence of pieces: literal text, and a placeholder `$n`
 * (what `fmt.Sprintf("$%d", n)` writes). `Render` turns it into the text.
 */
module Articles {
  import opened Common
  import opened Text
  import FeedItem

  datatype Piece = Lit(text: string) | Param(n: nat)
  type Sql = seq<Piece>

  /** A query argument: a string, or an integer (LIMIT and OFFSET). */
  datatype Arg = Text(s: string) | Number(n: int)

  function Render(q: Sql): string {
    if q == [] then []
    else (match q[0] case Lit(t) => t case Param(n) => "$" + NatToString(n)) + Render(q[1..])
  }

  /** The placeholder numbers of a query, in textual order. */
  function Params(q: Sql): seq<nat> {
    if q == [] then [] else (if q[0].Param? then [q[0].n] else []) + Params(q[1..])
  }

  /** 1, 2, ..., n. */
  function UpTo(n: nat): (r: seq<nat>)
    ensures |r| == n && forall k :: 0 <= k < n ==> r[k] == k + 1
  {
    seq(n, k => k + 1)
  }

  const BaseSelect: Sql := [Lit("SELECT DISTINCT a.id, a.title, a.url, a.description, a.author, a.published_at, a.source_id, a.source_name, a.image_url, a.reading_time_minutes, a.upvotes, a.downvotes, a.created_at, a.updated_at FROM articles a")]
  const CountSelect: Sql := [Lit("SELECT COUNT(DISTINCT a.id) FROM articles a")]
  const TagJoin: Sql := [Lit(" JOIN article_tags at ON a.id = at.article_id JOIN tags t ON at.tag_id = t.id")]

  /** The ORDER BY clause: "popular" and "trending" have their own; anything else sorts newest first. */
  function OrderBy(sortBy: string): Sql {
    if sortBy == "popular" then [Lit(" ORDER BY a.upvotes DESC, a.created_at DESC")]
    else if sortBy == "trending" then
      [Lit(" ORDER BY (a.upvotes * 1.0 / (EXTRACT(EPOCH FROM NOW() - a.created_at) / 3600 + 1)) DESC, a.created_at DESC")]
    else [Lit(" ORDER BY a.published_at DESC NULLS LAST, a.created_at DESC")]
  }

  /** The tag filter of the `tags` parameter: none when empty, else its comma-split. */
  function TagFilter(tagsParam: string): (tags: seq<string>)
    ensures tagsParam == "" <==> tags == []
    ensures tagsParam != "" ==> JoinWith(tags, ",") == tagsParam
  {
    if tagsParam == "" then [] else (JoinSplit(tagsParam, ','); Split(tagsParam, ','))
  }

  /**
   * The client joins a non-empty list of comma-free slugs with ',' and the
   * server splits it back to the same list (the one list that joins to the
   * empty text, [""], is excluded).
   */
  lemma TagsRoundTrip(slugs: seq<string>)
    requires |slugs| >= 1 && slugs != [""]
    requires forall i :: 0 <= i < |slugs| ==> ',' !in slugs[i]
    ensures TagFilter(JoinWith(slugs, ",")) == slugs
  {
    var j := JoinWith(slugs, ",");
    if |slugs| == 1 {
      assert slugs == [slugs[0]];
    } else {
      assert j == slugs[0] + "," + JoinWith(slugs[1..], ",");
      assert j[|slugs[0]|] == ',';
    }
    SplitJoin(slugs, ',');
  }

  // ---------------------------------------------------------------------
  // Query construction

  /** The placeholder loop of lines 62-67: one `$k` and one argument per tag, numbered from 1. */
  method TagPlaceholders(tags: seq<string>) returns (placeholders: seq<Sql>, args: seq<Arg>)
    ensures |placeholders| == |tags| && |args| == |tags|
    ensures forall k :: 0 <= k < |tags| ==> placeholders[k] == [Param(k + 1)] && args[k] == Text(tags[k])
  {
    placeholders := [];
    args := [];
    var argIndex := 1;
    for i := 0 to |tags|
      invariant |placeholders| == i && |args| == i && argIndex == i + 1
      invariant forall k :: 0 <= k < i ==> placeholders[k] == [Param(k + 1)] && args[k] == Text(tags[k])
    {
      placeholders := placeholders + [[Param(argIndex)]];
      args := args + [Text(tags[i])];
      argIndex := argIndex + 1;
    }
  }

  /**
   * Lines 57-83: the joins and WHERE clause shared by the list query and
   * the count query, and the filter arguments. Tags take `$1..$m`; a
   * non-empty search takes `$(m+1)` twice with argument "%search%".
   */
  method FilterClause(tags: seq<string>, search: string) returns (filter: Sql, args: seq<Arg>)
    ensures |args| == |tags| + (if search != "" then 1 else 0)
    ensures forall i :: 0 <= i < |tags| ==> args[i] == Text(tags[i])
    ensures search != "" ==> args[|tags|] == Text("%" + search + "%")
    ensures Params(filter) == UpTo(|tags|) + (if search != "" then [|tags| + 1, |tags| + 1] else [])
    ensures |tags| > 0 <==> |filter| > 0 && filter[0] == TagJoin[0]
  {
    filter := [];
    var whereConditions: seq<Sql> := [];
    args := [];
    var argIndex := 1;
    if |tags| > 0 {
      filter := TagJoin;
      var placeholders;
      placeholders, args := TagPlaceholders(tags);
      argIndex := |tags| + 1;
      var list := JoinWith(placeholders, [Lit(",")]);
      PlaceholderList(placeholders, 1);
      ParamsConcat([Lit("t.slug IN (")], list);
      ParamsConcat([Lit("t.slug IN (")] + list, [Lit(")")]);
      assert seq(|placeholders|, k => 1 + k) == UpTo(|tags|);
      whereConditions := [[Lit("t.slug IN (")] + list + [Lit(")")]];
    }
    if search != "" {
      SearchParams(argIndex);
      whereConditions := whereConditions + [[Lit("(a.title ILIKE "), Param(argIndex), Lit(" OR a.description ILIKE "), Param(argIndex), Lit(")")]];
      args := args + [Text("%" + search + "%")];
      argIndex := argIndex + 1;
    }
    WhereParams(whereConditions, |tags|, search != "");
    if |whereConditions| > 0 {
      var whereClause := [Lit(" WHERE ")] + JoinWith(whereConditions, [Lit(" AND ")]);
      ParamsConcat(filter, whereClause);
      assert Params(filter) == [] by {
        if |tags| > 0 { assert Params(TagJoin) == []; }
      }
      filter := filter + whereClause;
    }
  }

  /**
   * `GetArticles` lines 43-102: the list query, its count query and their
   * arguments. The count query has the same joins and WHERE clause; the
   * list query adds the ordering and `LIMIT $k OFFSET $k+1`, whose two
   * arguments are dropped for the count query.
   */
  method BuildQuery(tags: seq<string>, search: string, sortBy: string, pageSize: int, offset: int)
    returns (baseQuery: Sql, countQuery: Sql, args: seq<Arg>, countArgs: seq<Arg>)
    ensures |args| == |tags| + (if search != "" then 1 else 0) + 2
    ensures forall i :: 0 <= i < |tags| ==> args[i] == Text(tags[i])
    ensures search != "" ==> args[|tags|] == Text("%" + search + "%")
    ensures args[|args| - 2] == Number(pageSize) && args[|args| - 1] == Number(offset)
    ensures countArgs == args[..|args| - 2]
    ensures var m := |tags|;
      Params(baseQuery) == UpTo(m) + (if search != "" then [m + 1, m + 1] else []) + [|args| - 1, |args|]
    ensures Params(countQuery) == Params(baseQuery)[..|Params(baseQuery)| - 2]
    ensures |countQuery| >= |CountSelect| && countQuery[..|CountSelect|] == CountSelect
    ensures baseQuery == BaseSelect + countQuery[|CountSelect|..] + OrderBy(sortBy)
                         + [Lit(" LIMIT "), Param(|args| - 1), Lit(" OFFSET "), Param(|args|)]
  {
    var filter;
    filter, args := FilterClause(tags, search);
    var argIndex := |args| + 1;
    baseQuery := BaseSelect + filter;
    countQuery := CountSelect + filter;
    var limit := [Lit(" LIMIT "), Param(argIndex), Lit(" OFFSET "), Param(argIndex + 1)];
    baseQuery := baseQuery + OrderBy(sortBy) + limit;
    args := args + [Number(pageSize), Number(offset)];
    countArgs := args[..|args| - 2];

    assert countQuery[|CountSelect|..] == filter;
    NoParams(BaseSelect, filter);
    NoParams(CountSelect, filter);
    OrderByHasNoParams(sortBy);
    ParamsConcat(BaseSelect + filter, OrderBy(sortBy));
    ParamsConcat(BaseSelect + filter + OrderBy(sortBy), limit);
    LimitParams(argIndex);
    ghost var pf := Params(filter);
    assert Params(countQuery) == pf;
    assert Params(baseQuery) == pf + [argIndex, argIndex + 1];
    assert (pf + [argIndex, argIndex + 1])[..|pf|] == pf;
  }

  lemma NoParams(head: Sql, rest: Sql)
    requires |head| == 1 && head[0].Lit?
    ensures Params(head + rest) == Params(rest)
  {
    assert (head + rest)[0] == head[0];
    assert (head + rest)[1..] == rest;
  }

  lemma OrderByHasNoParams(sortBy: string)
    ensures |OrderBy(sortBy)| == 1 && OrderBy(sortBy)[0].Lit?
    ensures Params(OrderBy(sortBy)) == []
  {
  }

  lemma LimitParams(n: nat)
    ensures Params([Lit(" LIMIT "), Param(n), Lit(" OFFSET "), Param(n + 1)]) == [n, n + 1]
  {
    var q := [Lit(" LIMIT "), Param(n), Lit(" OFFSET "), Param(n + 1)];
    assert Params(q[3..]) == [n + 1] by { assert q[3..][1..] == []; }
    assert q[2..][1..] == q[3..];
    assert Params(q[2..]) == [n + 1];
    assert q[1..][1..] == q[2..];
    assert Params(q[1..]) == [n, n + 1];
  }

  // ---------------------------------------------------------------------
  // Lemmas about placeholders

  lemma {:induction false} ParamsConcat(a: Sql, b: Sql)
    ensures Params(a + b) == Params(a) + Params(b)
  {
    if a == [] {
      assert a + b == b;
    } else {
      assert (a + b)[0] == a[0];
      assert (a + b)[1..] == a[1..] + b;
      ParamsConcat(a[1..], b);
    }
  }

  /** Joined single-placeholder lists are numbered consecutively from `start`. */
  lemma {:induction false} PlaceholderList(pl: seq<Sql>, start: nat)
    requires forall k :: 0 <= k < |pl| ==> pl[k] == [Param(start + k)]
    ensures Params(JoinWith(pl, [Lit(",")])) == seq(|pl|, k => start + k)
  {
    if |pl| == 0 {
    } else if |pl| == 1 {
      assert Params(pl[0]) == [start];
    } else {
      PlaceholderList(pl[1..], start + 1);
      ParamsConcat(pl[0] + [Lit(",")], JoinWith(pl[1..], [Lit(",")]));
      ParamsConcat(pl[0], [Lit(",")]);
      assert Params(pl[0]) == [start];
      assert Params([Lit(",")]) == [];
      assert seq(|pl|, k => start + k) == [start] + seq(|pl[1..]|, k => start + 1 + k);
    }
  }

  lemma SearchParams(n: nat)
    ensures Params([Lit("(a.title ILIKE "), Param(n), Lit(" OR a.description ILIKE "), Param(n), Lit(")")]) == [n, n]
  {
    var q := [Lit("(a.title ILIKE "), Param(n), Lit(" OR a.description ILIKE "), Param(n), Lit(")")];
    assert Params(q[4..]) == [];
    assert q[3..][1..] == q[4..];
    assert Params(q[3..]) == [n];
    assert q[2..][1..] == q[3..];
    assert Params(q[2..]) == [n];
    assert q[1..][1..] == q[2..];
    assert Params(q[1..]) == [n, n];
  }

  lemma WhereParams(conds: seq<Sql>, m: nat, searching: bool)
    requires |conds| == (if m > 0 then 1 else 0) + (if searching then 1 else 0)
    requires m > 0 ==> Params(conds[0]) == UpTo(m)
    requires searching ==> Params(conds[|conds| - 1]) == [m + 1, m + 1]
    ensures Params(if |conds| > 0 then [Lit(" WHERE ")] + JoinWith(conds, [Lit(" AND ")]) else [])
         == UpTo(m) + (if searching then [m + 1, m + 1] else [])
  {
    if |conds| == 0 {
      assert UpTo(m) == [];
    } else {
      var j := JoinWith(conds, [Lit(" AND ")]);
      ParamsConcat([Lit(" WHERE ")], j);
      if |conds| == 1 {
        if m == 0 { assert UpTo(m) == []; }
      } else {
        assert j == conds[0] + [Lit(" AND ")] + conds[1];
        ParamsConcat(conds[0] + [Lit(" AND ")], conds[1]);
        ParamsConcat(conds[0], [Lit(" AND ")]);
      }
    }
  }

  // ---------------------------------------------------------------------
  // CreateArticle

  datatype CreateArticleRequest = CreateArticleRequest(
    title: string, url: string, description: Option<string>, author: Option<string>,
    sourceName: string, imageUrl: Option<string>, tagIds: seq<Uuid>)

  /** The reply of `CreateArticle` and the reading time it inserted, if it got that far. */
  datatype CreateArticleResult = CreateArticleResult(reply: Reply, readingTime: Option<int>)

  const DefaultReadingTime := 5

  /** Reading time of a created article: 5 without a description, else one minute per 200 words, at least one. */
  function CreateReadingTime(description: Option<string>): (m: int)
    ensures m >= 1
    ensures description.None? ==> m == DefaultReadingTime
    ensures description.Some? ==> m == FeedItem.ReadingMinutes(|Fields(description.value)|)
  {
    if description.None? then DefaultReadingTime
    else FeedItem.ReadingMinutes(|Fields(description.value)|)
  }

  /**
   * `CreateArticle`: a body that does not parse (`body == None`) gives 400,
   * a missing title, URL or source name gives 400, otherwise the row is
   * inserted; `inserted` is the database's answer (500 when it fails).
   */
  function CreateArticle(body: Option<CreateArticleRequest>, inserted: bool): (r: CreateArticleResult)
    ensures body.None? ==> r.reply == Reply(StatusBadRequest, "Invalid request body") && r.readingTime.None?
    ensures body.Some? && (body.value.title == "" || body.value.url == "" || body.value.sourceName == "") ==>
      r.reply == Reply(StatusBadRequest, "Title, URL, and source name are required") && r.readingTime.None?
    ensures r.readingTime.Some? <==>
      body.Some? && body.value.title != "" && body.value.url != "" && body.value.sourceName != ""
    ensures r.readingTime.Some? ==> r.readingTime.value == CreateReadingTime(body.value.description)
    ensures r.reply.status == StatusCreated <==> r.readingTime.Some? && inserted
  {
    if body.None? then CreateArticleResult(Reply(StatusBadRequest, "Invalid request body"), None)
    else
      var req := body.value;
      if req.title == "" || req.url == "" || req.sourceName == "" then
        CreateArticleResult(Reply(StatusBadRequest, "Title, URL, and source name are required"), None)
      else
        var minutes := CreateReadingTime(req.description);
        if inserted then CreateArticleResult(Reply(StatusCreated, ""), Some(minutes))
        else CreateArticleResult(Reply(StatusInternalServerError, "Failed to create article"), Some(minutes))
  }

  // ---------------------------------------------------------------------
  // enrichArticlesWithUserData

  /** A row of the votes query: article id and vote type. */
  datatype VoteRow = VoteRow(articleId: Uuid, voteType: string)

  /** No later article of `s` has the id of `s[i]`: the index `articleMap` keeps for that id. */
  predicate IsLastWithId(s: seq<Article>, i: int)
    requires 0 <= i < |s|
  {
    forall j :: i < j < |s| ==> s[j].id != s[i].id
  }

  /** The vote type of the last row for `id`, if any (later rows overwrite earlier ones). */
  function LastVote(rows: seq<VoteRow>, id: Uuid): (r: Option<string>)
    ensures r.None? <==> forall k :: 0 <= k < |rows| ==> rows[k].articleId != id
  {
    if rows == [] then None
    else if rows[|rows| - 1].articleId == id then Some(rows[|rows| - 1].voteType)
    else LastVote(rows[..|rows| - 1], id)
  }

  /**
   * Article `i` after enrichment: when it is the article the id map points
   * to, it is marked bookmarked if a bookmark row names it and takes the
   * vote of the last vote row that names it; every other field is kept.
   */
  function Enriched(s: seq<Article>, i: int, bookmarkRows: seq<Uuid>, voteRows: seq<VoteRow>): (r: Article)
    requires 0 <= i < |s|
    ensures r.(isBookmarked := s[i].isBookmarked, userVote := s[i].userVote) == s[i]
    ensures r.isBookmarked <==> s[i].isBookmarked || (IsLastWithId(s, i) && s[i].id in bookmarkRows)
    ensures r.userVote != s[i].userVote ==>
      IsLastWithId(s, i) && r.userVote == LastVote(voteRows, s[i].id) && r.userVote.Some?
  {
    var a := s[i];
    if !IsLastWithId(s, i) then a
    else
      var v := LastVote(voteRows, a.id);
      a.(isBookmarked := a.isBookmarked || a.id in bookmarkRows,
         userVote := if v.Some? then v else a.userVote)
  }

  /** `m` is the `articleMap` of `s`: it maps each id to the index of its last article. */
  predicate IndexesLast(s: seq<Article>, m: map<Uuid, int>) {
    && (forall id :: id in m ==> 0 <= m[id] < |s| && s[m[id]].id == id)
    && (forall k :: 0 <= k < |s| ==> s[k].id in m && (m[s[k].id] == k <==> IsLastWithId(s, k)))
  }

  /**
   * `enrichArticlesWithUserData`: builds the id -> index map, then marks
   * the articles named by the bookmark rows and sets the vote of those
   * named by the vote rows, in place. A failed query (None) is skipped.
   */
  method EnrichArticlesWithUserData(articles: array<Article>, bookmarkRows: Option<seq<Uuid>>, voteRows: Option<seq<VoteRow>>)
    modifies articles
    ensures forall i :: 0 <= i < articles.Length ==>
      articles[i] == Enriched(old(articles[..]), i, bookmarkRows.GetOr([]), voteRows.GetOr([]))
  {
    ghost var orig := articles[..];
    if articles.Length == 0 {
      return;
    }
    var articleMap := IndexArticles(articles);
    if bookmarkRows.Some? {
      MarkBookmarked(articles, articleMap, bookmarkRows.value);
      SameIdsSameLast(orig, articles[..]);
    }
    ghost var marked := articles[..];
    if voteRows.Some? {
      SetUserVotes(articles, articleMap, voteRows.value);
    }
    forall i | 0 <= i < articles.Length
      ensures articles[i] == Enriched(orig, i, bookmarkRows.GetOr([]), voteRows.GetOr([]))
    {
      assert articles[i] == orig[i].(isBookmarked := marked[i].isBookmarked, userVote := articles[i].userVote);
    }
  }

  /** Lines 326-331: the id -> index map; a repeated id ends up at its last index. */
  method IndexArticles(articles: array<Article>) returns (articleMap: map<Uuid, int>)
    ensures IndexesLast(articles[..], articleMap)
  {
    articleMap := map[];
    for i := 0 to articles.Length
      invariant forall id :: id in articleMap ==>
        0 <= articleMap[id] < i && articles[articleMap[id]].id == id
        && forall j :: articleMap[id] < j < i ==> articles[j].id != id
      invariant forall j :: 0 <= j < i ==> articles[j].id in articleMap
    {
      articleMap := articleMap[articles[i].id := i];
    }
    MapPointsToLast(articles[..], articleMap);
  }

  /** Lines 339-346: each bookmark row whose id is in the map marks that article. */
  method MarkBookmarked(articles: array<Article>, articleMap: map<Uuid, int>, rows: seq<Uuid>)
    requires IndexesLast(articles[..], articleMap)
    modifies articles
    ensures forall k :: 0 <= k < articles.Length ==> articles[k] == old(articles[k]).(isBookmarked :=
      old(articles[k]).isBookmarked || (IsLastWithId(old(articles[..]), k) && old(articles[k]).id in rows))
  {
    ghost var orig := articles[..];
    for r := 0 to |rows|
      invariant forall k :: 0 <= k < articles.Length ==> articles[k] == orig[k].(isBookmarked :=
        orig[k].isBookmarked || (IsLastWithId(orig, k) && orig[k].id in rows[..r]))
    {
      var id := rows[r];
      if id in articleMap {
        var idx := articleMap[id];
        articles[idx] := articles[idx].(isBookmarked := true);
      }
      assert rows[..r + 1] == rows[..r] + [id];
    }
    assert rows[..|rows|] == rows;
  }

  /** Lines 355-363: each vote row whose id is in the map sets that article's vote; the last row wins. */
  method SetUserVotes(articles: array<Article>, articleMap: map<Uuid, int>, rows: seq<VoteRow>)
    requires IndexesLast(articles[..], articleMap)
    modifies articles
    ensures forall k :: 0 <= k < articles.Length ==> articles[k] == old(articles[k]).(userVote :=
      if IsLastWithId(old(articles[..]), k) && LastVote(rows, old(articles[k]).id).Some?
      then LastVote(rows, old(articles[k]).id) else old(articles[k]).userVote)
  {
    ghost var orig := articles[..];
    for r := 0 to |rows|
      invariant forall k :: 0 <= k < articles.Length ==> articles[k] == orig[k].(userVote :=
        if IsLastWithId(orig, k) && LastVote(rows[..r], orig[k].id).Some?
        then LastVote(rows[..r], orig[k].id) else orig[k].userVote)
    {
      var row := rows[r];
      assert rows[..r + 1][..r] == rows[..r];
      if row.articleId in articleMap {
        var idx := articleMap[row.articleId];
        articles[idx] := articles[idx].(userVote := Some(row.voteType));
      }
    }
    assert rows[..|rows|] == rows;
  }

  /** After the first loop the map points each id at its last article. */
  lemma MapPointsToLast(s: seq<Article>, m: map<Uuid, int>)
    requires forall id :: id in m ==>
      0 <= m[id] < |s| && s[m[id]].id == id && forall j :: m[id] < j < |s| ==> s[j].id != id
    requires forall j :: 0 <= j < |s| ==> s[j].id in m
    ensures IndexesLast(s, m)
  {
  }

  /** Which article is last for its id depends only on the ids. */
  lemma SameIdsSameLast(s: seq<Article>, t: seq<Article>)
    requires |s| == |t| && forall k :: 0 <= k < |s| ==> s[k].id == t[k].id
    ensures forall k :: 0 <= k < |s| ==> (IsLastWithId(s, k) <==> IsLastWithId(t, k))
  {
  }

  /** With distinct ids (the list query is DISTINCT), an article is marked exactly when a row names it. */
  lemma EnrichDistinct(s: seq<Article>, i: int, bookmarkRows: seq<Uuid>, voteRows: seq<VoteRow>)
    requires 0 <= i < |s|
    requires forall j, k :: 0 <= j < k < |s| ==> s[j].id != s[k].id
    ensures Enriched(s, i, bookmarkRows, voteRows).isBookmarked <==> s[i].isBookmarked || s[i].id in bookmarkRows
    ensures LastVote(voteRows, s[i].id).Some? ==> Enriched(s, i, bookmarkRows, voteRows).userVote == LastVote(voteRows, s[i].id)
    ensures LastVote(voteRows, s[i].id).None? ==> Enriched(s, i, bookmarkRows, voteRows).userVote == s[i].userVote
  {
    assert IsLastWithId(s, i);
  }

  /** Enrichment never clears a bookmark flag: `GetBookmarks` returns only bookmarked articles. */
  lemma EnrichKeepsBookmarked(s: seq<Article>, bookmarkRows: seq<Uuid>, voteRows: seq<VoteRow>)
    requires forall i :: 0 <= i < |s| ==> s[i].isBookmarked
    ensures forall i :: 0 <= i < |s| ==> Enriched(s, i, bookmarkRows, voteRows).isBookmarked
  {
  }
}
