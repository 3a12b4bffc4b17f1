/**
 * The request encoding of frontend/src/lib/api.ts: the headers and error
 * message of `fetchAPI`, the query parameters `getArticles` emits, the
 * default arguments of the list endpoints, and the shapes of the mutation
 * requests. Query parameters are ordered key/value pairs; percent-encoding
 * is not modelled. Endpoints are relative to the `/api` base.
 */
module Api {
  import opened Common
  import opened Text
  import Auth
  import Votes
  import Articles

  const ApiBase := "/api"

  /**
   * Lines 8-12: JSON content type, a bearer header when the stored token is
   * non-empty (an empty string is falsy), then the caller's headers, which
   * win on a clash.
   */
  function Headers(token: Option<string>, overrides: map<string, string>): (r: map<string, string>)
    ensures "Authorization" in r <==> (token.Some? && token.value != "") || "Authorization" in overrides
    ensures "Authorization" !in overrides && token.Some? && token.value != "" ==>
      r["Authorization"] == "Bearer " + token.value
    ensures "Content-Type" in r
    ensures "Content-Type" !in overrides ==> r["Content-Type"] == "application/json"
    ensures forall k :: k in overrides ==> k in r && r[k] == overrides[k]
    ensures forall k :: k in r ==> k in overrides || k == "Content-Type" || k == "Authorization"
  {
    var base := map["Content-Type" := "application/json"];
    var withAuth := if token.Some? && token.value != "" then base["Authorization" := "Bearer " + token.value] else base;
    withAuth + overrides
  }

  /**
   * The header the client sends is the one the server's `AuthRequired`
   * accepts: it extracts exactly the stored token and decides on it.
   */
  lemma BearerHeaderReachesMiddleware(token: string, verify: string -> Option<string>, parseUuid: string -> Option<Uuid>)
    requires token != ""
    ensures var h := Headers(Some(token), map[])["Authorization"];
      && HasPrefix(h, Auth.BearerPrefix)
      && h[|Auth.BearerPrefix|..] == token
      && (Auth.AuthRequired(h, verify, parseUuid).Next? <==> verify(token).Some? && parseUuid(verify(token).value).Some?)
  {
    var h := Headers(Some(token), map[])["Authorization"];
    assert h == "Bearer " + token;
    assert h[..|Auth.BearerPrefix|] == Auth.BearerPrefix;
    assert h[|Auth.BearerPrefix|..] == token;
  }

  /** The JSON body of a failed response, when it parses. */
  datatype ErrorBody = ErrorBody(message: Option<string>, error: Option<string>)

  function Truthy(s: Option<string>): bool {
    s.Some? && s.value != ""
  }

  /**
   * Lines 19-22: the thrown message is the body's `message`, else its
   * `error`, else "Request failed"; a body that does not parse counts as
   * `{ error: 'Request failed' }`.
   */
  function ErrorMessage(body: Option<ErrorBody>): (r: string)
    ensures r != ""
    ensures body.None? ==> r == "Request failed"
    ensures body.Some? && Truthy(body.value.message) ==> r == body.value.message.value
    ensures body.Some? && !Truthy(body.value.message) && Truthy(body.value.error) ==> r == body.value.error.value
    ensures body.Some? && !Truthy(body.value.message) && !Truthy(body.value.error) ==> r == "Request failed"
  {
    var b := body.GetOr(ErrorBody(None, Some("Request failed")));
    if Truthy(b.message) then b.message.value
    else if Truthy(b.error) then b.error.value
    else "Request failed"
  }

  /** A server error reply (`{"error": ...}` without a message) surfaces its error text. */
  lemma ServerErrorSurfaces(reply: Reply)
    requires reply.error != ""
    ensures ErrorMessage(Some(ErrorBody(None, Some(reply.error)))) == reply.error
  {
  }

  /** `ArticleFilters`: every field optional. */
  datatype ArticleFilters = ArticleFilters(
    tags: Option<seq<string>>, search: Option<string>, sortBy: Option<SortOption>,
    page: Option<int>, pageSize: Option<int>)

  /** The query parameters `getArticles` may set, in its emission order. */
  datatype ParamKey = TagsKey | SearchKey | SortByKey | PageKey | PageSizeKey

  function KeyName(k: ParamKey): string {
    match k
    case TagsKey => "tags"
    case SearchKey => "search"
    case SortByKey => "sort_by"
    case PageKey => "page"
    case PageSizeKey => "page_size"
  }

  function KeyRank(k: ParamKey): nat {
    match k
    case TagsKey => 0
    case SearchKey => 1
    case SortByKey => 2
    case PageKey => 3
    case PageSizeKey => 4
  }

  type Params = seq<(ParamKey, string)>

  /** `URLSearchParams.get`: the first value under `key`. */
  function Lookup(params: Params, key: ParamKey): (r: Option<string>)
    ensures r.None? <==> forall i :: 0 <= i < |params| ==> params[i].0 != key
  {
    if |params| == 0 then None
    else if params[0].0 == key then Some(params[0].1)
    else Lookup(params[1..], key)
  }

  /** Keys strictly in emission order, so each at most once. */
  predicate InOrder(params: Params) {
    forall i, j :: 0 <= i < j < |params| ==> KeyRank(params[i].0) < KeyRank(params[j].0)
  }

  /** A parameter emitted only when its condition holds. */
  function When(cond: bool, k: ParamKey, v: string): Params {
    if cond then [(k, v)] else []
  }

  function TagsValue(f: ArticleFilters): Option<string> {
    if f.tags.Some? && |f.tags.value| > 0 then Some(JoinWith(f.tags.value, ",")) else None
  }

  function SearchValue(f: ArticleFilters): Option<string> {
    if Truthy(f.search) then f.search else None
  }

  function SortByValue(f: ArticleFilters): Option<string> {
    if f.sortBy.Some? then Some(SortName(f.sortBy.value)) else None
  }

  /** A number is emitted when truthy: present and non-zero. */
  function NumberValue(n: Option<int>): Option<string> {
    if n.Some? && n.value != 0 then Some(IntToString(n.value)) else None
  }

  function Param(k: ParamKey, v: Option<string>): Params {
    When(v.Some?, k, v.GetOr(""))
  }

  lemma {:induction false} LookupConcat(a: Params, b: Params, key: ParamKey)
    ensures Lookup(a + b, key) == if Lookup(a, key).Some? then Lookup(a, key) else Lookup(b, key)
  {
    if |a| > 0 {
      assert (a + b)[1..] == a[1..] + b;
      LookupConcat(a[1..], b, key);
    } else {
      assert a + b == b;
    }
  }

  /** The parameters of `f`, in emission order. */
  function Emitted(f: ArticleFilters): Params {
    Param(TagsKey, TagsValue(f)) + Param(SearchKey, SearchValue(f)) + Param(SortByKey, SortByValue(f))
    + Param(PageKey, NumberValue(f.page)) + Param(PageSizeKey, NumberValue(f.pageSize))
  }

  lemma LookupParam(k: ParamKey, v: Option<string>, key: ParamKey)
    ensures Lookup(Param(k, v), key) == if k == key then v else None
  {
  }

  /** Every key of `params` ranks in [lo, hi). */
  predicate RanksWithin(params: Params, lo: nat, hi: nat) {
    forall i :: 0 <= i < |params| ==> lo <= KeyRank(params[i].0) < hi
  }

  lemma InOrderConcat(a: Params, b: Params, lo: nat, mid: nat, hi: nat)
    requires lo <= mid <= hi
    requires InOrder(a) && InOrder(b) && RanksWithin(a, lo, mid) && RanksWithin(b, mid, hi)
    ensures InOrder(a + b) && RanksWithin(a + b, lo, hi)
  {
    forall i, j | 0 <= i < j < |a + b|
      ensures KeyRank((a + b)[i].0) < KeyRank((a + b)[j].0)
    {
      if j < |a| {
        assert (a + b)[i] == a[i] && (a + b)[j] == a[j];
      } else if i >= |a| {
        assert (a + b)[i] == b[i - |a|] && (a + b)[j] == b[j - |a|];
      } else {
        assert (a + b)[i] == a[i] && (a + b)[j] == b[j - |a|];
      }
    }
    forall i | 0 <= i < |a + b|
      ensures lo <= KeyRank((a + b)[i].0) < hi
    {
      if i < |a| {
        assert (a + b)[i] == a[i];
      } else {
        assert (a + b)[i] == b[i - |a|];
      }
    }
  }

  lemma ParamInOrder(k: ParamKey, v: Option<string>)
    ensures InOrder(Param(k, v)) && RanksWithin(Param(k, v), KeyRank(k), KeyRank(k) + 1)
  {
  }

  /** Five optional parameters set in emission order are in order. */
  lemma FiveInOrder(t: Option<string>, s: Option<string>, o: Option<string>, p: Option<string>, z: Option<string>)
    ensures InOrder(Param(TagsKey, t) + Param(SearchKey, s) + Param(SortByKey, o) + Param(PageKey, p) + Param(PageSizeKey, z))
  {
    var pt, ps, po, pp, pz := Param(TagsKey, t), Param(SearchKey, s), Param(SortByKey, o), Param(PageKey, p), Param(PageSizeKey, z);
    ParamInOrder(TagsKey, t);
    ParamInOrder(SearchKey, s);
    ParamInOrder(SortByKey, o);
    ParamInOrder(PageKey, p);
    ParamInOrder(PageSizeKey, z);
    InOrderConcat(pt, ps, 0, 1, 2);
    InOrderConcat(pt + ps, po, 0, 2, 3);
    InOrderConcat(pt + ps + po, pp, 0, 3, 4);
    InOrderConcat(pt + ps + po + pp, pz, 0, 4, 5);
  }

  /** The keys of `Emitted(f)` are in emission order, so each appears at most once. */
  lemma EmittedInOrder(f: ArticleFilters)
    ensures InOrder(Emitted(f))
  {
    FiveInOrder(TagsValue(f), SearchValue(f), SortByValue(f), NumberValue(f.page), NumberValue(f.pageSize));
  }

  /** Each key of `Emitted(f)` carries the value its filter gives. */
  lemma EmittedLookup(f: ArticleFilters, key: ParamKey)
    ensures Lookup(Emitted(f), key) ==
      match key
      case TagsKey => TagsValue(f)
      case SearchKey => SearchValue(f)
      case SortByKey => SortByValue(f)
      case PageKey => NumberValue(f.page)
      case PageSizeKey => NumberValue(f.pageSize)
  {
    var t := Param(TagsKey, TagsValue(f));
    var s := Param(SearchKey, SearchValue(f));
    var o := Param(SortByKey, SortByValue(f));
    var p := Param(PageKey, NumberValue(f.page));
    var z := Param(PageSizeKey, NumberValue(f.pageSize));
    assert Emitted(f) == t + (s + (o + (p + z)));
    LookupConcat(p, z, key);
    LookupConcat(o, p + z, key);
    LookupConcat(s, o + (p + z), key);
    LookupConcat(t, s + (o + (p + z)), key);
    LookupParam(TagsKey, TagsValue(f), key);
    LookupParam(SearchKey, SearchValue(f), key);
    LookupParam(SortByKey, SortByValue(f), key);
    LookupParam(PageKey, NumberValue(f.page), key);
    LookupParam(PageSizeKey, NumberValue(f.pageSize), key);
  }

  /**
   * `params.set(k, v)` when `v` is truthy. `set` replaces a key already
   * present; every call in `getArticles` sets a fresh key, where it appends.
   */
  method SetWhen(params: Params, k: ParamKey, v: Option<string>) returns (r: Params)
    requires Lookup(params, k).None?
    ensures r == params + Param(k, v)
  {
    r := params;
    if v.Some? {
      r := r + [(k, v.value)];
    }
  }

  /**
   * Lines 29-35: each filter is emitted only when truthy (tags only when
   * non-empty, joined with ','; page and page size only when non-zero), in
   * the order tags, search, sort_by, page, page_size.
   */
  method ArticleParams(f: ArticleFilters) returns (params: Params)
    ensures InOrder(params)
    ensures Lookup(params, TagsKey) == TagsValue(f)
    ensures Lookup(params, SearchKey) == SearchValue(f)
    ensures Lookup(params, SortByKey) == SortByValue(f)
    ensures Lookup(params, PageKey) == NumberValue(f.page)
    ensures Lookup(params, PageSizeKey) == NumberValue(f.pageSize)
    ensures |params| == 0 <==>
      TagsValue(f).None? && SearchValue(f).None? && SortByValue(f).None?
      && NumberValue(f.page).None? && NumberValue(f.pageSize).None?
    ensures params == Emitted(f)
  {
    params := [];
    params := SetWhen(params, TagsKey, TagsValue(f));
    params := SetWhen(params, SearchKey, SearchValue(f));
    params := SetWhen(params, SortByKey, SortByValue(f));
    params := SetWhen(params, PageKey, NumberValue(f.page));
    params := SetWhen(params, PageSizeKey, NumberValue(f.pageSize));
    assert params == Emitted(f);
    EmittedInOrder(f);
    EmittedLookup(f, TagsKey);
    EmittedLookup(f, SearchKey);
    EmittedLookup(f, SortByKey);
    EmittedLookup(f, PageKey);
    EmittedLookup(f, PageSizeKey);
  }

  /** `params.toString()` without percent-encoding. */
  function QueryString(params: Params): (r: string)
    ensures r != "" <==> |params| > 0
  {
    JoinWith(seq(|params|, i requires 0 <= i < |params| => KeyName(params[i].0) + "=" + params[i].1), "&")
  }

  /** Lines 37-38: the `?` appears only before a non-empty query. */
  method GetArticlesEndpoint(f: ArticleFilters) returns (endpoint: string)
    ensures endpoint == "/articles" <==>
      TagsValue(f).None? && SearchValue(f).None? && SortByValue(f).None?
      && NumberValue(f.page).None? && NumberValue(f.pageSize).None?
    ensures endpoint != "/articles" ==> exists q :: q != "" && endpoint == "/articles?" + q
    ensures endpoint == "/articles" + (if |Emitted(f)| > 0 then "?" + QueryString(Emitted(f)) else "")
  {
    var params := ArticleParams(f);
    var query := QueryString(params);
    if query != "" {
      endpoint := "/articles?" + query;
      assert |"/articles?" + query| > |"/articles"|;
    } else {
      endpoint := "/articles";
    }
  }

  /**
   * The tag list the client emits is the list the server filters by, for
   * non-empty lists of comma-free slugs other than [""].
   */
  lemma ClientTagsReachServer(f: ArticleFilters)
    requires f.tags.Some? && |f.tags.value| >= 1 && f.tags.value != [""]
    requires forall i :: 0 <= i < |f.tags.value| ==> ',' !in f.tags.value[i]
    ensures TagsValue(f).Some? && Articles.TagFilter(TagsValue(f).value) == f.tags.value
  {
    Articles.TagsRoundTrip(f.tags.value);
  }

  /** `getTrendingArticles(limit = 10)`. */
  function TrendingEndpoint(limit: Option<int>): (r: string)
    ensures limit.None? ==> r == "/articles/trending?limit=10"
  {
    assert IntToString(10) == "10" by { assert Digit(1) == '1' && Digit(0) == '0'; }
    "/articles/trending?limit=" + IntToString(limit.GetOr(10))
  }

  /** `getBookmarks(page = 1, pageSize = 20)`. */
  function BookmarksEndpoint(page: Option<int>, pageSize: Option<int>): (r: string)
    ensures page.None? && pageSize.None? ==> r == "/bookmarks?page=1&page_size=20"
  {
    assert IntToString(1) == "1" by { assert Digit(1) == '1'; }
    assert IntToString(20) == "20" by { assert Digit(2) == '2' && Digit(0) == '0'; }
    "/bookmarks?page=" + IntToString(page.GetOr(1)) + "&page_size=" + IntToString(pageSize.GetOr(20))
  }

  /** A request: verb, endpoint and the JSON body's fields. */
  datatype Call = Call(verb: string, endpoint: string, body: map<string, string>)

  function VoteCall(articleId: string, v: VoteType): Call {
    Call("POST", "/votes", map["article_id" := articleId, "vote_type" := VoteTypeName(v)])
  }

  function RemoveVoteCall(articleId: string): Call {
    Call("DELETE", "/votes/" + articleId, map[])
  }

  function CreateBookmarkCall(articleId: string): Call {
    Call("POST", "/bookmarks", map["article_id" := articleId])
  }

  function DeleteBookmarkCall(articleId: string): Call {
    Call("DELETE", "/bookmarks/" + articleId, map[])
  }

  /**
   * The mutation requests carry what the server handlers read: the vote
   * body's `vote_type` passes the server's check and names the same
   * direction; the article id is the last path segment of the deletes.
   */
  lemma MutationShapes(articleId: string, v: VoteType)
    ensures VoteCall(articleId, v).verb == "POST" && VoteCall(articleId, v).endpoint == "/votes"
    ensures VoteCall(articleId, v).body.Keys == {"article_id", "vote_type"}
    ensures VoteCall(articleId, v).body["article_id"] == articleId
    ensures Votes.ParseVoteType(VoteCall(articleId, v).body["vote_type"]) == Some(v)
    ensures RemoveVoteCall(articleId).verb == "DELETE" && RemoveVoteCall(articleId).endpoint[|"/votes/"|..] == articleId
    ensures CreateBookmarkCall(articleId).verb == "POST" && CreateBookmarkCall(articleId).body == map["article_id" := articleId]
    ensures DeleteBookmarkCall(articleId).verb == "DELETE" && DeleteBookmarkCall(articleId).endpoint[|"/bookmarks/"|..] == articleId
  {
    Votes.VoteTypeRoundTrip(v);
  }
}
