# zyyp core, modelled in Dafny

zyyp is an article aggregator. A Go backend ingests RSS feeds into articles. It serves them through a REST API with paging, tag and search filters, votes, bookmarks and user profiles. A React client shows an infinite feed, per-article vote and bookmark controls, and a profile page. This project models the sequential logic inside both halves and proves what that logic promises.

The model has one module per source file:

- **Feed ingestion text** (`strip_html.dfy`, `feed_item.dfy`)
  - the tag stripper with its whitespace collapse;
  - the per-item fallbacks of the feed fetcher: description, image, author, date and reading time.
- **List paging and query building** (`paging.dfy`, `articles.dfy`)
  - page and page-size clamping, and `has_more`;
  - the comma-split tag filter;
  - the positional-placeholder list and count queries;
  - article creation checks;
  - the in-place enrichment of a page with the caller's bookmarks and votes.
- **Profiles** (`profile.dfy`)
  - the dynamic `UPDATE … SET` builder;
  - the profile table with its error replies;
  - the reading-streak loop.
- **Bookmarks and votes** (`bookmarks.dfy`, `votes.dfy`)
  - each table is a map keyed by (user, article);
  - the handlers work over the tables in their fixed validation order.
- **Bearer authentication** (`auth.dfy`)
  - the required and optional middleware decisions over the header string;
  - token verification and UUID parsing are oracles.
- **Client state** (`stores.dfy`, `article_card.dfy`, `profile_page.dfy`)
  - the filter, auth and theme stores;
  - the per-card vote and bookmark state machine, and the date buckets;
  - the profile edit form.
- **Client paging and request encoding** (`feed.dfy`, `api.dfy`)
  - the infinite-feed pager;
  - headers and error messages;
  - ordered query-parameter emission;
  - endpoint shapes.

Shared helpers are in two modules:

- `common.dfy` holds options, ids, replies and the article row.
- `text.dfy` holds Go's `strings.Fields`, `Join`, `Split`, `TrimSpace` and `TrimPrefix`, plus decimal rendering.

Modelling conventions:

- Strings are character sequences.
- Database results enter as parameters, for example "the write succeeded" or "the re-read counts". No SQL is executed.
- Where code and design notes differ, the code is followed:
  - `signOut` clears state only after the remote sign-out resolves.
  - The feed's query key keeps the ordered tag list, so the same tags in another order make another key.

## Model

| member | source | states |
|---|---|---|
| StripHtml.Untagged | backend/pkg/rss/rss.go:147-160 | the characters kept by the `inTag` scan contain no `<` or `>`, and there are never more of them than in the input |
| StripHtml.StripHTML | backend/pkg/rss/rss.go:146-165 | the rune loop plus collapse equals the function `Stripped`; the output has no angle brackets, no leading or trailing blanks, and single spaces between words |
| StripHtml.Stripped | backend/pkg/rss/rss.go:162-164 | the kept characters split into words and joined by one space, then trimmed (its body; `StrippedShape` and `StripIdempotent` state its properties) |
| StripHtml.PlainTextKept | backend/pkg/rss/rss.go:149-159 | text without angle brackets passes the scan unchanged |
| StripHtml.OutsideKept | backend/pkg/rss/rss.go:155-158 | characters outside tags are kept in their original order in front of whatever the rest yields |
| StripHtml.InsideDropped | backend/pkg/rss/rss.go:151-158 | inside a tag everything up to the next `>` is dropped |
| StripHtml.TagDropped | backend/pkg/rss/rss.go:150-159 | a whole `<…>` tag disappears and scanning continues outside the tag |
| StripHtml.UnclosedTagDropsRest | backend/pkg/rss/rss.go:151-158 | an unclosed `<` drops the rest of the input |
| StripHtml.StrippedShape | backend/pkg/rss/rss.go:162-164 | the result is the kept words joined by one space; it is normalised and its words are exactly those words |
| StripHtml.StripIdempotent | backend/pkg/rss/rss.go:146-165 | stripping twice equals stripping once |
| FeedItem.RawDescription | backend/pkg/rss/rss.go:75-82 | a non-empty description wins; otherwise the content is used, cut to 500 characters plus `...` when longer |
| FeedItem.Description | backend/pkg/rss/rss.go:75-85 | the stored description is always free of angle brackets and normalised |
| FeedItem.FirstImage | backend/pkg/rss/rss.go:93-99 | the index found is the first enclosure whose type starts with `image/`, or the end |
| FeedItem.ImageUrl | backend/pkg/rss/rss.go:88-100 | a non-empty item image wins; otherwise the URL of the first image enclosure; none iff no enclosure is an image |
| FeedItem.AuthorName | backend/pkg/rss/rss.go:102-108 | `Authors[0]`, else `Author`, and none iff both are missing |
| FeedItem.PublishedAt | backend/pkg/rss/rss.go:110-116 | the published date, else the updated date |
| FeedItem.ReadingMinutes | backend/pkg/rss/rss.go:123 | at least 1 minute; from 200 words on it is the floor of words/200 |
| FeedItem.WordCount | backend/pkg/rss/rss.go:118-122 | the content's word count, falling back to the description's only when the content has no words |
| FeedItem.DeriveRow | backend/pkg/rss/rss.go:74-130 | the inserted row carries title, link and content unchanged, together with the derived description, image, author, date and reading time; the description is clean and the reading time is at least 1 |
| FeedItem.ContentUsedOnlyAsFallback | backend/pkg/rss/rss.go:75-85 | with a description, the content never reaches the stored description; with neither, it is empty |
| Paging.Clamp | backend/internal/handlers/articles.go:24-32 | page < 1 becomes 1; a size outside [1,50] becomes 20; other values are kept; the offset is (page-1)*size and never negative |
| Paging.Respond | backend/internal/handlers/articles.go:140-148 | the response echoes the window and `has_more` holds iff total > page*size |
| Paging.HasMore | backend/internal/handlers/articles.go:140 | total > page*size (its body; `Respond`, `HasMoreIffRowsBeyond` and `LastPage` state what it means) |
| Paging.HasMoreIffRowsBeyond | backend/internal/handlers/articles.go:140 | `has_more` holds iff rows exist beyond offset+size |
| Paging.LastPage | backend/internal/handlers/articles.go:140 | for any positive total, `has_more` is true on every page before the last page (ceiling of total/size) and false on it |
| Articles.UpTo | backend/internal/handlers/articles.go:55-66 | placeholder numbers 1..n, consecutive |
| Articles.TagFilter | backend/internal/handlers/articles.go:38-41 | an empty parameter gives no filter; otherwise the list joins back with `,` to the parameter |
| Articles.TagsRoundTrip | frontend/src/lib/api.ts:31 | a non-empty list of comma-free slugs, joined with `,` by the client, is split back to the same list by the server |
| Articles.TagPlaceholders | backend/internal/handlers/articles.go:62-67 | one placeholder `$k+1` and one argument per tag, in order |
| Articles.FilterClause | backend/internal/handlers/articles.go:57-83 | the arguments are the tags, then `%search%` when searching; the WHERE placeholders are 1..n followed by n+1 twice; the tag join appears iff there are tags |
| Articles.BuildQuery | backend/internal/handlers/articles.go:43-102 | the list query's placeholders are 1..k consecutive and k equals the argument count, with LIMIT $k-1 and OFFSET $k last; the count query has the same joins and WHERE clause and its placeholders and arguments are those of the list query minus the last two |
| Articles.OrderBy | backend/internal/handlers/articles.go:86-94 | `popular` and `trending` select their own ORDER BY text and every other value the newest-first one (its body; `OrderByHasNoParams` states it adds no placeholder) |
| Articles.NoParams | backend/internal/handlers/articles.go:44-51 | literal query heads contribute no placeholder |
| Articles.OrderByHasNoParams | backend/internal/handlers/articles.go:86-94 | every ORDER BY choice, including an unknown `sort_by`, is one literal without placeholders |
| Articles.LimitParams | backend/internal/handlers/articles.go:97 | the LIMIT/OFFSET tail uses placeholders n and n+1 |
| Articles.ParamsConcat | backend/internal/handlers/articles.go:59-97 | the placeholders of appended query text are the placeholders of the parts, in order |
| Articles.PlaceholderList | backend/internal/handlers/articles.go:68 | the comma-joined tag placeholders number consecutively from their start |
| Articles.SearchParams | backend/internal/handlers/articles.go:73 | the search condition uses the same placeholder twice |
| Articles.WhereParams | backend/internal/handlers/articles.go:78-83 | the `WHERE … AND …` clause numbers tags 1..m, then the search placeholder m+1 twice |
| Articles.CreateReadingTime | backend/internal/handlers/articles.go:261-266 | 5 without a description, otherwise the feed's words/200 estimate, and always at least 1 |
| Articles.CreateArticle | backend/internal/handlers/articles.go:248-293 | 400 "Invalid request body", then 400 when title, URL or source name is empty; a reading time is computed iff the request is valid, and 201 iff it is valid and the insert succeeds |
| Articles.LastVote | backend/internal/handlers/articles.go:355-361 | an article gets no vote iff no vote row names it |
| Articles.Enriched | backend/internal/handlers/articles.go:320-366 | only `is_bookmarked` and `user_vote` can change; bookmarked iff already bookmarked or a bookmark row names the article at its map slot; a changed vote is the last vote row naming it |
| Articles.EnrichArticlesWithUserData | backend/internal/handlers/articles.go:320-366 | in place, length and order preserved, every element becomes its `Enriched` value; a failed query changes nothing |
| Articles.IndexArticles | backend/internal/handlers/articles.go:326-331 | the id map sends every id to the last index holding it |
| Articles.MarkBookmarked | backend/internal/handlers/articles.go:333-347 | exactly the articles named by bookmark rows, at their map slots, are marked; other fields are untouched |
| Articles.SetUserVotes | backend/internal/handlers/articles.go:349-364 | exactly the articles named by vote rows, at their map slots, take the last row's vote; other fields are untouched |
| Articles.MapPointsToLast | backend/internal/handlers/articles.go:328-331 | a map whose entries are last occurrences indexes every article's last slot |
| Articles.SameIdsSameLast | backend/internal/handlers/articles.go:342-360 | writing flags in place keeps which slot is the last for each id |
| Articles.EnrichDistinct | backend/internal/handlers/articles.go:320-366 | with distinct ids, an article is bookmarked iff a row names it, and its vote is the row's vote when present and unchanged otherwise |
| Articles.EnrichKeepsBookmarked | backend/internal/handlers/bookmarks.go:78-81 | enrichment never clears a bookmark flag already set |
| Profile.PresentFields | backend/internal/handlers/profile.go:87-111 | the present fields, and only those, in the order username, bio, avatar_url, interests |
| Profile.BuildUpdate | backend/internal/handlers/profile.go:87-129 | none iff no field is present; otherwise the statement is `SET f1 = $1, …, fn = $n, updated_at = NOW() WHERE id = $n+1` and the arguments are the values followed by the user id |
| Profile.JoinClauses | backend/internal/handlers/profile.go:119-128 | the concatenation loop yields the clauses joined by `, ` |
| Profile.BuilderMatches | backend/internal/handlers/profile.go:88-111 | after the four field steps, `argIndex` is n+1 ≤ 5, so the one-rune digit encoding writes the right decimal number |
| Profile.AddMatches | backend/internal/handlers/profile.go:88-93 | each field step appends one `col = $k` clause and its argument, and advances `argIndex` |
| Profile.Applied | backend/internal/handlers/profile.go:87-111 | present fields replace the stored ones; absent fields and the id are kept |
| Profile.AppliedMatchesStatement | backend/internal/handlers/profile.go:87-129 | each SET column receives its bound argument in the applied profile, and columns not in the statement keep their old value |
| Profile.NamedColumn | backend/internal/handlers/profile.go:87-111 | a present bio, avatar or interests field always names its column in the SET list |
| Profile.AppliedIdempotent | backend/internal/handlers/profile.go:73-146 | applying the same update twice equals applying it once |
| Profile.ProfileTable.GetProfile | backend/internal/handlers/profile.go:19-36 | 401 without a user, 404 "Profile not found" when absent, otherwise 200 with the stored profile |
| Profile.ProfileTable.UpdateProfile | backend/internal/handlers/profile.go:73-146 | in order: 401; 400 bad body; 400 "No fields to update" with no write; 500 on a failed write; 404 when no row matches; otherwise the row becomes its applied update and the reply is the re-read profile |
| Profile.CurrentStreak | backend/internal/handlers/profile.go:212-223 | the streak is the length of the longest prefix with `dates[i] == today - i`, and never more than the number of dates |
| Profile.StreakNeedsToday | backend/internal/handlers/profile.go:214-219 | the streak is 0 when the latest date is not today |
| Profile.StreakWindow | backend/internal/handlers/profile.go:212-223 | for distinct dates sorted descending and not after today, every date past the streak lies at least `streak` days before today, so no remaining date falls inside the counted window |
| Profile.GetReadingStats | backend/internal/handlers/profile.go:154-228 | 401 without a user; the longest streak always equals the current one; with no dates, both are 0 |
| Bookmarks.Marked | backend/internal/handlers/bookmarks.go:78 | the scanned article is flagged bookmarked and nothing else changes |
| Bookmarks.Scanned | backend/internal/handlers/bookmarks.go:66-81 | the kept rows are exactly the rows that scanned, in order, all flagged bookmarked |
| Bookmarks.ScannedFromRows | backend/internal/handlers/bookmarks.go:66-81 | every returned article comes from a scanned row |
| Bookmarks.ScanBookmarked | backend/internal/handlers/bookmarks.go:66-81 | the scan loop, which skips failed rows, yields `Scanned` |
| Bookmarks.GetBookmarks | backend/internal/handlers/bookmarks.go:20-93 | 401, then 500 on a failed count or fetch; otherwise paging is clamped as for articles, `has_more` iff total > page*size, and every returned article is bookmarked and enriched |
| Bookmarks.CreateBookmarkCheck | backend/internal/handlers/bookmarks.go:102-129 | 401, 400 bad body, 400 "Article ID is required", 404 "Article not found", in that order |
| Bookmarks.BookmarkTable.constructor | backend/internal/handlers/bookmarks.go:174 | the `bookmarks` table, keyed by (user_id, article_id), holds exactly the rows it is given: whatever the database already contains, since no handler creates the table |
| Bookmarks.BookmarkTable.CreateBookmark | backend/internal/handlers/bookmarks.go:102-151 | the checks come first; 500 on a failed write; on success the pair is upserted, so at most one row per (user, article) remains; 201 |
| Bookmarks.BookmarkTable.DeleteBookmark | backend/internal/handlers/bookmarks.go:159-192 | 401; 400 "Invalid article ID"; 500 on a failed delete; 404 "Bookmark not found" when the pair is absent; otherwise the pair is removed |
| Bookmarks.CreateThenDelete | backend/internal/handlers/bookmarks.go:131-187 | starting from an absent pair, create then delete leaves the table as it was |
| Votes.ParseVoteType | backend/internal/handlers/votes.go:37-42 | a vote type is accepted iff it is exactly `up` or `down` |
| Votes.VoteTypeRoundTrip | backend/internal/handlers/votes.go:37-42 | parsing a vote type's name gives it back |
| Votes.VoteCheck | backend/internal/handlers/votes.go:19-52 | 401; 400 bad body; 400 nil article id; 400 bad vote type; 404 missing article, in that order |
| Votes.VoteTable.constructor | backend/internal/handlers/votes.go:112 | the `votes` table, keyed by (user_id, article_id), holds exactly the rows it is given: whatever the database already contains, since no handler creates the table |
| Votes.VoteTable.Vote | backend/internal/handlers/votes.go:19-89 | after the checks, 500 on a failed write; on success the pair holds exactly the requested type, replacing any earlier vote; the counts are the re-read ones (500 when the re-read fails), and `user_vote` is the requested type |
| Votes.VoteTable.RemoveVote | backend/internal/handlers/votes.go:97-147 | 401; 400 "Invalid article ID"; 500 on a failed delete; 404 "Vote not found"; otherwise the pair is removed, the counts are re-read and `user_vote` is null |
| Votes.VoteTwice | backend/internal/handlers/votes.go:54-67 | an up vote followed by a down vote on the same article leaves exactly one entry for the pair, holding `down` |
| Auth.AuthRequired | backend/internal/middleware/auth.go:22-59 | 401 for an empty header, 401 without the `Bearer ` prefix, 401 for a failed token check or a non-UUID `sub`; otherwise the parsed `sub` is stored and the request continues |
| Auth.BareBearerVerifiesEmptyToken | backend/internal/middleware/auth.go:29-36 | the header `Bearer ` alone reaches verification with the empty token |
| Auth.OptionalAuth | backend/internal/middleware/auth.go:64-91 | never rejects; stores a user id iff the prefix is present, the token verifies and `sub` parses |
| Auth.OptionalAgreesWithRequired | backend/internal/middleware/auth.go:22-91 | the optional middleware stores a user exactly when the required one would accept, and stores the same id |
| Auth.GetUserID | backend/internal/middleware/auth.go:95-98 | ok iff a user id was stored; the nil UUID otherwise |
| Stores.Without | frontend/src/stores/index.ts:159 | the filter removes every occurrence of the slug and keeps the others |
| Stores.WithoutConcat | frontend/src/stores/index.ts:159 | filtering distributes over concatenation, so the others keep their relative order |
| Stores.WithoutNoDup | frontend/src/stores/index.ts:159 | filtering keeps a duplicate-free list duplicate-free |
| Stores.Toggled | frontend/src/stores/index.ts:156-162 | the slug is in the result iff it was not in the list; other slugs keep their membership; a present slug is removed and an absent one appended |
| Stores.ToggleKeepsNoDup | frontend/src/stores/index.ts:156-162 | toggling keeps the tag list duplicate-free |
| Stores.ToggleTwiceAbsent | frontend/src/stores/index.ts:156-162 | toggling an absent slug twice restores the exact list |
| Stores.ToggleTwicePresent | frontend/src/stores/index.ts:156-162 | toggling a present slug twice keeps the same set but moves the slug to the end |
| Stores.FilterStore.constructor | frontend/src/stores/index.ts:151-154 | starts cleared: no tags, empty search, `newest` |
| Stores.FilterStore.ToggleTag | frontend/src/stores/index.ts:156-162 | the tags become their toggle and nothing else changes |
| Stores.FilterStore.SetSearchQuery | frontend/src/stores/index.ts:164-166 | only the search query changes |
| Stores.FilterStore.SetSortBy | frontend/src/stores/index.ts:168-170 | only the sort order changes |
| Stores.FilterStore.ClearFilters | frontend/src/stores/index.ts:172-174 | from any state the store ends cleared, so clearing is idempotent |
| Stores.AuthStore.constructor | frontend/src/stores/index.ts:19-23 | no user, no profile, loading, not authenticated; the invariant holds |
| Stores.AuthStore.SetUser | frontend/src/stores/index.ts:25-27 | sets the user and keeps `isAuthenticated == (user != null)`; profile, loading and token are untouched |
| Stores.AuthStore.SetProfile | frontend/src/stores/index.ts:29-31 | only the profile changes |
| Stores.AuthStore.SignOut | frontend/src/stores/index.ts:53-57 | throws iff the remote sign-out rejects, and then nothing changes; otherwise user, profile, authentication and token are cleared |
| Stores.AuthStore.Initialize | frontend/src/stores/index.ts:59-78 | always ends not loading, even when the lookup throws; a session with a user stores the user and its token; the invariant holds |
| Stores.AuthStore.OnAuthStateChange | frontend/src/stores/index.ts:81-96 | a session with a user stores it and its token; otherwise the token is removed and user and profile are cleared; the invariant holds |
| Stores.Flipped | frontend/src/stores/index.ts:113 | the theme always changes |
| Stores.FlipTwice | frontend/src/stores/index.ts:112-116 | toggling twice restores the theme |
| Stores.ThemeStore.constructor | frontend/src/stores/index.ts:110 | starts light |
| Stores.ThemeStore.ToggleTheme | frontend/src/stores/index.ts:112-116 | the theme flips and the document attribute shows the new theme |
| Stores.ThemeStore.SetTheme | frontend/src/stores/index.ts:118-121 | the theme and the document attribute take the given theme |
| ArticleCard.SeedVote | frontend/src/components/ArticleCard.tsx:14 | a vote is seeded iff the article's vote is a non-empty string (`user_vote \|\| null`) |
| ArticleCard.CardState.constructor | frontend/src/components/ArticleCard.tsx:13-16 | bookmark flag, seeded vote and both counts are copied from the article |
| ArticleCard.CardState.HandleVote | frontend/src/components/ArticleCard.tsx:34-61 | unauthenticated: no request and no change; the held direction sends `removeVote`, another direction sends `vote`; only a response with data changes the vote (cleared or set) and adopts the server counts, so the net score becomes up - down; a throw or no data changes nothing |
| ArticleCard.CardState.HandleBookmark | frontend/src/components/ArticleCard.tsx:63-80 | unauthenticated: no request; delete when bookmarked, create otherwise; the flag flips only on success; votes are untouched |
| ArticleCard.VoteThenUnvote | frontend/src/components/ArticleCard.tsx:41-56 | voting then voting the same way again clears the vote and ends on the second reply's counts |
| ArticleCard.FormatDate | frontend/src/components/ArticleCard.tsx:20-31 | unknown iff no date; today iff 0 days; yesterday iff 1; days-ago below 7 (negative values included); weeks-ago below 30; the calendar date otherwise |
| ArticleCard.LabelText | frontend/src/components/ArticleCard.tsx:20-31 | every bucket except the calendar date has its fixed text |
| ArticleCard.FutureDateLabel | frontend/src/components/ArticleCard.tsx:20-31 | every future date (negative day count n) falls in the days-ago bucket and reads `-<\|n\|> days ago`, e.g. "-3 days ago" |
| ArticleCard.CardState.NetVotes | frontend/src/components/ArticleCard.tsx:82 | the net score is upvotes minus downvotes (its body; `HandleVote` states it equals the server's counts after a vote) |
| Api.Headers | frontend/src/lib/api.ts:6-12 | `Authorization: Bearer <token>` is present iff the token is non-empty, unless the caller overrides it; `Content-Type` defaults to JSON; caller headers win; no other header appears |
| Api.BearerHeaderReachesMiddleware | frontend/src/lib/api.ts:8-12 | the header the client sends passes the server's prefix check with the same token |
| Api.ErrorMessage | frontend/src/lib/api.ts:19-22 | `message`, else `error`, else "Request failed" (also for an unparsable body); never empty |
| Api.ServerErrorSurfaces | frontend/src/lib/api.ts:19-22 | a server error reply without a message surfaces as its `error` text |
| Api.Lookup | frontend/src/lib/api.ts:29-35 | a key is absent iff no emitted pair carries it |
| Api.LookupConcat | frontend/src/lib/api.ts:29-35 | a key is found in the first part that holds it |
| Api.LookupParam | frontend/src/lib/api.ts:29-35 | a single `set` holds only its own key |
| Api.InOrderConcat | frontend/src/lib/api.ts:29-35 | appending parameters of later keys keeps the key order |
| Api.ParamInOrder | frontend/src/lib/api.ts:29-35 | a single `set` is in order |
| Api.FiveInOrder | frontend/src/lib/api.ts:29-35 | the five conditional `set`s emit tags, search, sort_by, page, page_size in that order |
| Api.EmittedInOrder | frontend/src/lib/api.ts:29-35 | the emitted parameters are in that order |
| Api.EmittedLookup | frontend/src/lib/api.ts:29-35 | each key carries exactly its truthy value, and is absent otherwise |
| Api.SetWhen | frontend/src/lib/api.ts:30-35 | a conditional `set` of a key not yet present appends its pair only when the value is truthy |
| Api.ArticleParams | frontend/src/lib/api.ts:29-35 | the parameters are in order; tags (joined with `,`) only when non-empty, search and sort only when non-empty, page and size only when non-zero; none at all iff every filter is falsy |
| Api.QueryString | frontend/src/lib/api.ts:37 | the query is non-empty iff the parameter list is |
| Api.GetArticlesEndpoint | frontend/src/lib/api.ts:29-38 | the path is `/articles`, followed by `?` and the query string of the emitted parameters exactly when some filter is emitted; exactly `/articles` iff every filter is falsy |
| Api.ClientTagsReachServer | frontend/src/lib/api.ts:31 | comma-free selected tags arrive at the server as the same list |
| Api.TrendingEndpoint | frontend/src/lib/api.ts:45-47 | the limit defaults to 10 |
| Api.BookmarksEndpoint | frontend/src/lib/api.ts:59-61 | page and page size default to 1 and 20 |
| Api.MutationShapes | frontend/src/lib/api.ts:63-88 | `vote` POSTs `{article_id, vote_type}` to `/votes` and its type parses back; `removeVote` and `deleteBookmark` DELETE the id's path; `createBookmark` POSTs `{article_id}` |
| Feed.NextPageParam | frontend/src/components/Feed.tsx:44-46 | a next page exists iff the last page has more, and it is that page + 1 |
| Feed.CursorStopsAtLastPage | frontend/src/components/Feed.tsx:44-46 | with the server's paging, the cursor stops exactly at the last page |
| Feed.Flatten | frontend/src/components/Feed.tsx:72 | no pages give no articles |
| Feed.FlattenAppend | frontend/src/components/Feed.tsx:72 | a new page's articles come after all earlier ones |
| Feed.TotalCount | frontend/src/components/Feed.tsx:73 | the first page's total, or 0 with no pages |
| Feed.EffectiveSearch | frontend/src/components/Feed.tsx:17-18 | the URL search when non-empty, else the store's query |
| Feed.HasActiveFilters | frontend/src/components/Feed.tsx:74 | some tag is selected or the effective search is non-empty (its body; `ActiveFilters` states it over the store and URL) |
| Feed.ActiveFilters | frontend/src/components/Feed.tsx:74 | filters are active iff a tag is selected or the effective search is non-empty; after clearing, with no URL search, they are not |
| Feed.ShowEndOfList | frontend/src/components/Feed.tsx:258 | no next page and at least one article loaded (its body; `EndMarker` states it over the fetched pages) |
| Feed.EndMarker | frontend/src/components/Feed.tsx:258 | the end marker shows iff the last page has no more and some article is loaded |
| Feed.TagOrderChangesKey | frontend/src/components/Feed.tsx:35 | for any tag list whose first two tags differ, swapping them keeps the same multiset of tags but gives another query key |
| Feed.PageFilters | frontend/src/components/Feed.tsx:35-43 | every request carries the key's tags, search and sort, the page cursor and page size 20 |
| Feed.InfiniteFeed.constructor | frontend/src/components/Feed.tsx:27-47 | no pages, nothing in flight and no error |
| Feed.InfiniteFeed.HasNextPage | frontend/src/components/Feed.tsx:44-46 | a next page exists iff some page is loaded and the last one yields a next-page parameter (its body) |
| Feed.InfiniteFeed.OnIntersect | frontend/src/components/Feed.tsx:53-55 | a fetch starts iff the sentinel intersects, a next page exists and none is in flight; it asks for the next page and marks the fetch in flight; pages and error are untouched |
| Feed.InfiniteFeed.PageArrived | frontend/src/components/Feed.tsx:35-72 | the page is appended, the visible articles grow by its articles, nothing is in flight, the error is cleared, and a next page exists iff it has more |
| Feed.InfiniteFeed.PageFailed | frontend/src/components/Feed.tsx:27-33 | a rejected fetch sets the error, keeps the loaded pages and articles, clears the in-flight flag and keeps whether a next page exists |
| Feed.RetryAfterFailure | frontend/src/components/Feed.tsx:53-55 | after a failed next-page fetch, the next intersection asks for the same page again |
| ProfilePage.Redirect | frontend/src/pages/ProfilePage.tsx:45-48 | unauthenticated visitors are sent to `/login` and nothing is rendered |
| ProfilePage.HoursIsIntegerDivision | frontend/src/pages/ProfilePage.tsx:248 | `Math.round(m/60)` equals `(m+30) div 60` for every integer number of minutes |
| ProfilePage.Hours | frontend/src/pages/ProfilePage.tsx:248 | the hours shown are the whole number nearest to minutes/60, halves rounding up: 60h-30 <= m < 60h+30 |
| ProfilePage.ShownBio | frontend/src/pages/ProfilePage.tsx:213 | the confirmed bio when non-empty, else "No bio yet" |
| ProfilePage.ProfileForm.constructor | frontend/src/pages/ProfilePage.tsx:36-42 | not editing, with an empty draft |
| ProfilePage.ProfileForm.HandleEdit | frontend/src/pages/ProfilePage.tsx:50-57 | the draft is seeded from the profile, defaulting to `''`, `''` and `[]`, and editing starts |
| ProfilePage.ProfileForm.HandleSave | frontend/src/pages/ProfilePage.tsx:59-65 | username and interests are sent unchanged; the bio is sent as null when empty |
| ProfilePage.ProfileForm.OnSaveSuccess | frontend/src/pages/ProfilePage.tsx:38-41 | a successful save ends editing and keeps the draft |
| ProfilePage.ProfileForm.Cancel | frontend/src/pages/ProfilePage.tsx:163 | cancel ends editing without a request |
| ProfilePage.ProfileForm.ToggleInterest | frontend/src/pages/ProfilePage.tsx:67-74 | the interests become their toggle; username and bio are untouched |
| ProfilePage.ProfileForm.IsSelected | frontend/src/pages/ProfilePage.tsx:275-277 | a tag is selected from the draft interests while editing and from the confirmed profile's interests otherwise (its body) |
| ProfilePage.ProfileForm.ClickInterest | frontend/src/pages/ProfilePage.tsx:275-282 | while editing, a click toggles the draft interest and so flips whether the tag shows as selected; otherwise the click is ignored and the selection, read from the confirmed profile, stays as it was; username, bio and mode are untouched |
| ProfilePage.ClearedBioIsKept | frontend/src/pages/ProfilePage.tsx:62 | as written, for every profile, the save payload with a null bio leaves the stored bio (and the bio shown) unchanged while username and interests are updated |
| ProfilePage.CorrectedSavePayload | frontend/src/pages/ProfilePage.tsx:59-65 | the corrected payload always carries the draft bio |
| ProfilePage.CorrectedSaveShowsDraft | frontend/src/pages/ProfilePage.tsx:59-65 | with the corrected payload, the stored profile takes exactly the draft bio, the empty one included, so a cleared bio shows "No bio yet" |

## Left out

- SQL execution, the connection pool and query results. Tables are maps, and query outcomes are parameters: success flags, re-read counts, scanned rows, and whether an article exists. A failing EXISTS query is treated like an absent row.
- The database trigger that keeps vote counts, and the trending score's floating-point SQL ordering. Counts are read back as opaque values, and the ordering is one literal clause.
- `getArticleTags` (a plain SQL read). A scanned article's tags are part of its row.
- Feed fetching and parsing. `gofeed`, HTTP, and the "already exists" lookup in the feed fetcher are left out, and items enter as data.
- FeedItem.RawDescription: cuts at 500 characters, not 500 bytes. A multi-byte rune split by the byte cut is not modelled.
- `strconv.Atoi` on query parameters. Page and page size enter as the integers it would return (0 on a parse failure).
- Go's fixed-width `int`. `(page-1)*pageSize` and `page*pageSize` are unbounded here, so overflow for huge page numbers is not modelled.
- JWT signature and expiry verification, and UUID parsing. Both are oracle function parameters.
- The `GetArticles`, `GetArticle` and `GetTrendingArticles` handlers' query execution and error replies. Their paging, filter and query construction is what the model covers.
- Server wiring: routing, cron, shutdown, the RSS trigger, and the tag and configuration handlers.
- Supabase OAuth sign-in calls, `localStorage` and `document`. The token slot and the `data-theme` attribute are store fields, and theme persistence and rehydration are left out.
- React rendering, query caching and invalidation, and the vote and bookmark animation timers.
- `URLSearchParams` percent-encoding. Parameters are ordered key/value pairs, and the query text joins them unencoded.
- `Date` and `toLocaleDateString`. The day difference is an integer input, and the calendar-date text has no model.
- The `console.error` logging of a thrown vote or bookmark request. A throw is an outcome that leaves the card unchanged.
- Profile.CurrentStreak: dates are UTC day numbers and today is one more day number. The time-zone and daylight-saving effects of `time.Now().Truncate(24*time.Hour)`, `AddDate` in the server's local zone and the database's `DATE(read_at)` are not modelled; on a server whose zone changes clock inside the streak window, the source's `Equal` can fail and stop the streak early where the model keeps counting.
- Profile.GetReadingStats: its streak is `CurrentStreak` on the same UTC day numbers, so the same clock and time-zone effects are not modelled.
- CardState.HandleVote: each call is one atomic request-and-reply step. The source's async handler reads `userVote` from the render closure and nothing blocks a second click while a request is in flight (frontend/src/components/ArticleCard.tsx:173, 193 and 208 disable the buttons only when signed out), so overlapping calls and replies arriving out of order are not modelled; `VoteThenUnvote` holds only when the second click follows the first reply.
- CardState.HandleBookmark: likewise one atomic step; overlapping calls on the stale `isBookmarked` and out-of-order replies are not modelled.

## Findings

| source | as written | input that shows it | evidently intended | confidence | as-written member | corrected member |
|---|---|---|---|---|---|---|
| frontend/src/pages/ProfilePage.tsx:62 | `handleSave` sends `bio: editForm.bio \|\| null`. The server's `Bio *string` reads JSON null as "not present" (backend/internal/models/models.go:115-120), so `UpdateProfile` skips the bio (backend/internal/handlers/profile.go:97). | A profile with bio "hello"; edit, clear the bio, save: the stored bio stays "hello". | Clearing the bio and saving stores the empty bio. | not executed | ProfilePage.ClearedBioIsKept | ProfilePage.CorrectedSaveShowsDraft |
