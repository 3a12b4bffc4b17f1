/**
 * The vote handlers of backend/internal/handlers/votes.go over an abstract
 * `votes` table: a map from (user id, article id) to the vote type, so the
 * table holds at most one vote per pair, as the `ON CONFLICT (user_id,
 * article_id)` upsert keeps it. The article's counts are maintained by a
 * database trigger outside this model; the handlers only read them back.
 */
module Votes {
  import opened Common

  /** The `vote_type` of a request: only "up" and "down" are votes. */
  function ParseVoteType(s: string): (r: Option<VoteType>)
    ensures r.Some? <==> s == "up" || s == "down"
    ensures r.Some? ==> VoteTypeName(r.value) == s
  {
    if s == "up" then Some(Up) else if s == "down" then Some(Down) else None
  }

  /** Every vote type's name parses back to it. */
  lemma VoteTypeRoundTrip(v: VoteType)
    ensures ParseVoteType(VoteTypeName(v)) == Some(v)
  {
  }

  /** A parsed `models.VoteRequest`. */
  datatype VoteRequest = VoteRequest(articleId: Uuid, voteType: string)

  /** The reply: an error, or the counts read back and the caller's vote. */
  datatype VoteReply = VoteFailed(reply: Reply) | VoteOk(upvotes: int, downvotes: int, userVote: Option<string>)

  /**
   * Lines 19-52: the checks of `Vote` in their order. `body` is None when
   * the body does not parse.
   */
  function VoteCheck(userId: Option<Uuid>, body: Option<VoteRequest>, articleIds: set<Uuid>): (r: Option<Reply>)
    ensures userId.None? ==> r == Some(Reply(StatusUnauthorized, "Unauthorized"))
    ensures userId.Some? && body.None? ==> r == Some(Reply(StatusBadRequest, "Invalid request body"))
    ensures userId.Some? && body.Some? && body.value.articleId == NilUuid ==>
      r == Some(Reply(StatusBadRequest, "Article ID is required"))
    ensures userId.Some? && body.Some? && body.value.articleId != NilUuid && ParseVoteType(body.value.voteType).None? ==>
      r == Some(Reply(StatusBadRequest, "Vote type must be 'up' or 'down'"))
    ensures (userId.Some? && body.Some? && body.value.articleId != NilUuid
             && ParseVoteType(body.value.voteType).Some? && body.value.articleId !in articleIds) ==>
      r == Some(Reply(StatusNotFound, "Article not found"))
    ensures r.None? <==>
      && userId.Some? && body.Some? && body.value.articleId != NilUuid
      && ParseVoteType(body.value.voteType).Some? && body.value.articleId in articleIds
  {
    if userId.None? then Some(Reply(StatusUnauthorized, "Unauthorized"))
    else if body.None? then Some(Reply(StatusBadRequest, "Invalid request body"))
    else if body.value.articleId == NilUuid then Some(Reply(StatusBadRequest, "Article ID is required"))
    else if body.value.voteType != "up" && body.value.voteType != "down" then
      Some(Reply(StatusBadRequest, "Vote type must be 'up' or 'down'"))
    else if body.value.articleId !in articleIds then Some(Reply(StatusNotFound, "Article not found"))
    else None
  }

  /** The `votes` table, keyed by (user_id, article_id), each row holding its vote type. */
  class VoteTable {
    var votes: map<(Uuid, Uuid), VoteType>

    /** The table holds whatever rows the database already has; no handler creates it. */
    constructor(votes: map<(Uuid, Uuid), VoteType>)
      ensures this.votes == votes
    {
      this.votes := votes;
    }

    /**
     * `Vote`: after the checks, an upsert that leaves exactly the requested
     * type for the pair. `writeOk` is false when the statement fails;
     * `counts` is the (upvotes, downvotes) pair read back from the article,
     * None when that query fails.
     */
    method Vote(userId: Option<Uuid>, body: Option<VoteRequest>, articleIds: set<Uuid>,
                writeOk: bool, counts: Option<(int, int)>) returns (r: VoteReply)
      modifies this
      ensures VoteCheck(userId, body, articleIds).Some? ==>
        r == VoteFailed(VoteCheck(userId, body, articleIds).value) && votes == old(votes)
      ensures VoteCheck(userId, body, articleIds).None? && !writeOk ==>
        r == VoteFailed(Reply(StatusInternalServerError, "Failed to record vote")) && votes == old(votes)
      ensures VoteCheck(userId, body, articleIds).None? && writeOk ==>
        && votes == old(votes)[(userId.value, body.value.articleId) := ParseVoteType(body.value.voteType).value]
        && votes.Keys == old(votes).Keys + {(userId.value, body.value.articleId)}
      ensures VoteCheck(userId, body, articleIds).None? && writeOk && counts.None? ==>
        r == VoteFailed(Reply(StatusInternalServerError, "Failed to get updated vote counts"))
      ensures r.VoteOk? <==> VoteCheck(userId, body, articleIds).None? && writeOk && counts.Some?
      ensures r.VoteOk? ==>
        r == VoteOk(counts.value.0, counts.value.1, Some(body.value.voteType))
        && votes[(userId.value, body.value.articleId)] == ParseVoteType(body.value.voteType).value
    {
      var rejected := VoteCheck(userId, body, articleIds);
      if rejected.Some? {
        return VoteFailed(rejected.value);
      }
      if !writeOk {
        return VoteFailed(Reply(StatusInternalServerError, "Failed to record vote"));
      }
      var voteType := ParseVoteType(body.value.voteType).value;
      votes := votes[(userId.value, body.value.articleId) := voteType];
      if counts.None? {
        return VoteFailed(Reply(StatusInternalServerError, "Failed to get updated vote counts"));
      }
      r := VoteOk(counts.value.0, counts.value.1, Some(body.value.voteType));
    }

    /**
     * `RemoveVote`. `articleId` is None when the path parameter is not a
     * UUID; `execOk` is false when the delete fails; `counts` as for `Vote`.
     */
    method RemoveVote(userId: Option<Uuid>, articleId: Option<Uuid>, execOk: bool, counts: Option<(int, int)>)
      returns (r: VoteReply)
      modifies this
      ensures userId.None? ==> r == VoteFailed(Reply(StatusUnauthorized, "Unauthorized"))
      ensures userId.Some? && articleId.None? ==> r == VoteFailed(Reply(StatusBadRequest, "Invalid article ID"))
      ensures userId.Some? && articleId.Some? && !execOk ==>
        r == VoteFailed(Reply(StatusInternalServerError, "Failed to remove vote"))
      ensures userId.Some? && articleId.Some? && execOk && (userId.value, articleId.value) !in old(votes) ==>
        r == VoteFailed(Reply(StatusNotFound, "Vote not found"))
      ensures userId.Some? && articleId.Some? && execOk && (userId.value, articleId.value) in old(votes) ==>
        votes == old(votes) - {(userId.value, articleId.value)}
      ensures !(userId.Some? && articleId.Some? && execOk && (userId.value, articleId.value) in old(votes)) ==>
        votes == old(votes)
      ensures userId.Some? && articleId.Some? && execOk && (userId.value, articleId.value) in old(votes) && counts.None? ==>
        r == VoteFailed(Reply(StatusInternalServerError, "Failed to get updated vote counts"))
      ensures r.VoteOk? <==>
        userId.Some? && articleId.Some? && execOk && (userId.value, articleId.value) in old(votes) && counts.Some?
      ensures r.VoteOk? ==> r == VoteOk(counts.value.0, counts.value.1, None)
    {
      if userId.None? {
        return VoteFailed(Reply(StatusUnauthorized, "Unauthorized"));
      }
      if articleId.None? {
        return VoteFailed(Reply(StatusBadRequest, "Invalid article ID"));
      }
      if !execOk {
        return VoteFailed(Reply(StatusInternalServerError, "Failed to remove vote"));
      }
      var key := (userId.value, articleId.value);
      if key !in votes {
        return VoteFailed(Reply(StatusNotFound, "Vote not found"));
      }
      votes := votes - {key};
      if counts.None? {
        return VoteFailed(Reply(StatusInternalServerError, "Failed to get updated vote counts"));
      }
      r := VoteOk(counts.value.0, counts.value.1, None);
    }
  }

  /**
   * Voting up and then down on the same article leaves one vote, down; the
   * later vote replaces the earlier one whatever its direction.
   */
  method VoteTwice(t: VoteTable, user: Uuid, article: Uuid, articleIds: set<Uuid>, counts: (int, int))
    requires article != NilUuid && article in articleIds
    modifies t
    ensures t.votes == old(t.votes)[(user, article) := Down]
    ensures t.votes.Keys == old(t.votes).Keys + {(user, article)}
  {
    var first := t.Vote(Some(user), Some(VoteRequest(article, "up")), articleIds, true, Some(counts));
    var second := t.Vote(Some(user), Some(VoteRequest(article, "down")), articleIds, true, Some(counts));
    assert second == VoteOk(counts.0, counts.1, Some("down"));
  }
}
