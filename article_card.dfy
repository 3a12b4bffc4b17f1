/**
 * The per-card state machine of frontend/src/components/ArticleCard.tsx:
 * local bookmark and vote state seeded from the article, the vote and
 * bookmark handlers, the net score, and the relative date label. A call
 * to the API is a request the handler returns together with the outcome
 * it is given (the network is not modelled).
 */
module ArticleCard {
  import opened Common
  import opened Text

  /** `article.user_vote || null`: an empty string is falsy, so no vote. */
  function SeedVote(v: Option<string>): (r: Option<string>)
    ensures r.Some? <==> v.Some? && v.value != ""
    ensures r.Some? ==> r == v
  {
    if v.Some? && v.value != "" then v else None
  }

  /** The request a handler sends. */
  datatype Request = NoRequest | RemoveVote | SendVote(voteType: VoteType) | DeleteBookmark | CreateBookmark

  /** How an API call ends: it throws, or resolves with or without `data`. */
  datatype Outcome = Threw | NoData | Data(upvotes: int, downvotes: int)

  class CardState {
    var isBookmarked: bool
    var userVote: Option<string>
    var upvotes: int
    var downvotes: int

    /** Lines 13-16. */
    constructor(article: Article)
      ensures isBookmarked == article.isBookmarked
      ensures userVote == SeedVote(article.userVote)
      ensures upvotes == article.upvotes && downvotes == article.downvotes
    {
      isBookmarked := article.isBookmarked;
      userVote := SeedVote(article.userVote);
      upvotes := article.upvotes;
      downvotes := article.downvotes;
    }

    /** The score shown on the card. */
    function NetVotes(): int
      reads this
    {
      upvotes - downvotes
    }

    /**
     * `handleVote`. Voting in the direction already held removes the vote;
     * otherwise the vote is sent. Server counts and the new vote are
     * adopted only from a response with data.
     */
    method HandleVote(authenticated: bool, voteType: VoteType, outcome: Outcome) returns (sent: Request)
      modifies this
      ensures !authenticated ==> sent == NoRequest
      ensures authenticated && old(userVote) == Some(VoteTypeName(voteType)) ==> sent == RemoveVote
      ensures authenticated && old(userVote) != Some(VoteTypeName(voteType)) ==> sent == SendVote(voteType)
      ensures authenticated && outcome.Data? ==>
        && upvotes == outcome.upvotes && downvotes == outcome.downvotes
        && NetVotes() == outcome.upvotes - outcome.downvotes
        && (sent == RemoveVote ==> userVote.None?)
        && (sent == SendVote(voteType) ==> userVote == Some(VoteTypeName(voteType)))
      ensures !authenticated || !outcome.Data? ==>
        userVote == old(userVote) && upvotes == old(upvotes) && downvotes == old(downvotes)
      ensures isBookmarked == old(isBookmarked)
    {
      if !authenticated {
        return NoRequest;
      }
      if userVote == Some(VoteTypeName(voteType)) {
        sent := RemoveVote;
        if outcome.Data? {
          upvotes := outcome.upvotes;
          downvotes := outcome.downvotes;
          userVote := None;
        }
      } else {
        sent := SendVote(voteType);
        if outcome.Data? {
          upvotes := outcome.upvotes;
          downvotes := outcome.downvotes;
          userVote := Some(VoteTypeName(voteType));
        }
      }
    }

    /**
     * `handleBookmark`: delete when bookmarked, else create; the flag flips
     * only when the call succeeds.
     */
    method HandleBookmark(authenticated: bool, succeeded: bool) returns (sent: Request)
      modifies this
      ensures !authenticated ==> sent == NoRequest
      ensures authenticated ==> sent == if old(isBookmarked) then DeleteBookmark else CreateBookmark
      ensures authenticated && succeeded ==> isBookmarked == !old(isBookmarked)
      ensures !authenticated || !succeeded ==> isBookmarked == old(isBookmarked)
      ensures userVote == old(userVote) && upvotes == old(upvotes) && downvotes == old(downvotes)
    {
      if !authenticated {
        return NoRequest;
      }
      if isBookmarked {
        sent := DeleteBookmark;
        if succeeded {
          isBookmarked := false;
        }
      } else {
        sent := CreateBookmark;
        if succeeded {
          isBookmarked := true;
        }
      }
    }
  }

  /**
   * Clicking the same arrow twice with successful calls first votes and
   * then removes the vote, ending with no vote.
   */
  method VoteThenUnvote(card: CardState, voteType: VoteType, first: (int, int), second: (int, int))
    requires card.userVote.None?
    modifies card
    ensures card.userVote.None?
    ensures card.upvotes == second.0 && card.downvotes == second.1
  {
    var sent1 := card.HandleVote(true, voteType, Data(first.0, first.1));
    assert sent1 == SendVote(voteType);
    var sent2 := card.HandleVote(true, voteType, Data(second.0, second.1));
    assert sent2 == RemoveVote;
  }

  /** The bucket of `formatDate`. */
  datatype DateLabel = UnknownDate | Today | Yesterday | DaysAgo(days: int) | WeeksAgo(weeks: int) | CalendarDate

  /**
   * `formatDate` (lines 20-31). `date` is the date string; `diffDays` is
   * `Math.floor((now - date) / day)` from the clock, None when the string
   * is not a valid date (NaN, which fails every comparison).
   */
  function FormatDate(date: Option<string>, diffDays: Option<int>): (r: DateLabel)
    ensures date.None? || date == Some("") <==> r == UnknownDate
    ensures r == Today <==> date.Some? && date.value != "" && diffDays == Some(0)
    ensures r == Yesterday <==> date.Some? && date.value != "" && diffDays == Some(1)
    ensures r.DaysAgo? ==> diffDays == Some(r.days) && r.days < 7 && r.days != 0 && r.days != 1
    ensures r.WeeksAgo? ==>
      && diffDays.Some? && 7 <= diffDays.value < 30 && 1 <= r.weeks <= 4
      && r.weeks * 7 <= diffDays.value < (r.weeks + 1) * 7
    ensures r == CalendarDate <==> date.Some? && date.value != "" && (diffDays.None? || diffDays.value >= 30)
  {
    if date.None? || date.value == "" then UnknownDate
    else if diffDays.None? then CalendarDate
    else
      var d := diffDays.value;
      if d == 0 then Today
      else if d == 1 then Yesterday
      else if d < 7 then DaysAgo(d)
      else if d < 30 then WeeksAgo(d / 7)
      else CalendarDate
  }

  /** The text shown; a calendar date is locale formatting, left as None. */
  function LabelText(l: DateLabel): (r: Option<string>)
    ensures r.None? <==> l == CalendarDate
  {
    match l
    case UnknownDate => Some("Unknown date")
    case Today => Some("Today")
    case Yesterday => Some("Yesterday")
    case DaysAgo(n) => Some(IntToString(n) + " days ago")
    case WeeksAgo(n) => Some(IntToString(n) + " weeks ago")
    case CalendarDate => None
  }

  /**
   * A date in the future gets a negative day count, which falls in the
   * "days ago" bucket and reads with a minus sign, e.g. "-3 days ago".
   */
  lemma FutureDateLabel(date: string, n: int)
    requires date != "" && n < 0
    ensures FormatDate(Some(date), Some(n)) == DaysAgo(n)
    ensures LabelText(DaysAgo(n)) == Some("-" + NatToString(-n) + " days ago")
  {
  }
}
