/**
 * The profile handlers of backend/internal/handlers/profile.go: the 401
 * guards, `UpdateProfile`'s dynamic `UPDATE ... SET` builder and its error
 * cases, and the reading-streak loop of `GetReadingStats`. The profiles
 * table is a map from user id to profile.
 */
module Profile {
  import opened Common
  import opened Text

  datatype UpdateProfileRequest = UpdateProfileRequest(
    username: Option<string>, bio: Option<string>, avatarUrl: Option<string>, interests: Option<seq<string>>)

  /** An argument of the UPDATE statement. */
  datatype Arg = Str(s: string) | Strings(ss: seq<string>) | Id(id: Uuid)

  /** A reply carrying the profile on success. */
  datatype ProfileReply = ProfileReply(status: int, error: string, profile: Option<UserProfile>)

  /** The columns a request sets, in the handler's fixed order, with their values. */
  function PresentFields(req: UpdateProfileRequest): (r: seq<(string, Arg)>)
    ensures |r| <= 4
    ensures |r| == 0 <==> req.username.None? && req.bio.None? && req.avatarUrl.None? && req.interests.None?
  {
    (if req.username.Some? then [("username", Str(req.username.value))] else [])
    + (if req.bio.Some? then [("bio", Str(req.bio.value))] else [])
    + (if req.avatarUrl.Some? then [("avatar_url", Str(req.avatarUrl.value))] else [])
    + (if req.interests.Some? then [("interests", Strings(req.interests.value))] else [])
  }

  /** `string(rune('0' + argIndex))`: one character, right only for a single digit. */
  function DigitRune(argIndex: int): string
    requires 0 <= argIndex < 10
  {
    [('0' as int + argIndex) as char]
  }

  /** The SET clauses so far and the next placeholder number. */
  datatype Builder = Builder(updates: seq<string>, args: seq<Arg>, argIndex: int)

  /** One `if req.X != nil` block of lines 92-111. */
  function AddField(b: Builder, column: string, value: Arg): (r: Builder)
    requires 1 <= b.argIndex < 10
  {
    Builder(b.updates + [column + " = $" + DigitRune(b.argIndex)], b.args + [value], b.argIndex + 1)
  }

  /**
   * Lines 87-129: the SET clauses for the present fields, in order, take
   * `$1..$n`; `updated_at = NOW()` follows; the WHERE placeholder is
   * `$(n+1)` and the user id is the last of the n+1 arguments. With no
   * field present there is nothing to write (None: 400 "No fields to update").
   */
  method BuildUpdate(req: UpdateProfileRequest, userId: Uuid) returns (r: Option<(string, seq<Arg>)>)
    ensures var fs := PresentFields(req);
      r.None? <==> |fs| == 0
    ensures var fs := PresentFields(req); var n := |fs|;
      r.Some? ==>
        && |r.value.1| == n + 1
        && (forall k :: 0 <= k < n ==> r.value.1[k] == fs[k].1)
        && r.value.1[n] == Id(userId)
        && r.value.0 == "UPDATE user_profiles SET "
             + JoinWith(seq(n, k requires 0 <= k < n => fs[k].0 + " = $" + NatToString(k + 1)) + ["updated_at = NOW()"], ", ")
             + " WHERE id = $" + NatToString(n + 1)
  {
    var b := Builder([], [], 1);
    if req.username.Some? { b := AddField(b, "username", Str(req.username.value)); }
    if req.bio.Some? { b := AddField(b, "bio", Str(req.bio.value)); }
    if req.avatarUrl.Some? { b := AddField(b, "avatar_url", Str(req.avatarUrl.value)); }
    if req.interests.Some? { b := AddField(b, "interests", Strings(req.interests.value)); }
    assert b == Build(req);
    BuilderMatches(req);
    if |b.updates| == 0 {
      return None;
    }
    var updates := b.updates + ["updated_at = NOW()"];
    var args := b.args + [Id(userId)];
    var sets := JoinClauses(updates);
    DigitIsDecimal(b.argIndex);
    var query := "UPDATE user_profiles SET " + sets + " WHERE id = $" + DigitRune(b.argIndex);
    r := Some((query, args));
  }

  /** Lines 120-126: the clauses separated by ", ". */
  method JoinClauses(updates: seq<string>) returns (q: string)
    requires |updates| >= 1
    ensures q == JoinWith(updates, ", ")
  {
    q := "";
    for i := 0 to |updates|
      invariant i == 0 ==> q == ""
      invariant i > 0 ==> q == JoinWith(updates[..i], ", ")
    {
      if i > 0 {
        q := q + ", ";
        JoinSnoc(updates[..i], ", ", updates[i]);
        assert updates[..i + 1] == updates[..i] + [updates[i]];
      } else {
        assert updates[..1] == [updates[0]];
      }
      q := q + updates[i];
    }
    assert updates[..|updates|] == updates;
  }

  /** The four `if` blocks build exactly the numbered clauses of the present fields. */
  lemma BuilderMatches(req: UpdateProfileRequest)
    ensures var fs := PresentFields(req); var n := |fs|;
      var b := Build(req);
      && b.argIndex == n + 1
      && b.updates == seq(n, k requires 0 <= k < n => fs[k].0 + " = $" + NatToString(k + 1))
      && b.args == seq(n, k requires 0 <= k < n => fs[k].1)
  {
    var b0 := Builder([], [], 1);
    var b1 := if req.username.Some? then AddField(b0, "username", Str(req.username.value)) else b0;
    var b2 := if req.bio.Some? then AddField(b1, "bio", Str(req.bio.value)) else b1;
    var b3 := if req.avatarUrl.Some? then AddField(b2, "avatar_url", Str(req.avatarUrl.value)) else b2;
    var f1 := if req.username.Some? then [("username", Str(req.username.value))] else [];
    var f2 := f1 + (if req.bio.Some? then [("bio", Str(req.bio.value))] else []);
    var f3 := f2 + (if req.avatarUrl.Some? then [("avatar_url", Str(req.avatarUrl.value))] else []);
    AddMatches(b0, [], f1);
    AddMatches(b1, f1, f2);
    AddMatches(b2, f2, f3);
    AddMatches(b3, f3, PresentFields(req));
  }

  /** The builder of `BuildUpdate`, as a value. */
  function Build(req: UpdateProfileRequest): Builder {
    var b0 := Builder([], [], 1);
    var b1 := if req.username.Some? then AddField(b0, "username", Str(req.username.value)) else b0;
    var b2 := if req.bio.Some? then AddField(b1, "bio", Str(req.bio.value)) else b1;
    var b3 := if req.avatarUrl.Some? then AddField(b2, "avatar_url", Str(req.avatarUrl.value)) else b2;
    if req.interests.Some? then AddField(b3, "interests", Strings(req.interests.value)) else b3
  }

  predicate Matches(b: Builder, fs: seq<(string, Arg)>) {
    && b.argIndex == |fs| + 1
    && b.updates == seq(|fs|, k requires 0 <= k < |fs| => fs[k].0 + " = $" + NatToString(k + 1))
    && b.args == seq(|fs|, k requires 0 <= k < |fs| => fs[k].1)
  }

  lemma AddMatches(b: Builder, fs: seq<(string, Arg)>, fs': seq<(string, Arg)>)
    requires Matches(b, fs) && |fs| <= 3
    requires |fs'| == |fs| || (|fs'| == |fs| + 1 && fs'[..|fs|] == fs)
    ensures |fs'| == |fs| ==> Matches(b, fs)
    ensures |fs'| == |fs| + 1 ==> Matches(AddField(b, fs'[|fs|].0, fs'[|fs|].1), fs')
  {
    if |fs'| == |fs| + 1 {
      DigitIsDecimal(b.argIndex);
    }
  }

  /** The value a column holds in a profile row; None is SQL NULL. */
  function ColumnValue(p: UserProfile, column: string): Option<Arg> {
    match column
    case "username" => Some(Str(p.username))
    case "bio" => if p.bio.Some? then Some(Str(p.bio.value)) else None
    case "avatar_url" => if p.avatarUrl.Some? then Some(Str(p.avatarUrl.value)) else None
    case "interests" => if p.interests.Some? then Some(Strings(p.interests.value)) else None
    case _ => None
  }

  /** The row after the UPDATE: each present field takes the request's value. */
  function Applied(p: UserProfile, req: UpdateProfileRequest): (r: UserProfile)
    ensures r.id == p.id
  {
    p.(username := req.username.GetOr(p.username),
       bio := if req.bio.Some? then req.bio else p.bio,
       avatarUrl := if req.avatarUrl.Some? then req.avatarUrl else p.avatarUrl,
       interests := if req.interests.Some? then req.interests else p.interests)
  }

  /**
   * The statement `BuildUpdate` emits does what `Applied` says: every
   * column it names now holds the bound argument, and every other column
   * keeps its value.
   */
  lemma AppliedMatchesStatement(p: UserProfile, req: UpdateProfileRequest)
    ensures var fs := PresentFields(req);
      forall k :: 0 <= k < |fs| ==> ColumnValue(Applied(p, req), fs[k].0) == Some(fs[k].1)
    ensures var fs := PresentFields(req);
      forall column :: (forall k :: 0 <= k < |fs| ==> fs[k].0 != column) ==>
        ColumnValue(Applied(p, req), column) == ColumnValue(p, column)
  {
    var fs := PresentFields(req);
    forall column | forall k :: 0 <= k < |fs| ==> fs[k].0 != column
      ensures ColumnValue(Applied(p, req), column) == ColumnValue(p, column)
    {
      assert req.username.Some? ==> column != "username" by {
        if req.username.Some? { assert fs[0].0 == "username"; }
      }
      NamedColumn(req, column, "bio");
      NamedColumn(req, column, "avatar_url");
      NamedColumn(req, column, "interests");
    }
  }

  /** A column a present field sets appears among the names of `PresentFields`. */
  lemma NamedColumn(req: UpdateProfileRequest, column: string, name: string)
    requires name == "bio" || name == "avatar_url" || name == "interests"
    requires var fs := PresentFields(req); forall k :: 0 <= k < |fs| ==> fs[k].0 != column
    ensures name == "bio" && req.bio.Some? ==> column != name
    ensures name == "avatar_url" && req.avatarUrl.Some? ==> column != name
    ensures name == "interests" && req.interests.Some? ==> column != name
  {
    var fs := PresentFields(req);
    var u: seq<(string, Arg)> := if req.username.Some? then [("username", Str(req.username.value))] else [];
    var b: seq<(string, Arg)> := if req.bio.Some? then [("bio", Str(req.bio.value))] else [];
    var a: seq<(string, Arg)> := if req.avatarUrl.Some? then [("avatar_url", Str(req.avatarUrl.value))] else [];
    var i: seq<(string, Arg)> := if req.interests.Some? then [("interests", Strings(req.interests.value))] else [];
    assert fs == u + b + a + i;
    if name == "bio" && req.bio.Some? { assert fs[|u|].0 == "bio"; }
    if name == "avatar_url" && req.avatarUrl.Some? { assert fs[|u| + |b|].0 == "avatar_url"; }
    if name == "interests" && req.interests.Some? { assert fs[|u| + |b| + |a|].0 == "interests"; }
  }

  /** Repeating an update changes nothing more. */
  lemma AppliedIdempotent(p: UserProfile, req: UpdateProfileRequest)
    ensures Applied(Applied(p, req), req) == Applied(p, req)
  {
  }

  /** The `user_profiles` table. */
  class ProfileTable {
    var profiles: map<Uuid, UserProfile>

    constructor(profiles: map<Uuid, UserProfile>)
      ensures this.profiles == profiles
    {
      this.profiles := profiles;
    }

    /** `GetProfile`: 401 without a user, 404 without a row, else the row. */
    function GetProfile(userId: Option<Uuid>): (r: ProfileReply)
      reads this
      ensures userId.None? ==> r == ProfileReply(StatusUnauthorized, "Unauthorized", None)
      ensures userId.Some? && userId.value !in profiles ==> r == ProfileReply(StatusNotFound, "Profile not found", None)
      ensures r.status == StatusOK <==> userId.Some? && userId.value in profiles
      ensures r.status == StatusOK ==> r.profile == Some(profiles[userId.value])
    {
      if userId.None? then ProfileReply(StatusUnauthorized, "Unauthorized", None)
      else if userId.value !in profiles then ProfileReply(StatusNotFound, "Profile not found", None)
      else ProfileReply(StatusOK, "", Some(profiles[userId.value]))
    }

    /**
     * `UpdateProfile`. `body` is None when the body does not parse and
     * `execOk` is false when the database refuses the statement; a missing
     * row is zero rows affected.
     */
    method UpdateProfile(userId: Option<Uuid>, body: Option<UpdateProfileRequest>, execOk: bool) returns (r: ProfileReply)
      modifies this
      ensures userId.None? ==> r == ProfileReply(StatusUnauthorized, "Unauthorized", None)
      ensures userId.Some? && body.None? ==> r == ProfileReply(StatusBadRequest, "Invalid request body", None)
      ensures userId.Some? && body.Some? && PresentFields(body.value) == [] ==>
        r == ProfileReply(StatusBadRequest, "No fields to update", None)
      ensures userId.Some? && body.Some? && PresentFields(body.value) != [] && !execOk ==>
        r == ProfileReply(StatusInternalServerError, "Failed to update profile", None)
      ensures userId.Some? && body.Some? && PresentFields(body.value) != [] && execOk && userId.value !in old(profiles) ==>
        r == ProfileReply(StatusNotFound, "Profile not found", None)
      ensures r.status == StatusOK <==>
        userId.Some? && body.Some? && PresentFields(body.value) != [] && execOk && userId.value in old(profiles)
      ensures r.status == StatusOK ==>
        && profiles == old(profiles)[userId.value := Applied(old(profiles)[userId.value], body.value)]
        && r.profile == Some(profiles[userId.value])
      ensures r.status != StatusOK ==> profiles == old(profiles)
    {
      if userId.None? {
        return ProfileReply(StatusUnauthorized, "Unauthorized", None);
      }
      if body.None? {
        return ProfileReply(StatusBadRequest, "Invalid request body", None);
      }
      var statement := BuildUpdate(body.value, userId.value);
      if statement.None? {
        return ProfileReply(StatusBadRequest, "No fields to update", None);
      }
      if !execOk {
        return ProfileReply(StatusInternalServerError, "Failed to update profile", None);
      }
      var id := userId.value;
      if id !in profiles {
        return ProfileReply(StatusNotFound, "Profile not found", None);
      }
      profiles := profiles[id := Applied(profiles[id], body.value)];
      r := GetProfile(userId);
    }
  }

  /**
   * Lines 212-222: walk the dates (latest first) while each is `today - i`
   * days; dates are day numbers.
   */
  method CurrentStreak(dates: seq<int>, today: int) returns (streak: nat)
    ensures streak <= |dates|
    ensures forall i :: 0 <= i < streak ==> dates[i] == today - i
    ensures streak < |dates| ==> dates[streak] != today - streak
  {
    streak := 0;
    var i := 0;
    while i < |dates|
      invariant 0 <= i <= |dates| && streak == i
      invariant forall j :: 0 <= j < i ==> dates[j] == today - j
    {
      if dates[i] == today - i {
        streak := streak + 1;
      } else {
        break;
      }
      i := i + 1;
    }
  }

  /** The streak is 0 whenever the latest date is not today. */
  lemma StreakNeedsToday(dates: seq<int>, today: int, streak: nat)
    requires streak <= |dates|
    requires forall i :: 0 <= i < streak ==> dates[i] == today - i
    requires streak < |dates| ==> dates[streak] != today - streak
    requires |dates| > 0 && dates[0] != today
    ensures streak == 0
  {
  }

  /**
   * For distinct dates sorted latest first, none later than today, the
   * streak counts exactly the dates within the last `streak` days: no other
   * date of the list falls in that window.
   */
  lemma {:induction false} StreakWindow(dates: seq<int>, today: int, streak: nat)
    requires forall i, j :: 0 <= i < j < |dates| ==> dates[i] > dates[j]
    requires streak <= |dates|
    requires forall i :: 0 <= i < streak ==> dates[i] == today - i
    requires |dates| > 0 ==> dates[0] <= today
    ensures forall j :: streak <= j < |dates| ==> dates[j] <= today - streak
  {
    forall j | streak <= j < |dates|
      ensures dates[j] <= today - streak
    {
      if streak > 0 {
        assert dates[streak - 1] == today - (streak - 1);
        assert dates[streak - 1] > dates[j];
      } else if j > 0 {
        assert dates[0] > dates[j];
      }
    }
  }

  datatype Stats = Stats(
    totalArticlesRead: int, totalReadingTime: int, currentStreak: int, longestStreak: int,
    totalBookmarks: int, totalVotes: int)

  datatype StatsReply = Unauthorized | StatsOk(stats: Stats)

  /**
   * `GetReadingStats`: the four counts are read as given (a failed query
   * leaves 0); `dates` is None when the dates query fails.
   */
  method GetReadingStats(userId: Option<Uuid>, read: int, minutes: int, bookmarks: int, votes: int,
                         dates: Option<seq<int>>, today: int) returns (r: StatsReply)
    ensures userId.None? <==> r == Unauthorized
    ensures r.StatsOk? ==> r.stats.longestStreak == r.stats.currentStreak
    ensures r.StatsOk? ==>
      && r.stats.totalArticlesRead == read && r.stats.totalReadingTime == minutes
      && r.stats.totalBookmarks == bookmarks && r.stats.totalVotes == votes
    ensures r.StatsOk? && (dates.None? || |dates.value| == 0) ==> r.stats.currentStreak == 0
    ensures r.StatsOk? && dates.Some? ==>
      var d := dates.value; var s := r.stats.currentStreak;
      && 0 <= s <= |d|
      && (forall i :: 0 <= i < s ==> d[i] == today - i)
      && (s < |d| ==> d[s] != today - s)
  {
    if userId.None? {
      return Unauthorized;
    }
    var stats := Stats(read, minutes, 0, 0, bookmarks, votes);
    if dates.Some? && |dates.value| > 0 {
      var streak := CurrentStreak(dates.value, today);
      stats := stats.(currentStreak := streak, longestStreak := streak);
    }
    r := StatsOk(stats);
  }
}
