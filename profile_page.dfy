/**
 * The profile page of frontend/src/pages/ProfilePage.tsx: the edit-form
 * draft, the save payload, interest selection, the login redirect and the
 * hours shown for the reading time.
 */
module ProfilePage {
  import opened Common
  import Stores
  import Profile

  /** Line 45-48: where an unauthenticated visitor is sent; nothing is rendered. */
  function Redirect(isAuthenticated: bool): (r: Option<string>)
    ensures r.None? <==> isAuthenticated
    ensures r.Some? ==> r.value == "/login"
  {
    if !isAuthenticated then Some("/login") else None
  }

  /** `Math.round(x)`: the nearest integer, halves rounded up. */
  function Round(x: real): int {
    (x + 0.5).Floor
  }

  /** Line 248: `Math.round(minutes / 60)`, the whole number of hours nearest to the minutes. */
  function Hours(minutes: int): (h: int)
    ensures (h * 60 - 30) as real <= minutes as real < (h * 60 + 30) as real
  {
    Round(minutes as real / 60.0)
  }

  /** The hours are the integer division `(m + 30) div 60`. */
  lemma HoursIsIntegerDivision(m: int)
    ensures Hours(m) == (m + 30) / 60
  {
    var q := (m + 30) / 60;
    var r := (m + 30) % 60;
    assert m + 30 == 60 * q + r && 0 <= r < 60;
    assert m as real / 60.0 + 0.5 == q as real + r as real / 60.0;
  }

  /** Line 213: the bio the page shows for a confirmed profile, `profile?.bio || 'No bio yet'`. */
  function ShownBio(p: UserProfile): (r: string)
    ensures p.bio.Some? && p.bio.value != "" ==> r == p.bio.value
    ensures p.bio.None? || p.bio.value == "" ==> r == NoBio
  {
    if p.bio.Some? && p.bio.value != "" then p.bio.value else NoBio
  }

  const NoBio := "No bio yet"

  class ProfileForm {
    var isEditing: bool
    var username: string
    var bio: string
    var interests: seq<string>

    constructor()
      ensures !isEditing && username == "" && bio == "" && interests == []
    {
      isEditing := false;
      username := "";
      bio := "";
      interests := [];
    }

    /** `handleEdit` (lines 50-57): seed the draft from the profile, with '' and [] defaults. */
    method HandleEdit(profile: Option<UserProfile>)
      modifies this
      ensures isEditing
      ensures username == (if profile.Some? then profile.value.username else "")
      ensures bio == (if profile.Some? && profile.value.bio.Some? then profile.value.bio.value else "")
      ensures interests == (if profile.Some? && profile.value.interests.Some? then profile.value.interests.value else [])
    {
      username := if profile.Some? && profile.value.username != "" then profile.value.username else "";
      bio := if profile.Some? && profile.value.bio.Some? && profile.value.bio.value != "" then profile.value.bio.value else "";
      interests := if profile.Some? && profile.value.interests.Some? then profile.value.interests.value else [];
      isEditing := true;
    }

    /**
     * `handleSave` (lines 59-65): the payload of the update request;
     * an empty bio is sent as null.
     */
    method HandleSave() returns (payload: Profile.UpdateProfileRequest)
      ensures payload.username == Some(username) && payload.interests == Some(interests)
      ensures payload.avatarUrl.None?
      ensures payload.bio == if bio == "" then None else Some(bio)
    {
      payload := Profile.UpdateProfileRequest(Some(username), if bio != "" then Some(bio) else None, None, Some(interests));
    }

    /** `onSuccess` of the update mutation. */
    method OnSaveSuccess()
      modifies this
      ensures !isEditing
      ensures username == old(username) && bio == old(bio) && interests == old(interests)
    {
      isEditing := false;
    }

    /** The cancel button (line 163): leave edit mode; nothing is sent. */
    method Cancel()
      modifies this
      ensures !isEditing
      ensures username == old(username) && bio == old(bio) && interests == old(interests)
    {
      isEditing := false;
    }

    /** `toggleInterest` (lines 67-74). */
    method ToggleInterest(slug: string)
      modifies this
      ensures interests == Stores.Toggled(old(interests), slug)
      ensures username == old(username) && bio == old(bio) && isEditing == old(isEditing)
    {
      interests := if slug in interests then Stores.Without(interests, slug) else interests + [slug];
    }

    /** A click on an interest tag (line 282): ignored unless editing; `profile` is the confirmed profile the tag reads when not editing. */
    method ClickInterest(slug: string, ghost profile: Option<UserProfile>)
      modifies this
      ensures old(isEditing) ==> interests == Stores.Toggled(old(interests), slug)
      ensures !old(isEditing) ==> interests == old(interests)
      ensures username == old(username) && bio == old(bio) && isEditing == old(isEditing)
      ensures old(isEditing) ==> (IsSelected(slug, profile) <==> !old(IsSelected(slug, profile)))
      ensures !old(isEditing) ==> (IsSelected(slug, profile) <==> old(IsSelected(slug, profile)))
    {
      if isEditing {
        ToggleInterest(slug);
      }
    }

    /** Lines 275-277: selection comes from the draft while editing, else from the confirmed profile. */
    predicate IsSelected(slug: string, profile: Option<UserProfile>)
      reads this
    {
      if isEditing then slug in interests
      else profile.Some? && profile.value.interests.Some? && slug in profile.value.interests.value
    }
  }

  /**
   * The payload as written: clearing the bio sends `bio: null`, which the
   * server's `*string` field reads as absent, so the stored bio is kept.
   */
  lemma ClearedBioIsKept(p: UserProfile, username: string, interests: seq<string>)
    ensures var q := Profile.Applied(p, Profile.UpdateProfileRequest(Some(username), None, None, Some(interests)));
      && q.bio == p.bio && ShownBio(q) == ShownBio(p)
      && q.username == username && q.interests == Some(interests)
  {
  }

  /** The payload that lets a cleared bio reach the server: the draft bio as typed. */
  function CorrectedSavePayload(username: string, bio: string, interests: seq<string>): (payload: Profile.UpdateProfileRequest)
    ensures payload.username == Some(username) && payload.interests == Some(interests)
    ensures payload.bio == Some(bio)
  {
    Profile.UpdateProfileRequest(Some(username), Some(bio), None, Some(interests))
  }

  /** With the corrected payload the saved profile shows exactly the draft. */
  lemma CorrectedSaveShowsDraft(p: UserProfile, username: string, bio: string, interests: seq<string>)
    ensures var q := Profile.Applied(p, CorrectedSavePayload(username, bio, interests));
      && q.bio == Some(bio) && ShownBio(q) == (if bio == "" then NoBio else bio)
      && q.username == username && q.interests == Some(interests)
  {
  }
}
