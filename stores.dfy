/**
 * The client state containers of frontend/src/stores/index.ts: the filter
 * store, the auth store and the theme store, each a class whose methods
 * are the store's actions. Browser storage (`localStorage`'s
 * `access_token`) and the document's `data-theme` attribute are fields of
 * the store that writes them.
 */
module Stores {
  import opened Common

  /** `list.filter((t) => t !== x)`. */
  function Without(list: seq<string>, x: string): (r: seq<string>)
    ensures x !in r
    ensures forall y :: y in r <==> y in list && y != x
    ensures |r| <= |list|
    ensures x !in list ==> r == list
  {
    if |list| == 0 then []
    else (if list[0] == x then [] else [list[0]]) + Without(list[1..], x)
  }

  /** Filtering keeps the order of what remains: it distributes over concatenation. */
  lemma {:induction false} WithoutConcat(a: seq<string>, b: seq<string>, x: string)
    ensures Without(a + b, x) == Without(a, x) + Without(b, x)
  {
    if |a| > 0 {
      assert (a + b)[1..] == a[1..] + b;
      WithoutConcat(a[1..], b, x);
    } else {
      assert a + b == b;
    }
  }

  predicate NoDup(list: seq<string>) {
    forall i, j :: 0 <= i < j < |list| ==> list[i] != list[j]
  }

  lemma {:induction false} WithoutNoDup(list: seq<string>, x: string)
    requires NoDup(list)
    ensures NoDup(Without(list, x))
  {
    if |list| > 0 {
      assert NoDup(list[1..]);
      WithoutNoDup(list[1..], x);
      assert list[0] !in list[1..];
    }
  }

  /** `toggleTag`'s new list (lines 157-160). */
  function Toggled(list: seq<string>, slug: string): (r: seq<string>)
    ensures slug in r <==> slug !in list
    ensures forall t :: t != slug ==> (t in r <==> t in list)
    ensures slug in list ==> r == Without(list, slug)
    ensures slug !in list ==> r == list + [slug]
  {
    if slug in list then Without(list, slug) else list + [slug]
  }

  /** A list without duplicates stays without duplicates. */
  lemma ToggleKeepsNoDup(list: seq<string>, slug: string)
    requires NoDup(list)
    ensures NoDup(Toggled(list, slug))
  {
    if slug in list {
      WithoutNoDup(list, slug);
    }
  }

  /** Toggling an absent slug twice restores the list exactly. */
  lemma ToggleTwiceAbsent(list: seq<string>, slug: string)
    requires slug !in list
    ensures Toggled(Toggled(list, slug), slug) == list
  {
    WithoutConcat(list, [slug], slug);
    assert Without([slug], slug) == [];
  }

  /**
   * Toggling a present slug twice keeps the same slugs but moves it to the
   * end, after the others in their old order.
   */
  lemma ToggleTwicePresent(list: seq<string>, slug: string)
    requires slug in list
    ensures Toggled(Toggled(list, slug), slug) == Without(list, slug) + [slug]
    ensures forall t :: t in Toggled(Toggled(list, slug), slug) <==> t in list
  {
  }

  /** `useFilterStore`. */
  class FilterStore {
    var selectedTags: seq<string>
    var searchQuery: string
    var sortBy: SortOption

    predicate Cleared()
      reads this
    {
      selectedTags == [] && searchQuery == "" && sortBy == Newest
    }

    constructor()
      ensures Cleared()
    {
      selectedTags := [];
      searchQuery := "";
      sortBy := Newest;
    }

    method ToggleTag(slug: string)
      modifies this
      ensures selectedTags == Toggled(old(selectedTags), slug)
      ensures searchQuery == old(searchQuery) && sortBy == old(sortBy)
    {
      selectedTags := if slug in selectedTags then Without(selectedTags, slug) else selectedTags + [slug];
    }

    method SetSearchQuery(query: string)
      modifies this
      ensures searchQuery == query
      ensures selectedTags == old(selectedTags) && sortBy == old(sortBy)
    {
      searchQuery := query;
    }

    method SetSortBy(sort: SortOption)
      modifies this
      ensures sortBy == sort
      ensures selectedTags == old(selectedTags) && searchQuery == old(searchQuery)
    {
      sortBy := sort;
    }

    /** From any state, and so idempotent. */
    method ClearFilters()
      modifies this
      ensures Cleared()
    {
      selectedTags := [];
      searchQuery := "";
      sortBy := Newest;
    }
  }

  /** `AuthUser`: the user of a session; the metadata is not modelled. */
  datatype AuthUser = AuthUser(id: string, email: Option<string>)

  /** A Supabase session: its user, if any, and its access token. */
  datatype Session = Session(user: Option<AuthUser>, accessToken: string)

  /** What `supabase.auth.getSession()` gives: a session or none, or it throws. */
  datatype SessionLookup = Found(session: Option<Session>) | Threw

  /** `useAuthStore`. */
  class AuthStore {
    var user: Option<AuthUser>
    var profile: Option<UserProfile>
    var isLoading: bool
    var isAuthenticated: bool
    /** `localStorage.getItem('access_token')`. */
    var storedToken: Option<string>

    predicate Valid()
      reads this
    {
      isAuthenticated == user.Some?
    }

    constructor(storedToken: Option<string>)
      ensures Valid()
      ensures user.None? && profile.None? && isLoading && !isAuthenticated
      ensures this.storedToken == storedToken
    {
      user := None;
      profile := None;
      isLoading := true;
      isAuthenticated := false;
      this.storedToken := storedToken;
    }

    method SetUser(u: Option<AuthUser>)
      modifies this
      ensures Valid()
      ensures user == u
      ensures profile == old(profile) && isLoading == old(isLoading) && storedToken == old(storedToken)
    {
      user := u;
      isAuthenticated := u.Some?;
    }

    method SetProfile(p: Option<UserProfile>)
      requires Valid()
      modifies this
      ensures Valid()
      ensures profile == p
      ensures user == old(user) && isAuthenticated == old(isAuthenticated)
      ensures isLoading == old(isLoading) && storedToken == old(storedToken)
    {
      profile := p;
    }

    /**
     * `signOut`: `remoteOk` is false when `supabase.auth.signOut()`
     * rejects; the rejection propagates before anything is cleared.
     */
    method SignOut(remoteOk: bool) returns (threw: bool)
      requires Valid()
      modifies this
      ensures Valid()
      ensures threw <==> !remoteOk
      ensures threw ==>
        user == old(user) && profile == old(profile) && isAuthenticated == old(isAuthenticated) && storedToken == old(storedToken)
      ensures !threw ==> user.None? && profile.None? && !isAuthenticated && storedToken.None?
      ensures isLoading == old(isLoading)
    {
      if !remoteOk {
        return true;
      }
      storedToken := None;
      user := None;
      profile := None;
      isAuthenticated := false;
      threw := false;
    }

    /** Lines 60-78: adopt the session's user if there is one; loading always ends. */
    method Initialize(lookup: SessionLookup)
      requires Valid()
      modifies this
      ensures Valid()
      ensures !isLoading
      ensures lookup.Found? && lookup.session.Some? && lookup.session.value.user.Some? ==>
        && user == lookup.session.value.user
        && storedToken == Some(lookup.session.value.accessToken)
      ensures !(lookup.Found? && lookup.session.Some? && lookup.session.value.user.Some?) ==>
        user == old(user) && storedToken == old(storedToken)
      ensures profile == old(profile)
    {
      if lookup.Found? && lookup.session.Some? && lookup.session.value.user.Some? {
        var session := lookup.session.value;
        storedToken := Some(session.accessToken);
        user := session.user;
        isAuthenticated := true;
      }
      isLoading := false;
    }

    /** The `onAuthStateChange` listener of lines 81-96. */
    method OnAuthStateChange(session: Option<Session>)
      requires Valid()
      modifies this
      ensures Valid()
      ensures session.Some? && session.value.user.Some? ==>
        user == session.value.user && storedToken == Some(session.value.accessToken) && profile == old(profile)
      ensures !(session.Some? && session.value.user.Some?) ==>
        user.None? && profile.None? && storedToken.None?
      ensures isLoading == old(isLoading)
    {
      if session.Some? && session.value.user.Some? {
        storedToken := Some(session.value.accessToken);
        user := session.value.user;
        isAuthenticated := true;
      } else {
        storedToken := None;
        user := None;
        profile := None;
        isAuthenticated := false;
      }
    }
  }

  datatype Theme = Light | Dark

  /** `get().theme === 'light' ? 'dark' : 'light'`. */
  function Flipped(t: Theme): (r: Theme)
    ensures r != t
  {
    if t == Light then Dark else Light
  }

  /** Toggling twice restores the theme. */
  lemma FlipTwice(t: Theme)
    ensures Flipped(Flipped(t)) == t
  {
  }

  /** `useThemeStore`; `dataTheme` is the document's `data-theme` attribute. */
  class ThemeStore {
    var theme: Theme
    var dataTheme: Option<Theme>

    constructor()
      ensures theme == Light && dataTheme.None?
    {
      theme := Light;
      dataTheme := None;
    }

    method ToggleTheme()
      modifies this
      ensures theme == Flipped(old(theme)) && dataTheme == Some(theme)
    {
      var newTheme := if theme == Light then Dark else Light;
      dataTheme := Some(newTheme);
      theme := newTheme;
    }

    method SetTheme(t: Theme)
      modifies this
      ensures theme == t && dataTheme == Some(t)
    {
      dataTheme := Some(t);
      theme := t;
    }
  }
}
