/** The session binder every page reads: the signed-in user merged with their profile row, and a
    loading flag. It reacts to the auth provider's state changes, to the session found at start-up
    and to the profile looked up for it, and wraps sign-in and sign-out with the loading flag. */
module AuthContext {
  import opened Common
  import opened JsBuiltins

  /** The placeholder avatar of a user without one is this prefix followed by the user's id. */
  const AvatarSeedPrefix := "https://api.dicebear.com/7.x/miniavs/svg?seed="

  /** The user of an auth session. */
  datatype SessionUser = SessionUser(id: string, email: string)

  /** A row of the profile table; name and avatar may be absent. */
  datatype ProfileRow = ProfileRow(username: Option<string>, avatar: Option<string>)

  /** The user the binder publishes: the session user's fields plus a display name and avatar. */
  datatype CurrentUser = CurrentUser(id: string, email: string, username: string, avatar: string)

  /** What a successful sign-in resolves to. */
  datatype SignIn = SignIn(user: SessionUser)

  /** The placeholder avatar of the user `id`. */
  function PlaceholderAvatar(id: string): (r: string)
    ensures |r| == |AvatarSeedPrefix| + |id|
    ensures r[..|AvatarSeedPrefix|] == AvatarSeedPrefix && r[|AvatarSeedPrefix|..] == id
  {
    AvatarSeedPrefix + id
  }

  /** The id can be read back from a placeholder avatar, so two users never share one. */
  lemma PlaceholderAvatarInjective(a: string, b: string)
    requires PlaceholderAvatar(a) == PlaceholderAvatar(b)
    ensures a == b
  {
    assert a == PlaceholderAvatar(a)[|AvatarSeedPrefix|..];
  }

  /** The session user spread into the published user: id and email kept, the profile's name or
      else the email, the profile's avatar or else the placeholder, which is never blank. */
  function MergeUser(u: SessionUser, profile: Option<ProfileRow>): (r: CurrentUser)
    ensures r.id == u.id && r.email == u.email
    ensures profile.Some? && Truthy(profile.value.username) ==> r.username == profile.value.username.value
    ensures !(profile.Some? && Truthy(profile.value.username)) ==> r.username == u.email
    ensures profile.Some? && Truthy(profile.value.avatar) ==> r.avatar == profile.value.avatar.value
    ensures !(profile.Some? && Truthy(profile.value.avatar)) ==> r.avatar == PlaceholderAvatar(u.id)
    ensures r.avatar != ""
  {
    CurrentUser(
      u.id,
      u.email,
      OrElse(if profile.Some? then profile.value.username else None, u.email),
      OrElse(if profile.Some? then profile.value.avatar else None, PlaceholderAvatar(u.id)))
  }

  /** The user published for a session and the outcome of its profile lookup: nobody without a
      session or when the lookup fails, otherwise the session user merged with the profile. */
  function Resolve(session: Option<SessionUser>, lookup: Outcome<Option<ProfileRow>>): (r: Option<CurrentUser>)
    ensures r.Some? <==> session.Some? && lookup.Ok?
    ensures r.Some? ==> r.value.id == session.value.id && r.value.email == session.value.email
    ensures r.Some? ==> r.value == MergeUser(session.value, lookup.value)
  {
    if session.Some? && lookup.Ok? then Some(MergeUser(session.value, lookup.value)) else None
  }

  /** Users whose profiles carry no avatar are told apart by their avatars. */
  lemma PlaceholderAvatarsIdentifyUsers(u: SessionUser, v: SessionUser, pu: Option<ProfileRow>, pv: Option<ProfileRow>)
    requires pu.None? || !Truthy(pu.value.avatar)
    requires pv.None? || !Truthy(pv.value.avatar)
    requires MergeUser(u, pu).avatar == MergeUser(v, pv).avatar
    ensures u.id == v.id
  {
    PlaceholderAvatarInjective(u.id, v.id);
  }

  /** A profile lookup that succeeds with no row (a null profile, no error) still publishes a
      user: the email stands in for the name and the placeholder for the avatar. */
  lemma MissingProfileFallsBack(u: SessionUser)
    ensures Resolve(Some(u), Ok(None)) == Some(CurrentUser(u.id, u.email, u.email, AvatarSeedPrefix + u.id))
  {
  }

  /** The binder's state cells. Remote results are parameters; each callback returns the profile
      lookup it issues, `None` when it issues none. */
  class AuthStore {
    var currentUser: Option<CurrentUser>
    var loading: bool

    constructor ()
      ensures currentUser.None? && loading
    {
      currentUser := None;
      loading := true;
    }

    /** The auth state listener: with a session it looks the profile up by the session user's id
        and publishes the resolved user, without one it publishes nobody; loading ends either
        way. */
    method OnAuthStateChange(session: Option<SessionUser>, lookup: Outcome<Option<ProfileRow>>)
      returns (profileLookup: Option<string>)
      modifies this
      ensures profileLookup == (if session.Some? then Some(session.value.id) else None)
      ensures currentUser == Resolve(session, lookup)
      ensures !loading
    {
      profileLookup := if session.Some? then Some(session.value.id) else None;
      currentUser := Resolve(session, lookup);
      loading := false;
    }

    /** The session found at start-up: loading ends at once, before the profile lookup it starts
        for a session has resolved; the published user is not touched. */
    method InitialSessionResolved(session: Option<SessionUser>) returns (profileLookup: Option<string>)
      modifies this`loading
      ensures profileLookup == (if session.Some? then Some(session.value.id) else None)
      ensures !loading
    {
      profileLookup := if session.Some? then Some(session.value.id) else None;
      loading := false;
    }

    /** The profile lookup started at start-up resolves: it publishes the resolved user, or
        nobody when it failed, and leaves the loading flag alone. */
    method InitialProfileResolved(u: SessionUser, lookup: Outcome<Option<ProfileRow>>)
      modifies this`currentUser
      ensures currentUser == Resolve(Some(u), lookup)
    {
      currentUser := Resolve(Some(u), lookup);
    }

    /** Sign-in and sign-out each set loading before awaiting the provider. */
    method BeginAuthCall()
      modifies this`loading
      ensures loading
    {
      loading := true;
    }

    /** Sign-in resolves: loading ends, then the error is rethrown or the data returned. The
        published user is left to the state listener. */
    method EndLogin(outcome: Outcome<SignIn>) returns (r: Outcome<SignIn>)
      modifies this`loading
      ensures !loading && r == outcome
    {
      loading := false;
      r := outcome;
    }

    /** Sign-out resolves: loading ends, then the error, if any, is rethrown. */
    method EndLogout(failure: Option<string>) returns (r: Option<string>)
      modifies this`loading
      ensures !loading && r == failure
    {
      loading := false;
      r := failure;
    }
  }

  /** A sign-in publishes nobody by itself; the user appears when the listener reports the new
      session, and is then the session user merged with the profile. */
  method SignInThenListener(store: AuthStore, outcome: Outcome<SignIn>, lookup: Outcome<Option<ProfileRow>>)
    requires outcome.Ok?
    modifies store
    ensures !store.loading
    ensures lookup.Ok? ==> store.currentUser.Some? && store.currentUser.value.id == outcome.value.user.id
    ensures lookup.Err? ==> store.currentUser.None?
  {
    store.BeginAuthCall();
    var before := store.currentUser;
    var r := store.EndLogin(outcome);
    assert store.currentUser == before;
    var issued := store.OnAuthStateChange(Some(outcome.value.user), lookup);
  }

  /** The start-up lookup and the listener are not ordered: a sign-out reported before the
      start-up profile lookup resolves is overwritten by it, and the signed-out user is published
      again. */
  method StartUpLookupOutlivesSignOut(store: AuthStore, u: SessionUser, profile: Option<ProfileRow>)
    modifies store
    ensures store.currentUser == Some(MergeUser(u, profile))
    ensures !store.loading
  {
    var started := store.InitialSessionResolved(Some(u));
    var none := store.OnAuthStateChange(None, Ok(None));
    assert store.currentUser.None?;
    store.InitialProfileResolved(u, Ok(profile));
  }
}
