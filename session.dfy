/** The top-level session gate (`App`): which screen is shown, from the
    loading flag, the authenticated user and the user's profile. */
module Session {
  import opened Types

  datatype Screen = LoaderScreen | AuthScreen | ProfileSetupScreen | LocationSetupScreen | ChatScreen

  /** `hasLocation`: a profile still at the (0, 0) sentinel has no location. */
  predicate HasLocation(p: Profile) {
    p.latRounded != 0 || p.lonRounded != 0
  }

  /** The screen `App` renders. Exactly one screen is chosen for every
      state, each under the condition stated here. */
  function ChooseScreen(loading: bool, user: Option<User>, profile: Option<Profile>): (s: Screen)
    ensures s == LoaderScreen <==> loading
    ensures s == AuthScreen <==> !loading && user.None?
    ensures s == ProfileSetupScreen <==> !loading && user.Some? && profile.None?
    ensures s == LocationSetupScreen <==>
              !loading && user.Some? && profile.Some?
              && profile.value.latRounded == 0 && profile.value.lonRounded == 0
    ensures s == ChatScreen <==>
              !loading && user.Some? && profile.Some?
              && (profile.value.latRounded != 0 || profile.value.lonRounded != 0)
  {
    if loading then LoaderScreen
    else if user.None? then AuthScreen
    else if profile.None? then ProfileSetupScreen
    else if !HasLocation(profile.value) then LocationSetupScreen
    else ChatScreen
  }

  /** `fetchProfile`: the returned row, or none on an error or when no row matches. */
  function ProfileFromFetch(result: QueryResult<Profile>): (p: Option<Profile>)
    ensures p.Some? <==> result.QueryOk? && result.data.Some?
    ensures p.Some? ==> p.value == result.data.value
  {
    match result
    case QueryError(_) => None
    case QueryOk(data) => data
  }

  class App {
    var user: Option<User>
    var profile: Option<Profile>
    /** true until the first session check resolves, false ever after */
    var loading: bool

    constructor ()
      ensures user == None && profile == None && loading
      ensures Shown() == LoaderScreen
    {
      user, profile, loading := None, None, true;
    }

    function Shown(): (s: Screen)
      reads this
    {
      ChooseScreen(loading, user, profile)
    }

    /** The first session check resolves: the user is taken from the
        session, a profile fetch starts for that user (`fetchFor`) or the
        profile is cleared, and loading ends. */
    method OnSessionResolved(sessionUser: Option<User>) returns (fetchFor: Option<UserId>)
      modifies this
      ensures user == sessionUser && !loading
      ensures profile == if sessionUser.None? then None else old(profile)
      ensures fetchFor == if sessionUser.Some? then Some(sessionUser.value.id) else None
      ensures sessionUser.None? ==> Shown() == AuthScreen
    {
      user := sessionUser;
      if sessionUser.Some? {
        fetchFor := Some(sessionUser.value.id);
      } else {
        profile := None;
        fetchFor := None;
      }
      loading := false;
    }

    /** An auth-state change: as above, but the loading flag is left alone. */
    method OnAuthStateChange(sessionUser: Option<User>) returns (fetchFor: Option<UserId>)
      modifies this
      ensures user == sessionUser && loading == old(loading)
      ensures profile == if sessionUser.None? then None else old(profile)
      ensures fetchFor == if sessionUser.Some? then Some(sessionUser.value.id) else None
      ensures sessionUser.None? ==> Shown() == LoaderScreen || Shown() == AuthScreen
    {
      user := sessionUser;
      if sessionUser.Some? {
        fetchFor := Some(sessionUser.value.id);
      } else {
        profile := None;
        fetchFor := None;
      }
    }

    /** A profile fetch completes (`fetchProfile(...).then(setProfile)`). */
    method OnProfileFetched(result: QueryResult<Profile>)
      modifies this
      ensures profile == ProfileFromFetch(result)
      ensures user == old(user) && loading == old(loading)
    {
      profile := ProfileFromFetch(result);
    }

    /** `onProfileCreated(p)`. */
    method OnProfileCreated(p: Profile)
      modifies this
      ensures profile == Some(p)
      ensures user == old(user) && loading == old(loading)
    {
      profile := Some(p);
    }

    /** `onLocationSet`: the user whose profile is fetched again, if there
        is a user at all. */
    function OnLocationSet(): (fetchFor: Option<UserId>)
      reads this
      ensures fetchFor.Some? <==> user.Some?
      ensures fetchFor.Some? ==> fetchFor.value == user.value.id
    {
      if user.Some? then Some(user.value.id) else None
    }
  }

  /** A returning user's page load: the session check resolves with the
      user, and until the profile fetch it starts has answered there is no
      profile, so profile setup is shown, even for a user who already has a
      profile, and the setup screen's insert chain starts meanwhile. */
  method ReturningUserSeesProfileSetup(u: User) returns (app: App, fetchFor: Option<UserId>)
    ensures fetchFor == Some(u.id)
    ensures app.user == Some(u) && app.profile == None && !app.loading
    ensures app.Shown() == ProfileSetupScreen
  {
    app := new App();
    fetchFor := app.OnSessionResolved(Some(u));
  }

  /** A profile fetch answers late: user 1 signs in, signs out before the
      fetch of their profile has answered, the answer arrives, and user 2
      signs in. Nothing ties the answer to the user it was fetched for, so
      until user 2's own fetch answers the chat is shown with user 1's
      profile. */
  method StaleProfileFetch(u1: User, u2: User, p1: Profile) returns (app: App)
    requires p1.id == u1.id && u1 != u2 && HasLocation(p1)
    ensures app.user == Some(u2) && app.profile == Some(p1)
    ensures app.profile.value.id != app.user.value.id
    ensures app.Shown() == ChatScreen
  {
    app := new App();
    var first := app.OnSessionResolved(Some(u1));
    var signedOut := app.OnAuthStateChange(None);
    app.OnProfileFetched(QueryOk(Some(p1)));
    var second := app.OnAuthStateChange(Some(u2));
  }
}
