/** The authentication-session container: `{user, isLoading, error}` and its
    four asynchronous actions. Each action is split at its one `await`: a
    `Begin` step (the `set` before the remote call) and a `Finish` step that
    takes the remote call's outcome. The `Finish` steps write only the fields
    the source's final `set` writes.
 */
module AuthStore {
  import opened Outcomes

  /** The signed-in user as the store keeps it. */
  datatype User = User(id: string, email: string)

  datatype AuthState = AuthState(user: Option<User>, isLoading: bool, error: Option<string>)

  /** The user record the hosted auth service hands back; its email may be
      missing. */
  datatype RemoteUser = RemoteUser(id: string, email: Option<string>)

  /** Signed out, idle, no error. */
  const Initial: AuthState := AuthState(None, false, None)

  /** The `set({isLoading: true, error: null})` every action starts with. */
  function Begin(s: AuthState): (r: AuthState)
    ensures r.isLoading && r.error.None?
    ensures r.user == s.user
  {
    s.(isLoading := true, error := None)
  }

  /** `{id: user.id, email: user.email || ""}`. */
  function ToUser(u: RemoteUser): (r: User)
    ensures r.id == u.id
    ensures u.email.None? ==> r.email == ""
    ensures u.email.Some? ==> r.email == u.email.value
  {
    User(u.id, u.email.GetOr(""))
  }

  /** The tail of `login` and `signup`. A thrown or returned error records its
      message and stops loading, keeping the user; a returned user replaces
      the user and stops loading; no error and no user reaches no `set`, so
      the state stays as `Begin` left it. */
  function FinishCredentials(s: AuthState, o: Outcome<Option<RemoteUser>>): (r: AuthState)
    ensures o.Err? ==> r.user == s.user && !r.isLoading && r.error == Some(o.message)
    ensures o.Ok? && o.value.Some? ==> r.user == Some(ToUser(o.value.value)) && !r.isLoading && r.error == s.error
    ensures o == Ok(None) ==> r == s
  {
    match o
    case Err(message) => s.(error := Some(message), isLoading := false)
    case Ok(Some(u)) => s.(user := Some(ToUser(u)), isLoading := false)
    case Ok(None) => s
  }

  /** `login(email, password)`, with the outcome of the password sign-in. */
  function Login(s: AuthState, o: Outcome<Option<RemoteUser>>): (r: AuthState)
    ensures o.Ok? && o.value.Some? ==> r == AuthState(Some(ToUser(o.value.value)), false, None)
    ensures o.Err? ==> r == AuthState(s.user, false, Some(o.message))
    ensures o == Ok(None) ==> r == AuthState(s.user, true, None)
  {
    FinishCredentials(Begin(s), o)
  }

  /** `signup(email, password)`, with the outcome of the account creation. */
  function Signup(s: AuthState, o: Outcome<Option<RemoteUser>>): (r: AuthState)
    ensures o.Ok? && o.value.Some? ==> r == AuthState(Some(ToUser(o.value.value)), false, None)
    ensures o.Err? ==> r == AuthState(s.user, false, Some(o.message))
    ensures o == Ok(None) ==> r == AuthState(s.user, true, None)
  {
    FinishCredentials(Begin(s), o)
  }

  /** The tail of `logout`: success signs out, failure keeps the user and
      records the message; both stop loading. */
  function FinishLogout(s: AuthState, o: Outcome<()>): (r: AuthState)
    ensures !r.isLoading
    ensures o.Ok? ==> r.user.None? && r.error == s.error
    ensures o.Err? ==> r.user == s.user && r.error == Some(o.message)
  {
    match o
    case Ok(_) => s.(user := None, isLoading := false)
    case Err(message) => s.(error := Some(message), isLoading := false)
  }

  function Logout(s: AuthState, o: Outcome<()>): (r: AuthState)
    ensures o.Ok? ==> r == AuthState(None, false, None)
    ensures o.Err? ==> r == AuthState(s.user, false, Some(o.message))
  {
    FinishLogout(Begin(s), o)
  }

  /** The tail of `checkSession`, given the user of the current session if
      there is one. A session sets the user, no session clears it, and unlike
      the other actions an error clears the user as well. All three stop
      loading. */
  function FinishCheckSession(s: AuthState, o: Outcome<Option<RemoteUser>>): (r: AuthState)
    ensures !r.isLoading
    ensures o.Ok? && o.value.Some? ==> r.user == Some(ToUser(o.value.value)) && r.error == s.error
    ensures o == Ok(None) ==> r.user.None? && r.error == s.error
    ensures o.Err? ==> r.user.None? && r.error == Some(o.message)
  {
    match o
    case Ok(Some(u)) => s.(user := Some(ToUser(u)), isLoading := false)
    case Ok(None) => s.(user := None, isLoading := false)
    case Err(message) => s.(user := None, error := Some(message), isLoading := false)
  }

  function CheckSession(s: AuthState, o: Outcome<Option<RemoteUser>>): (r: AuthState)
    ensures o.Ok? && o.value.Some? ==> r == AuthState(Some(ToUser(o.value.value)), false, None)
    ensures o == Ok(None) ==> r == AuthState(None, false, None)
    ensures o.Err? ==> r == AuthState(None, false, Some(o.message))
  {
    FinishCheckSession(Begin(s), o)
  }

  /** One completed call into the container, with the outcome of its remote
      call. */
  datatype AuthAction =
    | LoginCall(signIn: Outcome<Option<RemoteUser>>)
    | SignupCall(signUp: Outcome<Option<RemoteUser>>)
    | LogoutCall(signOut: Outcome<()>)
    | CheckSessionCall(session: Outcome<Option<RemoteUser>>)

  function Perform(s: AuthState, a: AuthAction): AuthState {
    match a
    case LoginCall(o) => Login(s, o)
    case SignupCall(o) => Signup(s, o)
    case LogoutCall(o) => Logout(s, o)
    case CheckSessionCall(o) => CheckSession(s, o)
  }

  function Run(s: AuthState, actions: seq<AuthAction>): AuthState
    decreases |actions|
  {
    if |actions| == 0 then s else Run(Perform(s, actions[0]), actions[1..])
  }

  /** The one way an action can end still loading: `login` or `signup`
      answered with neither an error nor a user. */
  predicate LeavesLoading(a: AuthAction) {
    || (a.LoginCall? && a.signIn == Ok(None))
    || (a.SignupCall? && a.signUp == Ok(None))
  }

  /** After a completed action the container is loading exactly when that
      action left it so, and an error is never shown while loading. */
  lemma PerformLoading(s: AuthState, a: AuthAction)
    ensures Perform(s, a).isLoading <==> LeavesLoading(a)
    ensures Perform(s, a).error.Some? ==> !Perform(s, a).isLoading
  {
  }

  /** After a non-empty run the loading flag is decided by the last action
      alone, whatever state the run started in. */
  lemma {:induction false} RunLoading(s: AuthState, actions: seq<AuthAction>)
    requires |actions| > 0
    ensures Run(s, actions).isLoading <==> LeavesLoading(actions[|actions| - 1])
    ensures Run(s, actions).error.Some? ==> !Run(s, actions).isLoading
    decreases |actions|
  {
    PerformLoading(s, actions[0]);
    if |actions| > 1 {
      RunLoading(Perform(s, actions[0]), actions[1..]);
      assert actions[1..][|actions[1..]| - 1] == actions[|actions| - 1];
    }
  }

  /** In every state reachable from the initial one, an error is shown only
      when nothing is loading, and loading is left on only by a `login` or
      `signup` that got no user back. */
  lemma ReachableAuthStates(actions: seq<AuthAction>)
    ensures Run(Initial, actions).error.Some? ==> !Run(Initial, actions).isLoading
    ensures Run(Initial, actions).isLoading ==> |actions| > 0 && LeavesLoading(actions[|actions| - 1])
  {
    if |actions| > 0 {
      RunLoading(Initial, actions);
    }
  }

  /** The scenarios of the store's test suite: a successful login from the
      initial state, a login rejected with "Bad credentials", and a logout
      from a signed-in state. */
  lemma TestSuiteScenarios()
    ensures Initial.user.None? && !Initial.isLoading && Initial.error.None?
    ensures Begin(Initial).isLoading
    ensures Login(Initial, Ok(Some(RemoteUser("123", Some("test@test.com")))))
         == AuthState(Some(User("123", "test@test.com")), false, None)
    ensures Login(Initial, Err("Bad credentials")) == AuthState(None, false, Some("Bad credentials"))
    ensures Begin(AuthState(Some(User("123", "test@test.com")), false, None)).isLoading
    ensures Logout(AuthState(Some(User("123", "test@test.com")), false, None), Ok(()))
         == AuthState(None, false, None)
  {
  }
}
