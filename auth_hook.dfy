/**
 * hooks/use-auth.ts: the `user`, `loading` and `initialized` state of the
 * authentication hook, driven by the provider's auth events and by the
 * hook's login, registration, logout and refresh calls. The adapter
 * functions catch every exception themselves, so the model's calls never throw.
 */
module AuthHook {
  import opened Types
  import opened Rows
  import opened Strings
  import opened AuthAdapter

  /** The events of `onAuthStateChange`; `OtherEvent` stands for every event the handler ignores. */
  datatype AuthEvent = SignedIn | SignedOut | TokenRefreshed | UserUpdated | OtherEvent

  /** What `login`, `register` and `logout` return to the page. */
  datatype HookResult = Succeeded(needsConfirmation: bool) | FailedWith(error: string)

  /** The handler's effect on `user` (lines 79-98); `current` answers the session read made by `getCurrentUser`. */
  function EventUser(user: Option<User>, event: AuthEvent, current: Fetch<Option<Session>>): Option<User>
  {
    match event
    case SignedOut => None
    case OtherEvent => user
    case _ =>
      var fetched := GetCurrentUser(current);
      if fetched.Some? then fetched else user
  }

  /**
   * SIGNED_OUT clears the user; SIGNED_IN, TOKEN_REFRESHED and USER_UPDATED
   * take the session's user when there is one and otherwise keep the old
   * one; other events change nothing.
   */
  lemma EventEffects(user: Option<User>, event: AuthEvent, current: Fetch<Option<Session>>)
    ensures event == SignedOut ==> EventUser(user, event, current) == None
    ensures event == OtherEvent ==> EventUser(user, event, current) == user
    ensures (event == SignedIn || event == TokenRefreshed || event == UserUpdated) ==>
              EventUser(user, event, current) == (if AuthAdapter.IsAuthenticated(current) then GetCurrentUser(current) else user)
    ensures EventUser(user, event, current) != user ==> event == SignedOut || AuthAdapter.IsAuthenticated(current)
  {
    AuthenticatedIffCurrentUser(current);
  }

  /** The user `initializeAuth` leaves (lines 22-62); the three inputs answer its three session reads. */
  function InitialUser(user: Option<User>, connection: Fetch<Option<Session>>, check: Fetch<Option<Session>>, current: Fetch<Option<Session>>): Option<User>
  {
    if TestConnection(connection).Connected? && AuthAdapter.IsAuthenticated(check) && GetCurrentUser(current).Some?
    then GetCurrentUser(current)
    else user
  }

  /** A failed connection test keeps the user as it was. */
  lemma FailedConnectionKeepsUser(user: Option<User>, connection: Fetch<Option<Session>>, check: Fetch<Option<Session>>, current: Fetch<Option<Session>>)
    requires !connection.Fetched?
    ensures InitialUser(user, connection, check, current) == user
  {
  }

  /** `login` (lines 113-142): the user afterwards and the result. */
  function LoginEffect(user: Option<User>, reply: Fetch<Option<ProviderUser>>): (Option<User>, HookResult)
  {
    var result := LoginUser(reply);
    if result.AuthOk? then (Some(result.user), Succeeded(false))
    else (user, FailedWith(OrElse(result.error, "Login failed")))
  }

  /** A login sets the user exactly when the provider returns one; a failed one keeps the user and names an error. */
  lemma LoginEffects(user: Option<User>, reply: Fetch<Option<ProviderUser>>)
    ensures reply.Fetched? && reply.data.Some? ==> LoginEffect(user, reply) == (Some(ToUser(reply.data.value)), Succeeded(false))
    ensures !(reply.Fetched? && reply.data.Some?) ==>
              && LoginEffect(user, reply).0 == user
              && LoginEffect(user, reply).1.FailedWith?
              && LoginEffect(user, reply).1.error != ""
    ensures reply == FetchErr("") ==> LoginEffect(user, reply).1 == FailedWith("Login failed")
  {
  }

  /** `register` (lines 144-176): the user afterwards and the result. */
  function RegisterEffect(user: Option<User>, data: AuthFormData, reply: Fetch<SignUp>): (Option<User>, HookResult)
  {
    var result := RegisterUser(data, reply);
    if result.AuthOk? then (Some(result.user), Succeeded(result.needsConfirmation))
    else (user, FailedWith(OrElse(result.error, "Registration failed")))
  }

  /** A registration without a session signs the user in locally but reports that confirmation is needed. */
  lemma RegisterEffects(user: Option<User>, data: AuthFormData, reply: Fetch<SignUp>)
    ensures reply.Fetched? && reply.data.user.Some? ==>
              RegisterEffect(user, data, reply) ==
              (Some(RegisteredUser(data, reply.data.user.value)), Succeeded(reply.data.session.None?))
    ensures !(reply.Fetched? && reply.data.user.Some?) ==>
              RegisterEffect(user, data, reply).0 == user && RegisterEffect(user, data, reply).1.FailedWith?
  {
  }

  /** `logout` (lines 178-202): the user afterwards and the result. */
  function LogoutEffect(user: Option<User>, reply: Reply): (Option<User>, HookResult)
  {
    var result := LogoutUser(reply);
    if result.Success? then (None, Succeeded(false))
    else (user, FailedWith(OrElse(result.error, "Logout failed")))
  }

  /** A logout clears the user exactly when the provider reports no error; otherwise the user stays. */
  lemma LogoutEffects(user: Option<User>, reply: Reply)
    ensures LogoutEffect(user, reply).1.Succeeded? <==> reply.Ok?
    ensures reply.Ok? ==> LogoutEffect(user, reply).0 == None
    ensures !reply.Ok? ==> LogoutEffect(user, reply).0 == user
  {
  }

  /**
   * Unlike the event handler, `refreshUser` clears the user when the
   * session has none: the same answer leaves them in opposite states.
   */
  lemma RefreshDiffersFromEvent(u: User, current: Fetch<Option<Session>>)
    requires !AuthAdapter.IsAuthenticated(current)
    ensures EventUser(Some(u), SignedIn, current) == Some(u)
    ensures GetCurrentUser(current) == None
  {
    AuthenticatedIffCurrentUser(current);
  }

  /** The hook's state. */
  class AuthState {
    var user: Option<User>
    var loading: bool
    var initialized: bool

    /** Lines 14-16. */
    constructor ()
      ensures user == None && loading && !initialized
    {
      user, loading, initialized := None, true, false;
    }

    /** `isAuthenticated: !!user`. */
    function IsAuthenticated(): (b: bool)
      reads this
    {
      user.Some?
    }

    /** The listener of lines 70-104. */
    method HandleAuthEvent(event: AuthEvent, current: Fetch<Option<Session>>)
      modifies this
      ensures user == EventUser(old(user), event, current)
      ensures !loading && initialized == old(initialized)
    {
      loading := true;
      match event {
        case SignedIn =>
          var fetched := GetCurrentUser(current);
          if fetched.Some? {
            user := fetched;
          }
        case TokenRefreshed =>
          var fetched := GetCurrentUser(current);
          if fetched.Some? {
            user := fetched;
          }
        case SignedOut =>
          user := None;
        case UserUpdated =>
          var fetched := GetCurrentUser(current);
          if fetched.Some? {
            user := fetched;
          }
        case OtherEvent =>
      }
      loading := false;
    }

    /** `initializeAuth`, lines 22-62: whatever happens, it ends initialized and not loading. */
    method InitializeAuth(connection: Fetch<Option<Session>>, check: Fetch<Option<Session>>, current: Fetch<Option<Session>>)
      modifies this
      ensures user == InitialUser(old(user), connection, check, current)
      ensures initialized && !loading
    {
      loading := true;
      var test := TestConnection(connection);
      if !test.Connected? {
        loading := false;
        // the early return still runs the `finally` block
        loading := false;
        initialized := true;
        return;
      }
      if AuthAdapter.IsAuthenticated(check) {
        var fetched := GetCurrentUser(current);
        if fetched.Some? {
          user := fetched;
        }
      }
      loading := false;
      initialized := true;
    }

    method Login(reply: Fetch<Option<ProviderUser>>) returns (r: HookResult)
      modifies this
      ensures (user, r) == LoginEffect(old(user), reply)
      ensures !loading && initialized == old(initialized)
    {
      loading := true;
      var result := LoginUser(reply);
      if result.AuthOk? {
        user := Some(result.user);
        r := Succeeded(false);
      } else {
        r := FailedWith(OrElse(result.error, "Login failed"));
      }
      loading := false;
    }

    method Register(data: AuthFormData, reply: Fetch<SignUp>) returns (r: HookResult)
      modifies this
      ensures (user, r) == RegisterEffect(old(user), data, reply)
      ensures !loading && initialized == old(initialized)
    {
      loading := true;
      var result := RegisterUser(data, reply);
      if result.AuthOk? {
        user := Some(result.user);
        r := Succeeded(result.needsConfirmation);
      } else {
        r := FailedWith(OrElse(result.error, "Registration failed"));
      }
      loading := false;
    }

    method Logout(reply: Reply) returns (r: HookResult)
      modifies this
      ensures (user, r) == LogoutEffect(old(user), reply)
      ensures !loading && initialized == old(initialized)
    {
      loading := true;
      var result := LogoutUser(reply);
      if result.Success? {
        user := None;
        r := Succeeded(false);
      } else {
        r := FailedWith(OrElse(result.error, "Logout failed"));
      }
      loading := false;
    }

    /** `refreshUser`, lines 204-222: the user becomes whatever the session holds, none included. */
    method RefreshUser(current: Fetch<Option<Session>>) returns (r: Option<User>)
      modifies this
      ensures r == GetCurrentUser(current) && user == r
      ensures loading == old(loading) && initialized == old(initialized)
    {
      r := GetCurrentUser(current);
      user := r;
    }
  }
}
