/**
 * lib/auth/auth-utils.ts: the functions that turn the identity provider's
 * answers into the application's results. Each provider call is an input
 * (`Fetch` for a call with data, `Reply` for the sign-out); an exception
 * the provider throws is caught by the function and becomes its fixed message.
 */
module AuthAdapter {
  import opened Types
  import opened Rows
  import opened Strings

  /** The provider's `user_metadata`. */
  datatype Metadata = Metadata(name: Option<string>, fullName: Option<string>, avatarUrl: Option<string>)

  /** The provider's user object, as far as the adapter reads it. */
  datatype ProviderUser = ProviderUser(id: string, email: Option<string>, metadata: Option<Metadata>)

  /** A session, which may carry a user. */
  datatype Session = Session(user: Option<ProviderUser>)

  /** The data part of the answer to `signUp`. */
  datatype SignUp = SignUp(user: Option<ProviderUser>, session: Option<Session>)

  datatype AuthResult = AuthOk(user: User, needsConfirmation: bool) | AuthFailed(error: string)

  datatype Outcome = Success | Failure(error: string)

  datatype ConnectionResult = Connected(hasSession: bool) | NotConnected(error: string)

  const NoUserData := "Login failed - no user data"
  const LoginUnexpected := "An unexpected error occurred during login"
  const RegistrationFailed := "User registration failed"
  const RegistrationUnexpected := "An unexpected error occurred during registration"
  const LogoutUnexpected := "An unexpected error occurred during logout"
  const ConnectionFailed := "Failed to connect to Supabase"

  /** `email?.split("@")[0]`, with a missing email read as "". */
  function EmailLocalPart(email: Option<string>): (r: string)
    ensures email.None? ==> r == ""
    ensures email.Some? ==> r <= email.value && '@' !in r
    ensures email.Some? && '@' !in email.value ==> r == email.value
  {
    if email.Some? then Split(email.value, '@')[0] else ""
  }

  function MetaName(u: ProviderUser): string
  {
    if u.metadata.Some? then Text(u.metadata.value.name) else ""
  }

  function MetaFullName(u: ProviderUser): string
  {
    if u.metadata.Some? then Text(u.metadata.value.fullName) else ""
  }

  function MetaAvatar(u: ProviderUser): string
  {
    if u.metadata.Some? then Text(u.metadata.value.avatarUrl) else ""
  }

  /** `name || full_name || email?.split("@")[0] || ""`. */
  function DisplayName(u: ProviderUser): (r: string)
    ensures MetaName(u) != "" ==> r == MetaName(u)
    ensures MetaName(u) == "" && MetaFullName(u) != "" ==> r == MetaFullName(u)
    ensures MetaName(u) == "" && MetaFullName(u) == "" ==> r == EmailLocalPart(u.email)
  {
    OrElse(MetaName(u), OrElse(MetaFullName(u), OrElse(EmailLocalPart(u.email), "")))
  }

  /** The application user built from a provider user (lines 35-46 and 187-198). */
  function ToUser(u: ProviderUser): (r: User)
    ensures r.name == "" <==> MetaName(u) == "" && MetaFullName(u) == "" && EmailLocalPart(u.email) == ""
    ensures u.metadata.None? ==> r.name == EmailLocalPart(u.email) && r.avatar == Some("")
  {
    User(u.id, Text(u.email), DisplayName(u), Some(MetaAvatar(u)))
  }

  /** With no metadata, the name is what stands before the '@' of the email. */
  lemma NameFromEmail(id: string, local: string, domain: string)
    requires local != "" && '@' !in local
    ensures ToUser(ProviderUser(id, Some(local + "@" + domain), None)).name == local
  {
    BeforeOfJoin(local, '@', domain);
  }

  /** `loginUser`, lines 4-55. */
  function LoginUser(reply: Fetch<Option<ProviderUser>>): (r: AuthResult)
    ensures reply.FetchErr? ==> r == AuthFailed(reply.message)
    ensures reply.FetchThrown? ==> r == AuthFailed(LoginUnexpected)
    ensures reply.Fetched? && reply.data.None? ==> r == AuthFailed(NoUserData)
    ensures r.AuthOk? <==> reply.Fetched? && reply.data.Some?
    ensures r.AuthOk? ==> r.user == ToUser(reply.data.value) && !r.needsConfirmation
  {
    match reply
    case FetchThrown => AuthFailed(LoginUnexpected)
    case FetchErr(m) => AuthFailed(m)
    case Fetched(None) => AuthFailed(NoUserData)
    case Fetched(Some(u)) => AuthOk(ToUser(u), false)
  }

  /** The metadata `registerUser` sends: the supplied name as both `name` and `full_name`. */
  function SignUpMetadata(data: AuthFormData): (m: Metadata)
    ensures m.name == m.fullName == Some(Text(data.name))
    ensures m.avatarUrl.None?
  {
    var name := Or(data.name, "");
    Metadata(Some(name), Some(name), None)
  }

  /** The user `registerUser` returns: named from the form, never from the provider's metadata. */
  function RegisteredUser(data: AuthFormData, u: ProviderUser): (r: User)
    ensures r.id == u.id && r.email == Text(u.email) && r.avatar == Some("")
    ensures Present(data.name) ==> r.name == data.name.value
    ensures !Present(data.name) ==> r.name == EmailLocalPart(u.email)
  {
    User(u.id, Text(u.email), OrElse(Text(data.name), OrElse(EmailLocalPart(u.email), "")), Some(""))
  }

  /** `registerUser`, lines 57-130. */
  function RegisterUser(data: AuthFormData, reply: Fetch<SignUp>): (r: AuthResult)
    ensures reply.FetchErr? ==> r == AuthFailed(reply.message)
    ensures reply.FetchThrown? ==> r == AuthFailed(RegistrationUnexpected)
    ensures reply.Fetched? && reply.data.user.None? ==> r == AuthFailed(RegistrationFailed)
    ensures r.AuthOk? <==> reply.Fetched? && reply.data.user.Some?
    ensures r.AuthOk? ==> r.user == RegisteredUser(data, reply.data.user.value)
    ensures r.AuthOk? ==> (r.needsConfirmation <==> reply.data.session.None?)
  {
    match reply
    case FetchThrown => AuthFailed(RegistrationUnexpected)
    case FetchErr(m) => AuthFailed(m)
    case Fetched(SignUp(None, _)) => AuthFailed(RegistrationFailed)
    case Fetched(SignUp(Some(u), session)) => AuthOk(RegisteredUser(data, u), session.None?)
  }

  /** Registration does not look at the metadata the provider sends back. */
  lemma RegisterIgnoresMetadata(data: AuthFormData, u: ProviderUser, m: Option<Metadata>, session: Option<Session>)
    ensures RegisterUser(data, Fetched(SignUp(Some(u), session))) ==
            RegisterUser(data, Fetched(SignUp(Some(u.(metadata := m)), session)))
  {
  }

  /**
   * A user who signs up with a name and then logs in with the metadata the
   * sign-up stored is given the same name both times.
   */
  lemma RegisteredNameSurvivesLogin(data: AuthFormData, id: string, email: Option<string>)
    requires Present(data.name)
    ensures ToUser(ProviderUser(id, email, Some(SignUpMetadata(data)))).name ==
            RegisteredUser(data, ProviderUser(id, email, None)).name
  {
  }

  /** `logoutUser`, lines 132-157. */
  function LogoutUser(reply: Reply): (r: Outcome)
    ensures r == Success <==> reply.Ok?
    ensures reply.Err? ==> r == Failure(reply.message)
    ensures reply.Thrown? ==> r == Failure(LogoutUnexpected)
  {
    match reply
    case Ok => Success
    case Err(m) => Failure(m)
    case Thrown => Failure(LogoutUnexpected)
  }

  /** `getCurrentUser`, lines 159-203: null on an error, an exception, or a session without a user. */
  function GetCurrentUser(reply: Fetch<Option<Session>>): (r: Option<User>)
    ensures r.Some? <==> reply.Fetched? && reply.data.Some? && reply.data.value.user.Some?
    ensures r.Some? ==> r.value == ToUser(reply.data.value.user.value)
  {
    match reply
    case Fetched(Some(Session(Some(u)))) => Some(ToUser(u))
    case _ => None
  }

  /** `isAuthenticated`, lines 205-227. */
  function IsAuthenticated(reply: Fetch<Option<Session>>): bool
  {
    reply.Fetched? && reply.data.Some? && reply.data.value.user.Some?
  }

  /** On the same session, `isAuthenticated` holds exactly when `getCurrentUser` finds a user. */
  lemma AuthenticatedIffCurrentUser(reply: Fetch<Option<Session>>)
    ensures IsAuthenticated(reply) <==> GetCurrentUser(reply).Some?
  {
  }

  /** Logging in and reading the session build the same user from the same provider user. */
  lemma LoginAgreesWithSession(u: ProviderUser)
    ensures LoginUser(Fetched(Some(u))).user == GetCurrentUser(Fetched(Some(Session(Some(u))))).value
  {
  }

  /** `testSupabaseConnection`, lines 230-256. */
  function TestConnection(reply: Fetch<Option<Session>>): (r: ConnectionResult)
    ensures r.Connected? <==> reply.Fetched?
    ensures r.Connected? ==> (r.hasSession <==> reply.data.Some?)
    ensures reply.FetchErr? ==> r == NotConnected(reply.message)
    ensures reply.FetchThrown? ==> r == NotConnected(ConnectionFailed)
  {
    match reply
    case Fetched(session) => Connected(session.Some?)
    case FetchErr(m) => NotConnected(m)
    case FetchThrown => NotConnected(ConnectionFailed)
  }
}
