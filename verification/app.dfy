/** The login screen's state and its two handlers. The backend's answers are parameters:
    the sign-in result, the profile lookup and whether a sign-out call threw. `session` is the
    session the auth listener holds once the handler's sign-in and sign-out calls have
    been reported to it. */
module App {
  import opened Wrappers
  import opened Schema

  datatype AppState = AppState(
    selectedRole: Option<Role>,
    email: string,
    password: string,
    loading: bool,
    error: Option<string>,
    session: bool)

  const Initial: AppState := AppState(None, "", "", false, None, false)

  /** What `signInWithPassword` answered. */
  datatype SignIn =
    | SignInFailed(message: string)
    | SignedIn(user: Option<UserId>)
    | SignInThrew

  /** What the profile lookup answered: an error, the profile's role (absent when no profile
      came back), or an exception. */
  datatype ProfileLookup =
    | ProfileFailed
    | ProfileFound(role: Option<Role>)
    | ProfileThrew

  const BackendInvalidCredentials: string := "Invalid login credentials"
  const InvalidCredentialsMessage: string :=
    "Invalid email or password. Please check your credentials and try again."
  const ProfileErrorMessage: string := "Error fetching user profile. Please try again."
  const UnexpectedErrorMessage: string := "An unexpected error occurred. Please try again."
  const SignOutFailedMessage: string := "Failed to sign out. Please try again."

  function AccessDeniedMessage(selected: Role): string {
    "Access denied. You don't have " + RoleName(selected) + " privileges."
  }

  /** The sign-in error text shown to the user. */
  function SignInErrorText(message: string): (m: string)
    ensures message == BackendInvalidCredentials ==> m == InvalidCredentialsMessage
    ensures message != BackendInvalidCredentials ==> m == message
  {
    if message == BackendInvalidCredentials then InvalidCredentialsMessage else message
  }

  /** The role gate: a role was chosen, the profile's role is not it, and is not admin. */
  predicate Denied(selected: Option<Role>, profileRole: Option<Role>)
    ensures Denied(selected, profileRole) ==> selected.Some? && profileRole != Some(Admin)
    // a sign-in whose profile row is missing is turned away whenever a role was chosen
    ensures selected.Some? && profileRole.None? ==> Denied(selected, profileRole)
  {
    selected.Some? && profileRole != Some(selected.value) && profileRole != Some(Admin)
  }

  datatype LoginOutcome = LoginOutcome(state: AppState, signedOut: bool)

  /** `handleLogin`: error cleared first, loading false at the end, then the outcome of the
      sign-in and of the profile lookup. Both sign-out calls sit inside the `try`, so when
      one throws, the catch replaces the message with the generic one and the user stays
      signed in. */
  function HandleLogin(s: AppState, signIn: SignIn, profile: ProfileLookup, signOutThrew: bool): (o: LoginOutcome)
    ensures !o.state.loading
    ensures o.state.selectedRole == s.selectedRole
    ensures o.state.email == s.email && o.state.password == s.password
    ensures signIn.SignInFailed? ==>
              o.state.error == Some(SignInErrorText(signIn.message)) && !o.signedOut
              && o.state.session == s.session
    ensures signIn.SignInThrew? ==>
              o.state.error == Some(UnexpectedErrorMessage) && !o.signedOut && o.state.session == s.session
    ensures signIn == SignedIn(None) ==> o.state.error == None && !o.signedOut && o.state.session == s.session
    ensures signIn.SignedIn? && signIn.user.Some? && profile.ProfileFailed? ==>
              && (!signOutThrew ==> o.state.error == Some(ProfileErrorMessage) && o.signedOut)
              && (signOutThrew ==> o.state.error == Some(UnexpectedErrorMessage) && !o.signedOut)
    ensures signIn.SignedIn? && signIn.user.Some? && profile.ProfileThrew? ==>
              o.state.error == Some(UnexpectedErrorMessage) && !o.signedOut
    ensures signIn.SignedIn? && signIn.user.Some? && profile.ProfileFound? ==>
              && (o.signedOut <==> Denied(s.selectedRole, profile.role) && !signOutThrew)
              && (o.signedOut ==> o.state.error == Some(AccessDeniedMessage(s.selectedRole.value)))
              && (Denied(s.selectedRole, profile.role) && signOutThrew ==>
                    o.state.error == Some(UnexpectedErrorMessage))
              && (!Denied(s.selectedRole, profile.role) ==> o.state.error == None)
    ensures signIn.SignedIn? && signIn.user.Some? ==> o.state.session == !o.signedOut
  {
    var started := s.(loading := true, error := None);
    var o := match signIn
      case SignInFailed(m) => LoginOutcome(started.(error := Some(SignInErrorText(m))), false)
      case SignInThrew => LoginOutcome(started.(error := Some(UnexpectedErrorMessage)), false)
      case SignedIn(None) => LoginOutcome(started, false)
      case SignedIn(Some(_)) =>
        var signedIn := started.(session := true);
        var threw := signedIn.(error := Some(UnexpectedErrorMessage));
        match profile
        case ProfileFailed =>
          if signOutThrew then LoginOutcome(threw, false)
          else LoginOutcome(signedIn.(error := Some(ProfileErrorMessage), session := false), true)
        case ProfileThrew => LoginOutcome(threw, false)
        case ProfileFound(role) =>
          if !Denied(s.selectedRole, role) then LoginOutcome(signedIn, false)
          else if signOutThrew then LoginOutcome(threw, false)
          else LoginOutcome(signedIn.(error := Some(AccessDeniedMessage(s.selectedRole.value)), session := false), true);
    o.(state := o.state.(loading := false))
  }

  /** Login with the gate made fail-closed: when the profile lookup fails or the gate denies,
      the session is dropped and the gate's message shown whether or not the sign-out call
      threw. Every other path is as in `HandleLogin`. */
  function HandleLoginFailClosed(s: AppState, signIn: SignIn, profile: ProfileLookup,
                                 signOutThrew: bool): (o: LoginOutcome)
    ensures !o.state.loading
    ensures (signIn.SignedIn? && signIn.user.Some? && profile.ProfileFound? && Denied(s.selectedRole, profile.role)) ==>
              !o.state.session && o.state.error == Some(AccessDeniedMessage(s.selectedRole.value))
    ensures (signIn.SignedIn? && signIn.user.Some? && profile.ProfileFailed?) ==>
              !o.state.session && o.state.error == Some(ProfileErrorMessage)
  {
    var gated := signIn.SignedIn? && signIn.user.Some?
                 && (profile.ProfileFailed? || (profile.ProfileFound? && Denied(s.selectedRole, profile.role)));
    HandleLogin(s, signIn, profile, signOutThrew && !gated)
  }

  /** `handleLogout`: when sign-out returns, the role choice, the credentials and the error
      are cleared; when it throws, only the error is set. */
  function HandleLogout(s: AppState, signOutThrew: bool): (r: AppState)
    ensures !signOutThrew ==> r.selectedRole == None && r.email == "" && r.password == ""
                              && r.error == None && !r.session && r.loading == s.loading
    ensures signOutThrew ==> r == s.(error := Some(SignOutFailedMessage))
  {
    if signOutThrew then s.(error := Some(SignOutFailedMessage))
    else s.(selectedRole := None, email := "", password := "", error := None, session := false)
  }

  datatype Screen = DashboardScreen | LoginForm(role: Role) | RoleSelection

  /** What `App` renders. */
  function View(s: AppState): (v: Screen)
    ensures v == DashboardScreen <==> s.session
    ensures !s.session && s.selectedRole.Some? ==> v == LoginForm(s.selectedRole.value)
    ensures !s.session && s.selectedRole.None? ==> v == RoleSelection
  {
    if s.session then DashboardScreen
    else match s.selectedRole
      case Some(r) => LoginForm(r)
      case None => RoleSelection
  }

  /* ---------- properties ---------- */

  /** An admin profile passes the gate whatever role was chosen, and with no role chosen
      every profile passes. */
  lemma AdminAndUnselectedAdmitted(selected: Option<Role>, profileRole: Option<Role>)
    ensures !Denied(selected, Some(Admin))
    ensures !Denied(None, profileRole)
    ensures selected.Some? ==> !Denied(selected, Some(selected.value))
  {
  }

  /** After a successful sign-in and profile lookup, and a sign-out that completes, the
      dashboard shows exactly when the gate admits the profile; otherwise the chosen role's
      login form shows the denial. */
  lemma LoginLandsOnDashboardIffAdmitted(s: AppState, user: UserId, role: Option<Role>)
    ensures var o := HandleLogin(s, SignedIn(Some(user)), ProfileFound(role), false);
            && (View(o.state) == DashboardScreen <==> !Denied(s.selectedRole, role))
            && (Denied(s.selectedRole, role) ==> View(o.state) == LoginForm(s.selectedRole.value))
  {
  }

  /** A requester who chose the approver role is turned away when the sign-out completes,
      and vice versa. */
  lemma WrongRoleDenied(s: AppState, user: UserId, chosen: Role, actual: Role)
    requires s.selectedRole == Some(chosen) && actual != chosen && actual != Admin
    ensures HandleLogin(s, SignedIn(Some(user)), ProfileFound(Some(actual)), false).signedOut
    ensures !HandleLogin(s, SignedIn(Some(user)), ProfileFound(Some(actual)), false).state.session
  {
  }

  /** As written the gate fails open: when the denying sign-out throws, the user keeps the
      session and lands on the dashboard under the generic error. */
  lemma GateFailsOpen(s: AppState, user: UserId, role: Option<Role>)
    requires Denied(s.selectedRole, role)
    ensures var o := HandleLogin(s, SignedIn(Some(user)), ProfileFound(role), true);
            View(o.state) == DashboardScreen && o.state.error == Some(UnexpectedErrorMessage)
  {
  }

  /** With the fail-closed gate a denied user never reaches the dashboard, whether or not the
      sign-out call throws, and a user the gate admits gets it exactly as before. */
  lemma GateFailsClosed(s: AppState, user: UserId, role: Option<Role>, signOutThrew: bool)
    ensures var o := HandleLoginFailClosed(s, SignedIn(Some(user)), ProfileFound(role), signOutThrew);
            && (View(o.state) == DashboardScreen <==> !Denied(s.selectedRole, role))
            && (Denied(s.selectedRole, role) ==> View(o.state) == LoginForm(s.selectedRole.value))
  {
  }

  /** The gate on role names, as the handler compares them: the profile's role name differs
      from the chosen one and is not "admin". */
  lemma DeniedByName(selected: Role, profileRole: Role)
    ensures Denied(Some(selected), Some(profileRole))
            <==> RoleName(profileRole) != RoleName(selected) && RoleName(profileRole) != "admin"
  {
    RoleNameInjective(profileRole, selected);
    RoleNameInjective(profileRole, Admin);
  }

  /** A successful logout returns to the role selection screen with a clean form. */
  lemma LogoutShowsRoleSelection(s: AppState)
    ensures View(HandleLogout(s, false)) == RoleSelection
    ensures HandleLogout(s, false) == Initial.(loading := s.loading)
  {
  }

  /** Logging out twice is the same as once. */
  lemma LogoutIdempotent(s: AppState)
    ensures HandleLogout(HandleLogout(s, false), false) == HandleLogout(s, false)
  {
  }
}
