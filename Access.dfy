/** Who gets in: the sign-in checks of `handleLogin` and the routing of
    `loadUserData` / `redirectToDashboard`, both decided on the stored
    profile's `status` and `role` fields. */
module Access {
  import opened Text
  import opened Records
  import opened Registration
  import opened Approval

  datatype Role = Student | Parent | Security | Warden | Admin

  /** The string a profile stores for each role. */
  function RoleName(r: Role): string {
    match r
    case Student => "student"
    case Parent => "parent"
    case Security => "security"
    case Warden => "warden"
    case Admin => "admin"
  }

  /** The dashboard a `role` field selects; any other value selects none.
      It reads back exactly the names RoleName writes. */
  function RoleOf(v: Value): (r: Option<Role>)
    ensures r.Some? ==> v == Text(RoleName(r.value))
    ensures forall x :: v == Text(RoleName(x)) ==> r == Some(x)
  {
    if v == Text("student") then Some(Student)
    else if v == Text("parent") then Some(Parent)
    else if v == Text("security") then Some(Security)
    else if v == Text("warden") then Some(Warden)
    else if v == Text("admin") then Some(Admin)
    else None
  }

  /** Why a signed-in user is signed out again, by the notification shown. */
  datatype SignOutReason = PendingApproval | AccountRejected | UserDataNotFound | InvalidRole

  /** Where loadUserData leaves the user. */
  datatype Landing = Dashboard(role: Role) | SignedOut(reason: SignOutReason)

  /** loadUserData followed by redirectToDashboard, for the profile stored
      under the signed-in uid: only an approved profile with a known role
      reaches a dashboard, the one its role names; pending, any other status,
      a missing profile and an unknown role all sign the user out. */
  function Route(profile: Option<Doc>): (l: Landing)
    ensures l.Dashboard? <==>
      profile.Some? && Field(profile.value, "status") == Text(APPROVED)
      && RoleOf(Field(profile.value, "role")).Some?
    ensures l.Dashboard? ==> Field(profile.value, "role") == Text(RoleName(l.role))
    ensures l == SignedOut(UserDataNotFound) <==> profile.None?
    ensures l == SignedOut(PendingApproval) <==>
      profile.Some? && Field(profile.value, "status") == Text(PENDING)
    ensures l == SignedOut(InvalidRole) <==>
      profile.Some? && Field(profile.value, "status") == Text(APPROVED)
      && RoleOf(Field(profile.value, "role")).None?
  {
    match profile
    case None => SignedOut(UserDataNotFound)
    case Some(p) =>
      var status := Field(p, "status");
      if status == Text(APPROVED) then
        match RoleOf(Field(p, "role"))
        case Some(r) => Dashboard(r)
        case None => SignedOut(InvalidRole)
      else if status == Text(PENDING) then SignedOut(PendingApproval)
      else SignedOut(AccountRejected)
  }

  /** The message shown when the identity provider refuses without one. */
  const LOGIN_FAILED := "Login failed"

  /** Why handleLogin refuses, by the message it shows. */
  datatype LoginError =
    | FillAllFields
    | SignInFailed(message: string)
    | UserDataMissing
    | InvalidRoleSelected
    | NotApprovedYet

  /** All three login fields are filled: the credential after trimming, the
      password and the selected role as they are. */
  predicate LoginFieldsFilled(credential: string, password: string, role: string) {
    !Blank(credential) && password != "" && role != ""
  }

  /** handleLogin's checks, in its order, given the identity provider's answer
      `signIn` (the uid, or the provider's message) and the `users` collection. */
  function LoginDecision(credential: string, password: string, role: string,
                         signIn: Result<string, string>, users: map<string, Doc>): (o: Result<string, LoginError>)
    ensures o == Err(FillAllFields) <==> !LoginFieldsFilled(credential, password, role)
    ensures o.Ok? <==>
      && LoginFieldsFilled(credential, password, role)
      && signIn.Ok? && signIn.value in users
      && Field(users[signIn.value], "role") == Text(role)
      && Field(users[signIn.value], "status") == Text(APPROVED)
    ensures o.Ok? ==> o.value == signIn.value
    ensures LoginFieldsFilled(credential, password, role) && signIn.Err? ==>
      o == Err(SignInFailed(ShownMessage(signIn.error, LOGIN_FAILED)))
    ensures LoginFieldsFilled(credential, password, role) && signIn == Err("") ==>
      o == Err(SignInFailed(LOGIN_FAILED))
    ensures o == Err(UserDataMissing) <==>
      LoginFieldsFilled(credential, password, role) && signIn.Ok? && signIn.value !in users
    ensures o == Err(InvalidRoleSelected) <==>
      && LoginFieldsFilled(credential, password, role)
      && signIn.Ok? && signIn.value in users
      && Field(users[signIn.value], "role") != Text(role)
    ensures o == Err(NotApprovedYet) <==>
      && LoginFieldsFilled(credential, password, role)
      && signIn.Ok? && signIn.value in users
      && Field(users[signIn.value], "role") == Text(role)
      && Field(users[signIn.value], "status") != Text(APPROVED)
  {
    if !LoginFieldsFilled(credential, password, role) then Err(FillAllFields)
    else match signIn
      case Err(message) => Err(SignInFailed(ShownMessage(message, LOGIN_FAILED)))
      case Ok(uid) =>
        if uid !in users then Err(UserDataMissing)
        else if Field(users[uid], "role") != Text(role) then Err(InvalidRoleSelected)
        else if Field(users[uid], "status") != Text(APPROVED) then Err(NotApprovedYet)
        else Ok(uid)
  }

  /** A login that succeeds is followed by the routing of loadUserData: the
      user lands on the dashboard of the role selected at login, unless that
      role is one no dashboard exists for. */
  lemma LoginThenRoute(credential: string, password: string, role: string,
                       signIn: Result<string, string>, users: map<string, Doc>)
    requires LoginDecision(credential, password, role, signIn, users).Ok?
    ensures var l := Route(Some(users[signIn.value]));
      && (RoleOf(Text(role)).Some? ==> l == Dashboard(RoleOf(Text(role)).value))
      && (RoleOf(Text(role)).None? ==> l == SignedOut(InvalidRole))
  {
  }

  /** Registration never grants access by itself: the profile a completed
      registration persists, whatever the role, is routed to "pending
      approval" and refused at login. */
  lemma FreshProfileIsLockedOut(role: string, f: Form, now: int, draw: real, uid: string,
                                credential: string, password: string, loginRole: string)
    requires LaidOutFor(f, role) && 0.0 <= draw < 1.0
    ensures var p := StoredProfile(FormProfile(role, f, now)["otp" := Text(OtpCode(draw))], uid);
      && Route(Some(p)) == SignedOut(PendingApproval)
      && !LoginDecision(credential, password, loginRole, Ok(uid), map[uid := p]).Ok?
  {
    RegisteredProfileIsPending(role, f, now, draw, uid);
  }

  /** Approving a registration is what opens the dashboard: once approved,
      a profile whose role is known routes to that role's dashboard, and a
      rejected profile is signed out as rejected. */
  lemma DecisionThenRoute(p: Doc, d: Decision, approver: string, now: int)
    ensures var l := Route(Some(Decided(p, d, approver, now)));
      && (d == Approve && RoleOf(Field(p, "role")).Some? ==> l == Dashboard(RoleOf(Field(p, "role")).value))
      && (d == Reject ==> l == SignedOut(AccountRejected))
  {
  }
}
