/** The page's own state: the registration wizard (`currentStep`,
    `selectedRole`, `registrationData`) and the signed-in user's profile
    (`currentUserData`), with the handlers that change it. The form's
    contents, the clock and the random draw are passed in. */
module Client {
  import opened Text
  import opened Records
  import opened Registration
  import opened Access
  import opened GatePasses
  import opened Backend

  /** `!selectedRole` fails for no role and for the empty string alike. */
  predicate RoleChosen(role: Option<string>) {
    role.Some? && role.value != ""
  }

  /** A one-time code as generateOTP stores it. */
  predicate HoldsOtp(data: Doc) {
    Field(data, "otp").Text? && |Field(data, "otp").s| == 6 && AllDigits(Field(data, "otp").s)
  }

  /** `{ id: userDoc.id, ...userDoc.data() }`: a stored `id` field wins. */
  function UserRecord(uid: string, profile: Doc): (r: Doc)
    ensures r.Keys == profile.Keys + {"id"}
    ensures forall k :: k in profile ==> r[k] == profile[k]
    ensures "id" !in profile ==> r["id"] == Text(uid)
  {
    map["id" := Text(uid)] + profile
  }

  datatype RegisterError =
    | OtpRefused(verdict: OtpVerdict)  // EnterOtp or InvalidOtp: nothing is attempted
    | RegistrationFailed(message: string)

  const REGISTRATION_FAILED := "Registration failed"

  datatype LinkError = EnterStudentId | StudentNotFound | LinkFailed

  class Page {
    var currentStep: int
    var selectedRole: Option<string>
    var registrationData: Doc
    var currentUserData: Option<Doc>

    /** The wizard is on one of its three steps; past step 1 a role has been
        selected, and on step 3 a six-digit code is held. */
    ghost predicate Valid()
      reads this
    {
      && 1 <= currentStep <= 3
      && (currentStep != 1 ==> selectedRole.Some?)
      && (currentStep == 3 ==> HoldsOtp(registrationData))
    }

    constructor ()
      ensures Valid()
      ensures currentStep == 1 && selectedRole.None? && registrationData == map[] && currentUserData.None?
    {
      currentStep := 1;
      selectedRole := None;
      registrationData := map[];
      currentUserData := None;
    }

    /** selectRole, without the half-second timer after which the page calls
        nextStep itself. */
    method SelectRole(role: string)
      requires Valid()
      modifies this
      ensures Valid()
      ensures selectedRole == Some(role)
      ensures currentStep == old(currentStep) && registrationData == old(registrationData)
      ensures currentUserData == old(currentUserData)
    {
      selectedRole := Some(role);
    }

    /** showStep */
    method ShowStep(step: int)
      requires 1 <= step <= 3
      modifies this
      ensures currentStep == step
      ensures selectedRole == old(selectedRole) && registrationData == old(registrationData)
      ensures currentUserData == old(currentUserData)
    {
      currentStep := step;
    }

    /** generateOTP: the code drawn replaces any earlier one. */
    method GenerateOTP(draw: real)
      requires 0.0 <= draw < 1.0
      modifies this
      ensures registrationData == old(registrationData)["otp" := Text(OtpCode(draw))]
      ensures HoldsOtp(registrationData)
      ensures currentStep == old(currentStep) && selectedRole == old(selectedRole)
      ensures currentUserData == old(currentUserData)
    {
      registrationData := registrationData["otp" := Text(OtpCode(draw))];
    }

    /** nextStep: step 1 moves on only once a role is chosen; step 2 moves on
        only when the form passes validateStep2, and then replaces the draft
        with the collected profile and a fresh code; step 3 stays. The
        notices are the ones shown: "Please select a role" at step 1, and
        those validateStep2 raised at step 2. */
    method NextStep(f: Form, now: int, draw: real) returns (notices: seq<WizardNotice>)
      requires Valid() && 0.0 <= draw < 1.0
      modifies this
      ensures Valid()
      ensures old(currentStep) == 1 ==>
        && currentStep == (if RoleChosen(selectedRole) then 2 else 1)
        && registrationData == old(registrationData)
      ensures old(currentStep) == 2 ==>
        if Step2Valid(f) then
          && currentStep == 3
          && registrationData == FormProfile(selectedRole.value, f, now)["otp" := Text(OtpCode(draw))]
        else
          && currentStep == 2
          && registrationData == old(registrationData)
      ensures old(currentStep) == 3 ==> currentStep == 3 && registrationData == old(registrationData)
      ensures old(currentStep) == 2 ==>
        notices ==
          (if f.password != f.confirmPassword then [PasswordsDoNotMatch] else [])
          + (if |f.password| < MIN_PASSWORD_LENGTH then [PasswordTooShort] else [])
      ensures old(currentStep) == 1 ==> notices == (if RoleChosen(selectedRole) then [] else [SelectARole])
      ensures old(currentStep) == 3 ==> notices == []
      ensures selectedRole == old(selectedRole) && currentUserData == old(currentUserData)
    {
      notices := [];
      if currentStep == 1 {
        if !RoleChosen(selectedRole) {
          return [SelectARole];
        }
        ShowStep(2);
      } else if currentStep == 2 {
        var ok;
        ok, notices := ValidateStep2(f);
        if ok {
          registrationData := CollectFormData(selectedRole.value, f, now);
          GenerateOTP(draw);
          ShowStep(3);
        }
      }
    }

    /** prevStep: 3 goes back to 2, 2 to 1, and 1 stays. */
    method PrevStep()
      requires Valid()
      modifies this
      ensures Valid()
      ensures currentStep == (if old(currentStep) == 1 then 1 else old(currentStep) - 1)
      ensures selectedRole == old(selectedRole) && registrationData == old(registrationData)
      ensures currentUserData == old(currentUserData)
    {
      if currentStep == 2 {
        ShowStep(1);
      } else if currentStep == 3 {
        ShowStep(2);
      }
    }

    /** verifyOTPAndRegister, given the provider's answer to creating the
        identity (its uid, or its message) and to writing the profile (None
        when the write succeeds). A code that does not match changes nothing
        and may be retried without limit. On success the profile is stored
        without password and code, and the new identity is signed out again;
        a failed write leaves the new identity signed in with no profile. */
    method VerifyOTPAndRegister(db: Store, entered: string, created: Result<string, string>,
                                writeError: Option<string>) returns (o: Result<string, RegisterError>)
      modifies db
      ensures CheckOtp(entered, registrationData) != OtpAccepted ==>
        && o == Err(OtpRefused(CheckOtp(entered, registrationData)))
        && db.authUser == old(db.authUser) && db.users == old(db.users)
      ensures CheckOtp(entered, registrationData) == OtpAccepted && created.Err? ==>
        && o == Err(RegistrationFailed(ShownMessage(created.error, REGISTRATION_FAILED)))
        && db.authUser == old(db.authUser) && db.users == old(db.users)
      ensures CheckOtp(entered, registrationData) == OtpAccepted && created.Ok? && writeError.Some? ==>
        && o == Err(RegistrationFailed(ShownMessage(writeError.value, REGISTRATION_FAILED)))
        && db.authUser == Some(created.value) && db.users == old(db.users)
      ensures CheckOtp(entered, registrationData) == OtpAccepted && created.Ok? && writeError.None? ==>
        && o == Ok(created.value)
        && db.authUser.None?
        && db.users == old(db.users)[created.value := StoredProfile(registrationData, created.value)]
      ensures db.gatePasses == old(db.gatePasses) && db.studentStatus == old(db.studentStatus)
      ensures db.scanLogs == old(db.scanLogs)
    {
      var verdict := CheckOtp(entered, registrationData);
      if verdict != OtpAccepted {
        return Err(OtpRefused(verdict));
      }
      if created.Err? {
        return Err(RegistrationFailed(ShownMessage(created.error, REGISTRATION_FAILED)));
      }
      // Creating the identity signs it in.
      var uid := created.value;
      db.authUser := Some(uid);
      if writeError.Some? {
        return Err(RegistrationFailed(ShownMessage(writeError.value, REGISTRATION_FAILED)));
      }
      db.users := db.users[uid := StoredProfile(registrationData, uid)];
      db.SignOut();
      o := Ok(uid);
    }

    /** logout */
    method Logout(db: Store)
      modifies this, db
      ensures db.authUser.None? && currentUserData.None?
      ensures db.users == old(db.users) && db.gatePasses == old(db.gatePasses)
      ensures db.studentStatus == old(db.studentStatus) && db.scanLogs == old(db.scanLogs)
      ensures currentStep == old(currentStep) && selectedRole == old(selectedRole)
      ensures registrationData == old(registrationData)
    {
      db.SignOut();
      currentUserData := None;
    }

    /** loadUserData with redirectToDashboard: nothing happens when nobody is
        signed in; otherwise the stored profile is routed, a dashboard keeps
        the user with the profile loaded, and any other outcome logs out. */
    method LoadUserData(db: Store) returns (l: Option<Landing>)
      modifies this, db
      ensures old(db.authUser).None? ==> l.None? && currentUserData == old(currentUserData)
      ensures old(db.authUser).Some? ==>
        var uid := old(db.authUser).value;
        && l == Some(Route(Lookup(db.users, uid)))
        && (l.value.Dashboard? ==> db.authUser == Some(uid) && currentUserData == Some(UserRecord(uid, db.users[uid])))
        && (l.value.SignedOut? ==> db.authUser.None? && currentUserData.None?)
      ensures old(db.authUser).None? ==> db.authUser.None?
      ensures db.users == old(db.users) && db.gatePasses == old(db.gatePasses)
      ensures db.studentStatus == old(db.studentStatus) && db.scanLogs == old(db.scanLogs)
      ensures currentStep == old(currentStep) && selectedRole == old(selectedRole)
      ensures registrationData == old(registrationData)
    {
      if db.authUser.None? {
        return None;
      }
      var uid := db.authUser.value;
      var profile := Lookup(db.users, uid);
      if profile.Some? {
        currentUserData := Some(UserRecord(uid, profile.value));
      }
      var landing := Route(profile);
      if landing.SignedOut? {
        Logout(db);
      }
      l := Some(landing);
    }

    /** linkChildAccount, given the order in which the store lists its users
        (every stored user appears in it): the first matching student is
        linked to the signed-in parent's profile and to the loaded profile. A
        student is reported missing only when no stored user matches. */
    method LinkChildAccount(db: Store, input: string, order: seq<string>) returns (o: Result<string, LinkError>)
      requires forall u :: u in db.users ==> u in order
      modifies this, db
      ensures Blank(input) ==> o == Err(EnterStudentId) && db.users == old(db.users)
      ensures !Blank(input) && FirstStudent(order, old(db.users), Trim(input)).None? ==>
        o == Err(StudentNotFound) && db.users == old(db.users)
      ensures o == Err(StudentNotFound) ==>
        forall u :: u in old(db.users) ==> !IsStudentNumbered(old(db.users)[u], Trim(input))
      ensures !Blank(input) && FirstStudent(order, old(db.users), Trim(input)).Some? ==>
        var childUid := order[FirstStudent(order, old(db.users), Trim(input)).value];
        var child := old(db.users)[childUid];
        if db.authUser.None? || db.authUser.value !in old(db.users) || "fullName" !in child then
          o == Err(LinkFailed) && db.users == old(db.users)
        else
          var parentUid := db.authUser.value;
          && db.users == old(db.users)[parentUid := LinkedParent(old(db.users)[parentUid], childUid, child)]
          && (old(currentUserData).None? ==> o == Err(LinkFailed) && currentUserData.None?)
          && (old(currentUserData).Some? ==>
                o == Ok(childUid)
                && currentUserData == Some(LinkedParent(old(currentUserData).value, childUid, child)))
      ensures o.Err? ==> currentUserData == old(currentUserData)
      ensures db.authUser == old(db.authUser) && db.gatePasses == old(db.gatePasses)
      ensures db.studentStatus == old(db.studentStatus) && db.scanLogs == old(db.scanLogs)
      ensures currentStep == old(currentStep) && selectedRole == old(selectedRole)
      ensures registrationData == old(registrationData)
    {
      if Blank(input) {
        return Err(EnterStudentId);
      }
      var found := FirstStudent(order, db.users, Trim(input));
      if found.None? {
        FirstStudentComplete(order, db.users, Trim(input));
        return Err(StudentNotFound);
      }
      var childUid := order[found.value];
      var child := db.users[childUid];
      // `currentUser.uid` throws without a signed-in user; the update fails
      // for a missing parent profile and for an undefined `fullName`.
      if db.authUser.None? || db.authUser.value !in db.users || "fullName" !in child {
        return Err(LinkFailed);
      }
      var parentUid := db.authUser.value;
      db.users := db.users[parentUid := LinkedParent(db.users[parentUid], childUid, child)];
      // Assigning into a null `currentUserData` throws after the write.
      if currentUserData.None? {
        return Err(LinkFailed);
      }
      currentUserData := Some(LinkedParent(currentUserData.value, childUid, child));
      o := Ok(childUid);
    }
  }
}
