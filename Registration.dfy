/** Step 2 and step 3 of the registration wizard: the field layout each role
    gets, the validation of the profile form, the profile record built from it,
    the one-time code and the record that is finally persisted. */
module Registration {
  import opened Text
  import opened Records

  /** One role-specific `<input>` or `<select>` as the form holds it. */
  datatype Input = Input(id: string, value: string, required: bool)

  /** The profile form of step 2: the six common fields (raw, untrimmed) and
      the role-specific inputs in document order. */
  datatype Form = Form(
    fullName: string, email: string, phone: string, username: string,
    password: string, confirmPassword: string,
    roleInputs: seq<Input>)

  /** One role-specific field as the layout declares it. */
  datatype FieldSpec = FieldSpec(id: string, required: bool)

  const MIN_PASSWORD_LENGTH := 6

  /** The keys every collected profile has before role-specific fields are added. */
  const BaseKeys: set<string> :=
    {"role", "fullName", "email", "phone", "username", "password", "status", "createdAt", "lastLogin"}

  /** The role-specific fields the layout offers for each role; an unknown
      role gets none. Every one of them is marked required, their ids are
      distinct, and none of them clashes with a common profile key. */
  function RoleFields(role: string): (r: seq<FieldSpec>)
    ensures forall j :: 0 <= j < |r| ==> r[j].required && r[j].id !in BaseKeys
    ensures forall i, j :: 0 <= i < j < |r| ==> r[i].id != r[j].id
    ensures role != "student" && role != "parent" && role != "security" && role != "warden" && role != "admin" ==>
      r == []
  {
    match role
    case "student" =>
      [FieldSpec("studentId", true), FieldSpec("roomNumber", true), FieldSpec("course", true),
       FieldSpec("year", true), FieldSpec("parentContact", true)]
    case "parent" => [FieldSpec("childStudentId", true), FieldSpec("relationship", true)]
    case "security" => [FieldSpec("employeeId", true), FieldSpec("shift", true)]
    case "warden" => [FieldSpec("employeeId", true), FieldSpec("department", true)]
    case "admin" => [FieldSpec("adminCode", true)]
    case _ => []
  }

  /** The form's role-specific inputs are those the layout put there for `role`. */
  predicate LaidOutFor(f: Form, role: string) {
    var spec := RoleFields(role);
    |f.roleInputs| == |spec| &&
    forall j :: 0 <= j < |spec| ==>
      f.roleInputs[j].id == spec[j].id && f.roleInputs[j].required == spec[j].required
  }

  /** The six common fields, in the order the validator visits them. */
  function CommonValues(f: Form): seq<string> {
    [f.fullName, f.email, f.phone, f.username, f.password, f.confirmPassword]
  }

  /** What step 2 accepts: every common field non-blank, the two passwords
      equal, the raw password at least six characters long, and every required
      role-specific input non-blank. */
  predicate Step2Valid(f: Form) {
    && (forall j :: 0 <= j < 6 ==> !Blank(CommonValues(f)[j]))
    && f.password == f.confirmPassword
    && |f.password| >= MIN_PASSWORD_LENGTH
    && (forall j :: 0 <= j < |f.roleInputs| ==> f.roleInputs[j].required ==> !Blank(f.roleInputs[j].value))
  }

  /** The notifications the wizard shows when it refuses to move on: "Please
      select a role" at step 1, and the two password rules at step 2 (blank
      fields are only marked). */
  datatype WizardNotice = SelectARole | PasswordsDoNotMatch | PasswordTooShort

  /** validateStep2: visits the common fields, then the password rules, then
      the role-specific inputs, clearing the verdict at every failure. */
  method ValidateStep2(f: Form) returns (isValid: bool, notices: seq<WizardNotice>)
    ensures isValid <==> Step2Valid(f)
    ensures notices ==
      (if f.password != f.confirmPassword then [PasswordsDoNotMatch] else [])
      + (if |f.password| < MIN_PASSWORD_LENGTH then [PasswordTooShort] else [])
  {
    var common := CommonValues(f);
    isValid := true;
    var i := 0;
    while i < |common|
      invariant 0 <= i <= |common|
      invariant isValid <==> forall j :: 0 <= j < i ==> !Blank(common[j])
    {
      if Blank(common[i]) {
        isValid := false;
      }
      i := i + 1;
    }
    notices := [];
    if f.password != f.confirmPassword {
      isValid := false;
      notices := notices + [PasswordsDoNotMatch];
    }
    if |f.password| < MIN_PASSWORD_LENGTH {
      isValid := false;
      notices := notices + [PasswordTooShort];
    }
    var k := 0;
    while k < |f.roleInputs|
      invariant 0 <= k <= |f.roleInputs|
      invariant isValid <==>
        && (forall j :: 0 <= j < 6 ==> !Blank(common[j]))
        && f.password == f.confirmPassword
        && |f.password| >= MIN_PASSWORD_LENGTH
        && (forall j :: 0 <= j < k ==> f.roleInputs[j].required ==> !Blank(f.roleInputs[j].value))
    {
      var input := f.roleInputs[k];
      if input.required && Blank(input.value) {
        isValid := false;
      }
      k := k + 1;
    }
  }

  /** The profile record before role-specific fields: common fields trimmed,
      the password raw, status pending whatever the role, no last login. */
  function BaseProfile(role: string, f: Form, now: int): Doc {
    map[
      "role" := Text(role),
      "fullName" := Text(Trim(f.fullName)),
      "email" := Text(Trim(f.email)),
      "phone" := Text(Trim(f.phone)),
      "username" := Text(Trim(f.username)),
      "password" := Text(f.password),
      "status" := Text(PENDING),
      "createdAt" := Stamp(now),
      "lastLogin" := Null
    ]
  }

  /** Adds each input with a non-blank value under its id, trimmed, in order
      (a later input with the same id overwrites an earlier one). */
  function AddRoleFields(d: Doc, inputs: seq<Input>): Doc
    decreases |inputs|
  {
    if inputs == [] then d
    else
      var last := inputs[|inputs| - 1];
      var before := AddRoleFields(d, inputs[..|inputs| - 1]);
      if Blank(last.value) then before else before[last.id := Text(Trim(last.value))]
  }

  /** The ids of the inputs that carry a non-blank value. */
  function FilledIds(inputs: seq<Input>): set<string> {
    set j | 0 <= j < |inputs| && !Blank(inputs[j].value) :: inputs[j].id
  }

  /** The record collectFormData leaves in `registrationData`. */
  function FormProfile(role: string, f: Form, now: int): Doc {
    AddRoleFields(BaseProfile(role, f, now), f.roleInputs)
  }

  /** collectFormData */
  method CollectFormData(role: string, f: Form, now: int) returns (data: Doc)
    ensures data == FormProfile(role, f, now)
  {
    data := BaseProfile(role, f, now);
    var k := 0;
    while k < |f.roleInputs|
      invariant 0 <= k <= |f.roleInputs|
      invariant data == AddRoleFields(BaseProfile(role, f, now), f.roleInputs[..k])
    {
      var input := f.roleInputs[k];
      assert f.roleInputs[..k + 1][..k] == f.roleInputs[..k];
      if !Blank(input.value) {
        data := data[input.id := Text(Trim(input.value))];
      }
      k := k + 1;
    }
    assert f.roleInputs[..k] == f.roleInputs;
  }

  /** Adding role fields adds exactly the ids of the filled inputs, and keeps
      every other key's value. */
  lemma {:induction false} AddRoleFieldsFrame(d: Doc, inputs: seq<Input>)
    ensures AddRoleFields(d, inputs).Keys == d.Keys + FilledIds(inputs)
    ensures forall k :: k in d && k !in FilledIds(inputs) ==> AddRoleFields(d, inputs)[k] == d[k]
    decreases |inputs|
  {
    if inputs != [] {
      var init := inputs[..|inputs| - 1];
      var last := inputs[|inputs| - 1];
      AddRoleFieldsFrame(d, init);
      if Blank(last.value) {
        assert FilledIds(inputs) == FilledIds(init) by {
          forall id | id in FilledIds(inputs) ensures id in FilledIds(init) {
            var j :| 0 <= j < |inputs| && !Blank(inputs[j].value) && inputs[j].id == id;
            assert init[j] == inputs[j];
          }
        }
      } else {
        assert FilledIds(inputs) == FilledIds(init) + {last.id} by {
          forall id | id in FilledIds(inputs) ensures id in FilledIds(init) + {last.id} {
            var j :| 0 <= j < |inputs| && !Blank(inputs[j].value) && inputs[j].id == id;
            if j < |init| { assert init[j] == inputs[j]; }
          }
        }
      }
    }
  }

  /** The last filled input with a given id decides that key's value. */
  lemma {:induction false} AddRoleFieldsLastWins(d: Doc, inputs: seq<Input>, j: nat)
    requires j < |inputs| && !Blank(inputs[j].value)
    requires forall m :: j < m < |inputs| ==> inputs[m].id != inputs[j].id
    ensures inputs[j].id in AddRoleFields(d, inputs)
    ensures AddRoleFields(d, inputs)[inputs[j].id] == Text(Trim(inputs[j].value))
    decreases |inputs|
  {
    var init := inputs[..|inputs| - 1];
    if j < |inputs| - 1 {
      assert init[j] == inputs[j];
      AddRoleFieldsLastWins(d, init, j);
    }
  }

  /** On a form laid out for a role, the filled ids never clash with a common
      profile key, and no two inputs share an id. */
  lemma LaidOutIds(f: Form, role: string)
    requires LaidOutFor(f, role)
    ensures FilledIds(f.roleInputs) !! BaseKeys
    ensures forall i, j :: 0 <= i < j < |f.roleInputs| ==> f.roleInputs[i].id != f.roleInputs[j].id
  {
  }

  /** collectFormData on a form laid out for the selected role: the common
      fields are stored trimmed, the password raw, the status is pending for
      every role, and a role-specific field is present exactly when its input
      was filled, with the trimmed value. */
  lemma FormProfileContents(role: string, f: Form, now: int)
    requires LaidOutFor(f, role)
    ensures FormProfile(role, f, now).Keys == BaseKeys + FilledIds(f.roleInputs)
    ensures var p := FormProfile(role, f, now);
      && p["role"] == Text(role)
      && p["fullName"] == Text(Trim(f.fullName))
      && p["email"] == Text(Trim(f.email))
      && p["phone"] == Text(Trim(f.phone))
      && p["username"] == Text(Trim(f.username))
      && p["password"] == Text(f.password)
      && p["status"] == Text(PENDING)
      && p["createdAt"] == Stamp(now)
      && p["lastLogin"] == Null
    ensures forall j :: 0 <= j < |f.roleInputs| && !Blank(f.roleInputs[j].value) ==>
      FormProfile(role, f, now)[f.roleInputs[j].id] == Text(Trim(f.roleInputs[j].value))
  {
    LaidOutIds(f, role);
    ProfileCommonFields(role, f, now);
    ProfileRoleFields(role, f, now);
  }

  /** Role inputs whose ids avoid the common keys leave every common field
      as the base profile set it. */
  lemma ProfileCommonFields(role: string, f: Form, now: int)
    requires FilledIds(f.roleInputs) !! BaseKeys
    ensures FormProfile(role, f, now).Keys == BaseKeys + FilledIds(f.roleInputs)
    ensures forall k :: k in BaseKeys ==> FormProfile(role, f, now)[k] == BaseProfile(role, f, now)[k]
  {
    var base := BaseProfile(role, f, now);
    AddRoleFieldsFrame(base, f.roleInputs);
    assert base.Keys == BaseKeys;
  }

  /** Role inputs with distinct ids each store their own trimmed value. */
  lemma ProfileRoleFields(role: string, f: Form, now: int)
    requires forall i, j :: 0 <= i < j < |f.roleInputs| ==> f.roleInputs[i].id != f.roleInputs[j].id
    ensures forall j :: 0 <= j < |f.roleInputs| && !Blank(f.roleInputs[j].value) ==>
      f.roleInputs[j].id in FormProfile(role, f, now) &&
      FormProfile(role, f, now)[f.roleInputs[j].id] == Text(Trim(f.roleInputs[j].value))
  {
    forall j | 0 <= j < |f.roleInputs| && !Blank(f.roleInputs[j].value)
      ensures f.roleInputs[j].id in FormProfile(role, f, now)
      ensures FormProfile(role, f, now)[f.roleInputs[j].id] == Text(Trim(f.roleInputs[j].value))
    {
      AddRoleFieldsLastWins(BaseProfile(role, f, now), f.roleInputs, j);
    }
  }

  /** Validation and collection together: a form that passes step 2 yields a
      profile holding every role-specific field the role's layout asks for. */
  lemma ValidProfileHasEveryRoleField(role: string, f: Form, now: int)
    requires LaidOutFor(f, role) && Step2Valid(f)
    ensures forall s :: s in RoleFields(role) ==> s.id in FormProfile(role, f, now)
  {
    FormProfileContents(role, f, now);
    forall s | s in RoleFields(role) ensures s.id in FormProfile(role, f, now) {
      var j :| 0 <= j < |RoleFields(role)| && RoleFields(role)[j] == s;
      assert f.roleInputs[j].id == s.id && f.roleInputs[j].required;
      assert s.id in FilledIds(f.roleInputs);
    }
  }

  /** `Math.floor(100000 + Math.random() * 900000)` for a draw in [0, 1):
      always a number with six digits. */
  function OtpNumber(draw: real): (n: int)
    requires 0.0 <= draw < 1.0
    ensures 100000 <= n <= 999999
  {
    (100000.0 + draw * 900000.0).Floor
  }

  /** The code generateOTP stores: the number's decimal string, six digits
      with no leading zero, from which the number can be read back. */
  function OtpCode(draw: real): (code: string)
    requires 0.0 <= draw < 1.0
    ensures |code| == 6 && AllDigits(code) && code[0] != '0'
    ensures DigitsValue(code) == OtpNumber(draw)
  {
    var n := OtpNumber(draw);
    SixDigits(n);
    DecimalRoundTrip(n);
    DecimalString(n)
  }

  /** What verifyOTPAndRegister decides before it calls the identity provider. */
  datatype OtpVerdict = EnterOtp | InvalidOtp | OtpAccepted

  /** The trimmed entry must be non-empty and equal to the stored code. */
  function CheckOtp(entered: string, data: Doc): (v: OtpVerdict)
    ensures v == EnterOtp <==> Blank(entered)
    ensures v == OtpAccepted <==> !Blank(entered) && Field(data, "otp") == Text(Trim(entered))
  {
    var code := Trim(entered);
    if code == "" then EnterOtp
    else if Field(data, "otp") != Text(code) then InvalidOtp
    else OtpAccepted
  }

  /** Once a code has been generated, exactly the entries that trim to that
      code get through; there is no limit on wrong attempts. */
  lemma OtpGate(entered: string, data: Doc, draw: real)
    requires 0.0 <= draw < 1.0
    requires Field(data, "otp") == Text(OtpCode(draw))
    ensures CheckOtp(entered, data) == OtpAccepted <==> Trim(entered) == OtpCode(draw)
  {
  }

  /** The record persisted under the new identity: the draft without its
      password and one-time code, plus the identity's uid. */
  function StoredProfile(data: Doc, uid: string): (p: Doc)
    ensures "password" !in p && "otp" !in p
    ensures "uid" in p && p["uid"] == Text(uid)
    ensures p.Keys == (data.Keys - {"password", "otp"}) + {"uid"}
    ensures forall k :: k in data && k !in {"password", "otp", "uid"} ==> p[k] == data[k]
  {
    (data - {"password", "otp"})["uid" := Text(uid)]
  }

  /** The profile a completed registration persists still says pending, for
      every role, and carries the role and trimmed e-mail it was given. */
  lemma RegisteredProfileIsPending(role: string, f: Form, now: int, draw: real, uid: string)
    requires LaidOutFor(f, role) && 0.0 <= draw < 1.0
    ensures var p := StoredProfile(FormProfile(role, f, now)["otp" := Text(OtpCode(draw))], uid);
      && Field(p, "status") == Text(PENDING)
      && Field(p, "role") == Text(role)
      && Field(p, "email") == Text(Trim(f.email))
      && "password" !in p
  {
    FormProfileContents(role, f, now);
  }
}
