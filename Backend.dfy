/** The document store and the identity provider as the application changes
    them: the `users`, `gatepassrequest`, `studentStatus` and `scanLogs`
    collections, and the identity currently signed in. Each operation is one
    handler of the application, with the provider's answers (sign-in outcome,
    clock, fresh document id) passed in. */
module Backend {
  import opened Records
  import opened Approval
  import opened Access
  import opened GatePasses

  /** Why a warden's decision is not applied. */
  datatype UpdateError =
    | NotSignedIn     // `currentUser.uid` throws before the update is sent
    | NoSuchDocument  // the update of a missing document fails

  class Store {
    /** The identity provider's current user, which the application mirrors in `currentUser`. */
    var authUser: Option<string>
    var users: map<string, Doc>
    /** The `gatepassrequest` collection. */
    var gatePasses: map<string, Doc>
    var studentStatus: map<string, Doc>
    var scanLogs: seq<Doc>

    constructor ()
      ensures authUser.None? && users == map[] && gatePasses == map[]
      ensures studentStatus == map[] && scanLogs == []
    {
      authUser := None;
      users := map[];
      gatePasses := map[];
      studentStatus := map[];
      scanLogs := [];
    }

    /** `signOut(auth)` */
    method SignOut()
      modifies this
      ensures authUser.None?
      ensures users == old(users) && gatePasses == old(gatePasses)
      ensures studentStatus == old(studentStatus) && scanLogs == old(scanLogs)
    {
      authUser := None;
    }

    /** handleLogin, given the provider's answer to the sign-in attempt. A
        login that passes every check stamps `lastLogin` and leaves the user
        signed in; empty fields return before anything is attempted; every
        other failure ends with nobody signed in. */
    method HandleLogin(credential: string, password: string, role: string,
                       signIn: Result<string, string>, now: int) returns (o: Result<string, LoginError>)
      modifies this
      ensures o == LoginDecision(credential, password, role, signIn, old(users))
      ensures o.Ok? ==>
        && authUser == Some(o.value) && o.value in old(users)
        && users == old(users)[o.value := old(users)[o.value]["lastLogin" := Stamp(now)]]
      ensures o == Err(FillAllFields) ==> authUser == old(authUser) && users == old(users)
      ensures o.Err? && o != Err(FillAllFields) ==> authUser.None? && users == old(users)
      ensures gatePasses == old(gatePasses) && studentStatus == old(studentStatus) && scanLogs == old(scanLogs)
    {
      o := LoginDecision(credential, password, role, signIn, users);
      if o == Err(FillAllFields) {
        return;
      }
      if o.Ok? {
        authUser := Some(o.value);
        users := users[o.value := users[o.value]["lastLogin" := Stamp(now)]];
      } else {
        // The catch block signs out whoever the provider holds.
        authUser := None;
      }
    }

    /** approveUser / rejectUser: the decision is stamped with the signed-in
        user's uid, whatever the profile's status was. */
    method DecideUser(userId: string, d: Decision, now: int) returns (o: Result<Doc, UpdateError>)
      modifies this
      ensures authUser.None? ==> o == Err(NotSignedIn) && users == old(users)
      ensures authUser.Some? && userId !in old(users) ==> o == Err(NoSuchDocument) && users == old(users)
      ensures authUser.Some? && userId in old(users) ==>
        o == Ok(Decided(old(users)[userId], d, authUser.value, now))
        && users == old(users)[userId := o.value]
      ensures authUser == old(authUser) && gatePasses == old(gatePasses)
      ensures studentStatus == old(studentStatus) && scanLogs == old(scanLogs)
    {
      if authUser.None? {
        return Err(NotSignedIn);
      }
      if userId !in users {
        return Err(NoSuchDocument);
      }
      var updated := Decided(users[userId], d, authUser.value, now);
      users := users[userId := updated];
      o := Ok(updated);
    }

    /** approveGatePass / rejectGatePass on the `gatepassrequest` collection,
        with no check that the request is still pending. */
    method DecideGatePass(requestId: string, d: Decision, now: int) returns (o: Result<Doc, UpdateError>)
      modifies this
      ensures authUser.None? ==> o == Err(NotSignedIn) && gatePasses == old(gatePasses)
      ensures authUser.Some? && requestId !in old(gatePasses) ==> o == Err(NoSuchDocument) && gatePasses == old(gatePasses)
      ensures authUser.Some? && requestId in old(gatePasses) ==>
        o == Ok(Decided(old(gatePasses)[requestId], d, authUser.value, now))
        && gatePasses == old(gatePasses)[requestId := o.value]
      ensures authUser == old(authUser) && users == old(users)
      ensures studentStatus == old(studentStatus) && scanLogs == old(scanLogs)
    {
      if authUser.None? {
        return Err(NotSignedIn);
      }
      if requestId !in gatePasses {
        return Err(NoSuchDocument);
      }
      var updated := Decided(gatePasses[requestId], d, authUser.value, now);
      gatePasses := gatePasses[requestId := updated];
      o := Ok(updated);
    }

    /** submitGatePassRequest: the form checks come first; the record is then
        added under the fresh id the store assigns, owned by the signed-in user. */
    method SubmitGatePassRequest(f: PassForm, now: int, newId: string) returns (o: Result<string, SubmitError>)
      requires newId !in gatePasses
      modifies this
      ensures PassFormError(f).Some? ==> o == Err(PassFormError(f).value) && gatePasses == old(gatePasses)
      ensures PassFormError(f).None? && authUser.None? ==> o == Err(SubmitFailed) && gatePasses == old(gatePasses)
      ensures PassFormError(f).None? && authUser.Some? ==>
        o == Ok(newId) && gatePasses == old(gatePasses)[newId := NewPass(authUser.value, f, now)]
      ensures authUser == old(authUser) && users == old(users)
      ensures studentStatus == old(studentStatus) && scanLogs == old(scanLogs)
    {
      var e := PassFormError(f);
      if e.Some? {
        return Err(e.value);
      }
      if authUser.None? {
        return Err(SubmitFailed);
      }
      gatePasses := gatePasses[newId := NewPass(authUser.value, f, now)];
      o := Ok(newId);
    }

    /** processQRCode: after the code checks, the signed-in student's status
        is flipped and the scan is appended to the log. The result is the
        action logged. */
    method ProcessQRCode(input: string, now: int) returns (o: Result<ScanAction, QrError>)
      modifies this
      ensures CheckQrCode(input).Err? ==>
        && o == Err(CheckQrCode(input).error)
        && studentStatus == old(studentStatus) && scanLogs == old(scanLogs)
      ensures CheckQrCode(input).Ok? && authUser.None? ==>
        && o == Err(ScanFailed)
        && studentStatus == old(studentStatus) && scanLogs == old(scanLogs)
      ensures CheckQrCode(input).Ok? && authUser.Some? ==>
        var uid := authUser.value;
        var code := CheckQrCode(input).value;
        var next := NextPresence(Lookup(old(studentStatus), uid));
        && o == Ok(ActionFor(next))
        && studentStatus == old(studentStatus)[uid := StatusRecord(next, code, now)]
        && scanLogs == old(scanLogs) + [ScanLog(uid, next, code, now)]
      ensures authUser == old(authUser) && users == old(users) && gatePasses == old(gatePasses)
    {
      var checked := CheckQrCode(input);
      if checked.Err? {
        return Err(checked.error);
      }
      if authUser.None? {
        return Err(ScanFailed);
      }
      var uid := authUser.value;
      var next := NextPresence(Lookup(studentStatus, uid));
      studentStatus := studentStatus[uid := StatusRecord(next, checked.value, now)];
      scanLogs := scanLogs + [ScanLog(uid, next, checked.value, now)];
      o := Ok(ActionFor(next));
    }
  }
}
