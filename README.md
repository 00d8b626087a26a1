# Hostel gate-pass management — a verified model of its decision logic

The application is a single browser script, `app.js`, for a hostel's gate-pass
system. Students, parents, security staff, wardens and administrators register
through a three-step wizard: choose a role, fill in the profile, confirm a
one-time code. A new profile waits for a warden's approval before its owner can
sign in. Signing in routes each user to their role's dashboard. Students request gate
passes, and a warden approves or rejects them. Students log leaving and
returning by scanning a security QR code. Parents link their account to their
child's.

This project models that logic in Dafny:

- A document is a map from field name to value (`Records`), and a collection
  is a map from document id to document.
- The identity provider's signed-in user is the `authUser` field of the
  `Backend.Store` class. That class also holds the `users`, `gatepassrequest`,
  `studentStatus` and `scanLogs` collections. Each of its methods is one
  handler that changes them.
- The page's own globals are the fields of the `Client.Page` class:
  `currentStep`, `selectedRole`, `registrationData` and `currentUserData`.
- The pure decisions are functions, and lemmas state what they guarantee:
  - the step-2 validation, the profile record and the one-time code
    (`Registration`);
  - the approve/reject update (`Approval`);
  - login checks and dashboard routing (`Access`);
  - gate-pass submission, the active count, recent activity, child lookup and
    the QR in/out toggle (`GatePasses`).
- Whatever the environment decides is a parameter:
  - the identity provider's answers (the uid, or its error message);
  - whether the registration profile write succeeds;
  - the clock, as an integer timestamp;
  - `Math.random()`'s draw, a real in [0, 1);
  - the fresh id a store assigns;
  - the order in which a query returns its documents.

The model follows the code where it differs from what its own messages and
the roles suggest:

- Every new profile is stored with status `pending`, whatever the role.
- Approve and reject do not check that the record is still pending. A rejected
  pass can be approved again, and it then counts as active again
  (`GatePasses.ApproveRejectedPass`).
- Nothing checks that a gate pass's return time is after its exit time.
- Login with an empty field returns before anything else happens. It does not
  sign out a user who is already signed in. Every later failure does end
  signed out.
- Gate-pass requests live in the collection named `gatepassrequest`.
- A student status document that exists but has no `status` field is read as
  "not In Hostel", so the next scan logs an entry.

## Model

| member | source | states |
|---|---|---|
| Text.TrimStartSpec | app.js:333 | `trim` drops a leading run of white space: what it keeps is a suffix that does not start with white space, and everything it cuts is white space |
| Text.TrimEndSpec | app.js:333 | the same at the end: it keeps a prefix that does not end with white space and cuts only white space |
| Text.BlankIff | app.js:333 | a value that trims to empty is exactly one made only of ECMAScript white space |
| Text.TrimIdempotent | app.js:374-377 | a stored trimmed value trims to itself |
| Text.DecimalString | app.js:394 | `toString` of a non-negative integer is a non-empty digit string with no leading zero |
| Text.DecimalRoundTrip | app.js:394 | reading the printed digits back gives the number |
| Text.DecimalInjective | app.js:409 | two codes print the same exactly when the numbers are equal, so comparing code strings compares numbers |
| Text.SixDigits | app.js:394 | every number from 100000 to 999999 prints as six digits |
| Records.Lookup | app.js:85-86 | fetching a document yields it exactly when its id is in the collection |
| Registration.RoleFields | app.js:201-325 | each role's extra fields are all required, their ids are distinct and none clashes with a common profile key; an unknown role gets none |
| Registration.ValidateStep2 | app.js:327-369 | the verdict is true exactly when all six common fields are non-blank, the passwords match, the raw password has at least 6 characters and every required role input is non-blank; the notices are exactly the mismatch notice when the passwords differ, then the too-short notice when the password is short |
| Registration.CollectFormData | app.js:371-391 | the loop builds exactly the profile `FormProfile` describes |
| Registration.AddRoleFieldsFrame | app.js:385-390 | adding role inputs adds exactly the ids of the filled ones and keeps every other key |
| Registration.AddRoleFieldsLastWins | app.js:385-390 | a filled input with no later input of the same id is stored under its id, trimmed |
| Registration.LaidOutIds | app.js:201-325 | on a form laid out for a role, filled ids avoid the common keys and are distinct |
| Registration.FormProfileContents | app.js:371-391 | the profile holds the role, the trimmed common fields, the raw password, status pending for every role, the creation time and a null last login, and a role field exactly when its input is filled, trimmed |
| Registration.ValidProfileHasEveryRoleField | app.js:327-391 | a form that passes step 2 yields a profile with every field its role's layout asks for |
| Registration.OtpNumber | app.js:394 | `Math.floor(100000 + r * 900000)` with r in [0, 1) lies in [100000, 999999] |
| Registration.OtpCode | app.js:393-396 | the stored code has six digits, no leading zero, and reads back as the drawn number |
| Registration.CheckOtp | app.js:402-412 | an entry that trims to empty is asked for again; the entry is accepted exactly when it is non-blank and trims to the stored code |
| Registration.OtpGate | app.js:402-412 | once a code is generated, exactly the entries that trim to it pass |
| Registration.StoredProfile | app.js:425-430 | the persisted record is the draft without `password` and `otp`, plus `uid`; every other field is kept |
| Registration.RegisteredProfileIsPending | app.js:371-430 | a completed registration persists status pending, the chosen role, the trimmed e-mail and no password |
| Approval.Decided | app.js:838-906 | a decision sets status, its own time and its own approver, keeps every other field and removes none, whatever the earlier status |
| Approval.SecondDecisionOverrides | app.js:872-906 | deciding again overwrites the status, and the record then carries both decisions' stamps |
| Access.RoleOf | app.js:112-131 | a role field selects a dashboard exactly when it is one of the five role names, and that dashboard is the one named |
| Access.Route | app.js:81-131 | only an approved profile with a known role reaches a dashboard, its role's one; a missing profile, a pending one and an approved one with an unknown role each end signed out with their own notice |
| Access.LoginDecision | app.js:451-502 | login succeeds exactly when all fields are filled, the provider signs in, the profile exists, its role is the one selected and it is approved; a provider refusal reports the provider's message, or "Login failed" when that message is empty, a missing profile reports exactly that, and a role mismatch is reported before the status |
| Access.LoginThenRoute | app.js:451-502 | after a successful login the routing sends the user to the dashboard of the role selected at login, or signs them out if that role has none |
| Access.FreshProfileIsLockedOut | app.js:379 | a freshly registered profile is routed to "pending approval" and refused at login, for every role |
| Access.DecisionThenRoute | app.js:838-870 | approving a profile with a known role opens its dashboard; rejecting it signs its owner out as rejected |
| Backend.Store.constructor | app.js:4 | the store starts with empty collections and nobody signed in |
| Backend.Store.SignOut | app.js:136 | signing out clears the signed-in user and nothing else |
| Backend.Store.HandleLogin | app.js:451-502 | the outcome is `LoginDecision`'s; success stamps `lastLogin` and keeps the user signed in; empty fields change nothing; every other failure ends signed out |
| Backend.Store.DecideUser | app.js:838-870 | with a signed-in user and an existing profile the profile becomes `Decided`; without a user or with a missing id nothing changes |
| Backend.Store.DecideGatePass | app.js:872-906 | the same for a gate-pass request, with no pending check |
| Backend.Store.SubmitGatePassRequest | app.js:990-1038 | a form that fails its checks, or a missing user, adds nothing; otherwise exactly the new pending pass owned by the user is added |
| Backend.Store.ProcessQRCode | app.js:1067-1122 | a refused code or a missing user changes nothing; otherwise the user's status becomes the toggled one and exactly one log entry with the matching action is appended |
| GatePasses.PassFormError | app.js:999-1007 | a submission is refused when reason, destination, exit or return time is empty, and after that when the reason is "other" with no text; it is accepted exactly when both checks pass, so the times are never compared |
| GatePasses.NewPassReadBack | app.js:1012-1022 | the stored pass is pending, owned by the submitter, with a non-empty reason and the entered destination, exit and return times and contact person |
| GatePasses.ActiveCount | app.js:584-586 | the number of records whose status is pending or approved, at most the number of records |
| GatePasses.ActiveCountUpdate | app.js:584-586 | replacing one record changes the count only by that record's own contribution |
| GatePasses.DecidePendingPass | app.js:872-906 | rejecting a pending pass lowers the active count by one; approving it keeps the count |
| GatePasses.ApproveRejectedPass | app.js:872-888 | approving a rejected pass raises the active count by one |
| GatePasses.SubmittedPassCounts | app.js:1012-1025 | a newly submitted pass raises the active count by one |
| GatePasses.Insert | app.js:615-619 | inserting a record adds exactly that record |
| GatePasses.InsertKeepsOrder | app.js:615-619 | inserting into a newest-first list keeps it newest first |
| GatePasses.SortNewestFirst | app.js:615-619 | the sort is a permutation of the records |
| GatePasses.SortNewestFirstOrders | app.js:615-619 | the sort leaves the records newest first by `createdAt`, else `timestamp`, else 0 |
| GatePasses.NewestFirstSplit | app.js:615-619 | cutting a newest-first list leaves a newest-first head, and nothing in the tail is newer than anything in the head |
| GatePasses.RecentActivitySpec | app.js:1382-1386 | the recent list holds min(5, n) of the records, newest first, and every record left out is no newer than every record shown |
| GatePasses.FirstStudent | app.js:1294-1310 | the chosen user is a student with that student id, and no earlier user in the result order is; no match means no user matches |
| GatePasses.FirstStudentComplete | app.js:1294-1310 | when the result order lists every stored user, no match means no stored user is a student with that id |
| GatePasses.LinkedParent | app.js:1312-1322 | the parent keeps every field and gains the child's uid, name and student id |
| GatePasses.CheckQrCode | app.js:1068-1077 | an entry that trims to empty is asked for again; a non-empty one without the "GP-SEC-" prefix is refused as an invalid format, never as a failed scan; an entry passes exactly when its trimmed form starts with "GP-SEC-", and the trimmed form is what is recorded |
| GatePasses.NextPresence | app.js:1081-1084 | the new status is "Out of Hostel" exactly when the student was read as "In Hostel" (a missing status document reads so), else "In Hostel" |
| GatePasses.ActionFor | app.js:1086 | the action is an exit exactly when the new status is "Out of Hostel" |
| GatePasses.ScansAlternate | app.js:1079-1094 | the scan after a scan records the other status and the opposite action |
| GatePasses.UnknownStatusScansIn | app.js:1081-1084 | a status document with any status but "In Hostel", or none, makes the next scan an entry |
| Client.UserRecord | app.js:87 | the loaded profile is the stored one plus its id, a stored `id` field winning |
| Records.ShownMessage | app.js:446 | the message a failure shows is the provider's when non-empty, and the handler's fallback ("Registration failed", "Login failed") when it is empty |
| Client.Page.constructor | app.js:148-150 | the wizard starts on step 1 with no role and an empty draft |
| Client.Page.SelectRole | app.js:152-162 | choosing a role records it and changes nothing else |
| Client.Page.ShowStep | app.js:189-199 | the wizard shows the given step |
| Client.Page.GenerateOTP | app.js:393-399 | the draft gains a fresh six-digit code, replacing any earlier one |
| Client.Page.NextStep | app.js:164-179 | step 1 moves on only with a non-empty role, and otherwise shows exactly the select-a-role notice; step 2 moves to step 3 exactly when the form is valid, with the collected profile and a fresh code as the draft, and returns the password notices validateStep2 raises; step 3 stays |
| Client.Page.PrevStep | app.js:181-187 | step 3 goes to 2, step 2 to 1, step 1 stays |
| Client.Page.VerifyOTPAndRegister | app.js:401-448 | a refused code changes nothing; a provider failure reports its message; on success the stripped profile is stored under the new uid and nobody is signed in; a failed write leaves the new identity signed in with no profile |
| Client.Page.Logout | app.js:134-145 | signs out and forgets the loaded profile |
| Client.Page.LoadUserData | app.js:81-131 | with nobody signed in nothing happens; otherwise the outcome is `Route`'s, a dashboard keeps the user with the profile loaded, and any other outcome ends signed out |
| Client.Page.LinkChildAccount | app.js:1285-1339 | a blank id or no matching student changes nothing, and a student is reported missing only when no stored user matches; otherwise the first match is written onto the signed-in parent's profile and onto the loaded profile |

## Left out

- The DOM: rendering, modals, notifications and the loading spinner are not
  modelled. Form fields are strings and notifications are returned values.
- The live `onSnapshot` listeners, `onAuthStateChanged` and the timers
  (`setTimeout`) are left out: they are asynchronous. `Client.Page.LoadUserData` is
  the handler the auth listener runs. For example, it would sign out the
  identity a failed registration write leaves behind.
- Failed writes other than the registration profile write are not modelled.
  These writes always succeed unless the document is missing or nobody is
  signed in: the `updateDoc` of approveUser, rejectUser, approveGatePass and
  rejectGatePass; the `addDoc` of submitGatePassRequest; the `updateDoc` of
  linkChildAccount; and the `setDoc` and `addDoc` of processQRCode. The two
  writes of processQRCode are not atomic. A failed `addDoc` leaves the status
  flipped with no log entry and reports an error, and
  `Backend.Store.ProcessQRCode` cannot express that half-done scan.
- Errors of the store reads and the `lastLogin` write during login and
  `loadUserData` are not modelled, nor are failures of the `getDoc` of the
  student's status in processQRCode (app.js:1082) and of the `getDocs` of the
  student query in linkChildAccount (app.js:1303); these reads are modelled
  as always answering: the provider's own failures cannot be seen
  in this script. Likewise a failing `signOut`.
- `Date`: timestamps are integers. The sort's `'0'` fallback is 0, although
  JavaScript parses `'0'` as a date in the year 2000.
- Sort stability: the model's sort keeps records with equal times in their
  given order. JavaScript's `sort` does too, but no lemma states it.
- `Math.random` is a real draw in [0, 1). Floating-point rounding is not
  modelled.
- Strings are sequences of code points. JavaScript lengths count UTF-16 code
  units, so a password of astral characters is longer there.
- The registration code only checks the role-specific fields that are laid
  out. `LaidOutFor` states that layout; the HTML itself is not modelled.
- The security dashboard's date-range query, the warden and admin statistics,
  and the food schedule, complaints and admin placeholder screens are not
  modelled. Neither are the password visibility toggle and the clipboard.
- `Client.Page.SelectRole`: the half-second timer that then calls `nextStep` is
  left to the caller, which calls `Client.Page.NextStep`.
- `GatePasses.ActiveCount` and `GatePasses.RecentActivity` take the query's
  snapshot as their input. The query's `studentId == currentUser.uid` filter
  (app.js:575-578, 592-596) is not modelled, and no lemma ties the snapshot
  to `Backend.Store`'s `gatePasses`.
- `Backend.Store.SubmitGatePassRequest`: the store's fresh document id is a
  parameter, and it is required not to be in use.
- Writes of `undefined` fields are refused by the store. The model covers this
  only where a field can be missing: a linked child without `fullName`.
- `Client.Page.LinkChildAccount`: the query's result order is a parameter. It
  is required to list every stored user, as the query's answer covers the
  whole collection.
