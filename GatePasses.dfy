/** The gate-pass workflow's decisions over records of the `gatepassrequest`
    collection: what a submission stores, which passes count as active, which
    five show as recent activity, which student a parent links to, and the
    in/out toggle a QR scan applies. */
module GatePasses {
  import opened Text
  import opened Records
  import opened Approval

  // ---------------------------------------------------------------------
  // Submission

  /** The request form as submitted: the values are taken as they are, untrimmed. */
  datatype PassForm = PassForm(
    reason: string, otherReason: string, destination: string,
    exitTime: string, returnTime: string, contactPerson: string)

  datatype SubmitError = FillRequiredFields | SpecifyReason | SubmitFailed

  const OTHER_REASON := "other"

  /** submitGatePassRequest's two checks, in order: reason, destination, exit
      and return time must be non-empty; reason "other" needs its free text.
      The two times are not compared with each other. */
  function PassFormError(f: PassForm): (e: Option<SubmitError>)
    ensures e == Some(FillRequiredFields) <==>
      f.reason == "" || f.destination == "" || f.exitTime == "" || f.returnTime == ""
    ensures e == Some(SpecifyReason) <==>
      f.reason == OTHER_REASON && f.otherReason == ""
      && f.destination != "" && f.exitTime != "" && f.returnTime != ""
    ensures e.None? <==>
      f.reason != "" && f.destination != "" && f.exitTime != "" && f.returnTime != ""
      && (f.reason == OTHER_REASON ==> f.otherReason != "")
  {
    if f.reason == "" || f.destination == "" || f.exitTime == "" || f.returnTime == "" then
      Some(FillRequiredFields)
    else if f.reason == OTHER_REASON && f.otherReason == "" then Some(SpecifyReason)
    else None
  }

  /** The reason stored: the free text when "other" was chosen. */
  function StoredReason(f: PassForm): string {
    if f.reason == OTHER_REASON then f.otherReason else f.reason
  }

  /** The record submitGatePassRequest adds. */
  function NewPass(uid: string, f: PassForm, now: int): Doc {
    map[
      "studentId" := Text(uid),
      "reason" := Text(StoredReason(f)),
      "destination" := Text(f.destination),
      "exitTime" := Text(f.exitTime),
      "returnTime" := Text(f.returnTime),
      "contactPerson" := Text(f.contactPerson),
      "status" := Text(PENDING),
      "createdAt" := Stamp(now),
      "timestamp" := Stamp(now)
    ]
  }

  /** Reading back a submitted pass: it is pending, owned by the submitter,
      carries a non-empty reason and the other form values as entered, with
      no ordering imposed between exit and return time. */
  lemma NewPassReadBack(uid: string, f: PassForm, now: int)
    requires PassFormError(f).None?
    ensures var p := NewPass(uid, f, now);
      && Field(p, "status") == Text(PENDING)
      && Field(p, "studentId") == Text(uid)
      && Field(p, "reason") == Text(StoredReason(f)) && StoredReason(f) != ""
      && Field(p, "destination") == Text(f.destination)
      && Field(p, "exitTime") == Text(f.exitTime)
      && Field(p, "returnTime") == Text(f.returnTime)
      && Field(p, "contactPerson") == Text(f.contactPerson)
  {
  }

  // ---------------------------------------------------------------------
  // Active passes

  /** `['pending', 'approved'].includes(doc.data().status)` */
  predicate IsActive(d: Doc) {
    Field(d, "status") == Text(PENDING) || Field(d, "status") == Text(APPROVED)
  }

  /** `docs.filter(IsActive).length` */
  function ActiveCount(docs: seq<Doc>): (n: nat)
    ensures n <= |docs|
  {
    if docs == [] then 0
    else ActiveCount(docs[..|docs| - 1]) + (if IsActive(docs[|docs| - 1]) then 1 else 0)
  }

  /** Replacing one record changes the count only by that record's own
      contribution. */
  lemma {:induction false} ActiveCountUpdate(docs: seq<Doc>, i: nat, d: Doc)
    requires i < |docs|
    ensures ActiveCount(docs[i := d]) ==
      ActiveCount(docs) - (if IsActive(docs[i]) then 1 else 0) + (if IsActive(d) then 1 else 0)
    decreases |docs|
  {
    var last := |docs| - 1;
    if i < last {
      assert docs[i := d][..last] == docs[..last][i := d];
      ActiveCountUpdate(docs[..last], i, d);
    } else {
      assert docs[i := d][..last] == docs[..last];
    }
  }

  /** Rejecting one of a student's pending passes lowers the active count by
      exactly one; approving it leaves the count as it was. */
  lemma DecidePendingPass(docs: seq<Doc>, i: nat, d: Decision, approver: string, now: int)
    requires i < |docs| && Field(docs[i], "status") == Text(PENDING)
    ensures d == Reject ==> ActiveCount(docs[i := Decided(docs[i], d, approver, now)]) == ActiveCount(docs) - 1
    ensures d == Approve ==> ActiveCount(docs[i := Decided(docs[i], d, approver, now)]) == ActiveCount(docs)
  {
    ActiveCountUpdate(docs, i, Decided(docs[i], d, approver, now));
  }

  /** Since nothing guards a decision, approving a pass that was already
      rejected makes it active again and raises the count by one. */
  lemma ApproveRejectedPass(docs: seq<Doc>, i: nat, approver: string, now: int)
    requires i < |docs| && Field(docs[i], "status") == Text(REJECTED)
    ensures ActiveCount(docs[i := Decided(docs[i], Approve, approver, now)]) == ActiveCount(docs) + 1
  {
    ActiveCountUpdate(docs, i, Decided(docs[i], Approve, approver, now));
  }

  /** A newly submitted pass is active, so it adds one to the count. */
  lemma SubmittedPassCounts(docs: seq<Doc>, uid: string, f: PassForm, now: int)
    ensures ActiveCount(docs + [NewPass(uid, f, now)]) == ActiveCount(docs) + 1
  {
  }

  // ---------------------------------------------------------------------
  // Recent activity: sort by time, newest first, and keep five

  /** `createdAt || timestamp || '0'`, read as a time. */
  function SortKey(d: Doc): int {
    match Field(d, "createdAt")
    case Stamp(t) => t
    case _ =>
      match Field(d, "timestamp")
      case Stamp(t) => t
      case _ => 0
  }

  predicate NewestFirst(s: seq<Doc>) {
    forall i, j :: 0 <= i < j < |s| ==> SortKey(s[i]) >= SortKey(s[j])
  }

  /** Places `d` after every record at least as new, so that among equal
      keys the earlier record stays first. */
  function Insert(sorted: seq<Doc>, d: Doc): (r: seq<Doc>)
    ensures multiset(r) == multiset(sorted) + multiset{d}
    ensures |r| == |sorted| + 1
  {
    if sorted == [] then [d]
    else if SortKey(sorted[0]) >= SortKey(d) then
      assert sorted == [sorted[0]] + sorted[1..];
      [sorted[0]] + Insert(sorted[1..], d)
    else [d] + sorted
  }

  lemma {:induction false} InsertKeepsOrder(sorted: seq<Doc>, d: Doc)
    requires NewestFirst(sorted)
    ensures NewestFirst(Insert(sorted, d))
    decreases |sorted|
  {
    if sorted != [] && SortKey(sorted[0]) >= SortKey(d) {
      InsertKeepsOrder(sorted[1..], d);
      var rest := Insert(sorted[1..], d);
      forall k | 0 <= k < |rest| ensures SortKey(sorted[0]) >= SortKey(rest[k]) {
        assert rest[k] in multiset(rest);
        if rest[k] != d {
          assert rest[k] in multiset(sorted[1..]);
          var m :| 0 <= m < |sorted[1..]| && sorted[1..][m] == rest[k];
          assert sorted[m + 1] == rest[k];
        }
      }
    }
  }

  /** The comparator sort `(a, b) => time(b) - time(a)`: newest first. */
  function SortNewestFirst(docs: seq<Doc>): (r: seq<Doc>)
    ensures multiset(r) == multiset(docs) && |r| == |docs|
  {
    if docs == [] then []
    else
      assert docs == docs[..|docs| - 1] + [docs[|docs| - 1]];
      Insert(SortNewestFirst(docs[..|docs| - 1]), docs[|docs| - 1])
  }

  lemma {:induction false} SortNewestFirstOrders(docs: seq<Doc>)
    ensures NewestFirst(SortNewestFirst(docs))
    decreases |docs|
  {
    if docs != [] {
      SortNewestFirstOrders(docs[..|docs| - 1]);
      InsertKeepsOrder(SortNewestFirst(docs[..|docs| - 1]), docs[|docs| - 1]);
    }
  }

  const RECENT_LIMIT := 5

  /** `.sort(...).slice(0, 5)` as the student and parent dashboards use it. */
  function RecentActivity(docs: seq<Doc>): seq<Doc> {
    var sorted := SortNewestFirst(docs);
    if |sorted| <= RECENT_LIMIT then sorted else sorted[..RECENT_LIMIT]
  }

  /** Cutting a newest-first list leaves a newest-first head, and nothing in
      the tail is newer than anything in the head. */
  lemma NewestFirstSplit(s: seq<Doc>, k: nat)
    requires NewestFirst(s) && k <= |s|
    ensures NewestFirst(s[..k])
    ensures forall d, e :: d in s[k..] && e in s[..k] ==> SortKey(d) <= SortKey(e)
  {
  }

  /** The recent-activity list holds min(5, n) of the given records, newest
      first, and every record left out is no newer than any record shown. */
  lemma RecentActivitySpec(docs: seq<Doc>)
    ensures var r := RecentActivity(docs);
      && |r| == (if |docs| <= RECENT_LIMIT then |docs| else RECENT_LIMIT)
      && NewestFirst(r)
      && multiset(r) <= multiset(docs)
      && forall d, e :: d in multiset(docs) - multiset(r) && e in r ==> SortKey(d) <= SortKey(e)
  {
    var sorted := SortNewestFirst(docs);
    var r := RecentActivity(docs);
    var k := |r|;
    SortNewestFirstOrders(docs);
    NewestFirstSplit(sorted, k);
    assert r == sorted[..k];
    assert sorted == sorted[..k] + sorted[k..];
    assert multiset(docs) == multiset(r) + multiset(sorted[k..]);
    forall d, e | d in multiset(docs) - multiset(r) && e in r ensures SortKey(d) <= SortKey(e) {
      assert d in sorted[k..];
    }
  }

  // ---------------------------------------------------------------------
  // Linking a parent to a student

  /** The query of linkChildAccount: a student profile with that student id. */
  predicate IsStudentNumbered(d: Doc, studentId: string) {
    Field(d, "studentId") == Text(studentId) && Field(d, "role") == Text("student")
  }

  /** `snapshot.docs[0]`: the first user id, in the order the store returns
      them, whose profile matches; the first match wins. */
  function FirstStudent(order: seq<string>, users: map<string, Doc>, studentId: string): (r: Option<nat>)
    ensures r.Some? ==>
      && r.value < |order| && order[r.value] in users
      && IsStudentNumbered(users[order[r.value]], studentId)
      && forall j :: 0 <= j < r.value ==> !(order[j] in users && IsStudentNumbered(users[order[j]], studentId))
    ensures r.None? ==>
      forall j :: 0 <= j < |order| ==> !(order[j] in users && IsStudentNumbered(users[order[j]], studentId))
  {
    if order == [] then None
    else if order[0] in users && IsStudentNumbered(users[order[0]], studentId) then Some(0)
    else match FirstStudent(order[1..], users, studentId)
      case None => None
      case Some(k) => Some(k + 1)
  }

  /** When the result order lists every user, as the query's answer does,
      finding no match means that no stored user is a student with that id. */
  lemma FirstStudentComplete(order: seq<string>, users: map<string, Doc>, studentId: string)
    requires forall u :: u in users ==> u in order
    requires FirstStudent(order, users, studentId).None?
    ensures forall u :: u in users ==> !IsStudentNumbered(users[u], studentId)
  {
  }

  /** The three fields written onto the parent's profile. */
  function LinkedParent(parent: Doc, childUid: string, child: Doc): (r: Doc)
    ensures r.Keys == parent.Keys + {"linkedChild", "childName", "childStudentId"}
    ensures r["linkedChild"] == Text(childUid)
    ensures r["childName"] == Field(child, "fullName")
    ensures r["childStudentId"] == Field(child, "studentId")
    ensures forall k :: k in parent && k != "linkedChild" && k != "childName" && k != "childStudentId" ==>
      r[k] == parent[k]
  {
    parent["linkedChild" := Text(childUid)]["childName" := Field(child, "fullName")]
      ["childStudentId" := Field(child, "studentId")]
  }

  // ---------------------------------------------------------------------
  // QR entry/exit

  const QR_PREFIX := "GP-SEC-"
  const IN_HOSTEL := "In Hostel"
  const OUT_OF_HOSTEL := "Out of Hostel"

  /** Why processQRCode refuses: the first two before any store access, the
      last when the store access fails (no signed-in user). */
  datatype QrError = EnterQrCode | InvalidQrFormat | ScanFailed

  /** processQRCode's input checks: the trimmed code must be non-empty and
      start with "GP-SEC-"; the trimmed code is what gets recorded. */
  function CheckQrCode(input: string): (r: Result<string, QrError>)
    ensures r == Err(EnterQrCode) <==> Blank(input)
    ensures r == Err(InvalidQrFormat) <==> !Blank(input) && !StartsWith(Trim(input), QR_PREFIX)
    ensures r != Err(ScanFailed)
    ensures r.Ok? <==> !Blank(input) && StartsWith(Trim(input), QR_PREFIX)
    ensures r.Ok? ==> r.value == Trim(input) && |r.value| >= |QR_PREFIX|
  {
    var code := Trim(input);
    if |code| == 0 then Err(EnterQrCode)
    else if !StartsWith(code, QR_PREFIX) then Err(InvalidQrFormat)
    else Ok(code)
  }

  /** The status read for a student: a missing status document reads as
      "In Hostel"; an existing one gives its `status` field as it is. */
  function CurrentPresence(statusDoc: Option<Doc>): Value {
    match statusDoc
    case None => Text(IN_HOSTEL)
    case Some(d) => Field(d, "status")
  }

  /** The status a scan records: "Out of Hostel" exactly when the student was
      read as "In Hostel", and "In Hostel" otherwise. */
  function NextPresence(statusDoc: Option<Doc>): (s: string)
    ensures s == IN_HOSTEL || s == OUT_OF_HOSTEL
    ensures s == OUT_OF_HOSTEL <==> CurrentPresence(statusDoc) == Text(IN_HOSTEL)
  {
    if CurrentPresence(statusDoc) == Text(IN_HOSTEL) then OUT_OF_HOSTEL else IN_HOSTEL
  }

  datatype ScanAction = Entry | Exit

  /** The logged action is an exit exactly when the new status is "Out of Hostel". */
  function ActionFor(newStatus: string): (a: ScanAction)
    ensures a == Exit <==> newStatus == OUT_OF_HOSTEL
  {
    if newStatus == OUT_OF_HOSTEL then Exit else Entry
  }

  function ActionName(a: ScanAction): string {
    if a == Exit then "exit" else "entry"
  }

  /** The entry a scan appends to `scanLogs`. */
  function ScanLog(uid: string, newStatus: string, code: string, now: int): Doc {
    map[
      "studentId" := Text(uid),
      "action" := Text(ActionName(ActionFor(newStatus))),
      "qrCode" := Text(code),
      "timestamp" := Stamp(now),
      "status" := Text(newStatus)
    ]
  }

  /** The status document a scan writes, replacing any earlier one. */
  function StatusRecord(newStatus: string, code: string, now: int): Doc {
    map["status" := Text(newStatus), "lastUpdated" := Stamp(now), "qrCode" := Text(code)]
  }

  /** Scans alternate: after a scan, the next scan records the other status
      and the opposite action, so a student is let out and back in by turns. */
  lemma ScansAlternate(statusDoc: Option<Doc>, code: string, now: int)
    ensures var s1 := NextPresence(statusDoc);
      var s2 := NextPresence(Some(StatusRecord(s1, code, now)));
      && s2 != s1
      && ActionFor(s2) != ActionFor(s1)
  {
  }

  /** A status document with any status but "In Hostel", a missing status
      field included, is read as being inside-out: the scan records an entry. */
  lemma UnknownStatusScansIn(d: Doc)
    requires Field(d, "status") != Text(IN_HOSTEL)
    ensures NextPresence(Some(d)) == IN_HOSTEL && ActionFor(NextPresence(Some(d))) == Entry
  {
  }
}
