/** The one update the application applies when a warden approves or rejects,
    the same for a registration (`users`) and for a gate-pass request
    (`gatepassrequest`): overwrite the status and stamp who decided and when. */
module Approval {
  import opened Records

  datatype Decision = Approve | Reject

  function StatusFor(d: Decision): string {
    if d == Approve then APPROVED else REJECTED
  }

  /** The timestamp field the decision writes. */
  function AtKey(d: Decision): string {
    if d == Approve then "approvedAt" else "rejectedAt"
  }

  /** The field naming the approver the decision writes. */
  function ByKey(d: Decision): string {
    if d == Approve then "approvedBy" else "rejectedBy"
  }

  /** `updateDoc(ref, {status, <decision>At, <decision>By})`: the three fields
      are set, every other field keeps its value, and nothing is removed. No
      check is made of the status the record had before. */
  function Decided(doc: Doc, d: Decision, approver: string, now: int): (r: Doc)
    ensures r.Keys == doc.Keys + {"status", AtKey(d), ByKey(d)}
    ensures r["status"] == Text(StatusFor(d))
    ensures r[AtKey(d)] == Stamp(now) && r[ByKey(d)] == Text(approver)
    ensures forall k :: k in doc && k != "status" && k != AtKey(d) && k != ByKey(d) ==> r[k] == doc[k]
  {
    doc["status" := Text(StatusFor(d))][AtKey(d) := Stamp(now)][ByKey(d) := Text(approver)]
  }

  /** Nothing guards a decision against an earlier one: deciding a record a
      second time overwrites its status, and the record then carries both
      decisions' stamps. */
  lemma SecondDecisionOverrides(doc: Doc, first: Decision, second: Decision, a1: string, a2: string, t1: int, t2: int)
    requires first != second
    ensures var r := Decided(Decided(doc, first, a1, t1), second, a2, t2);
      && r["status"] == Text(StatusFor(second))
      && r[AtKey(first)] == Stamp(t1) && r[ByKey(first)] == Text(a1)
      && r[AtKey(second)] == Stamp(t2) && r[ByKey(second)] == Text(a2)
  {
  }
}
