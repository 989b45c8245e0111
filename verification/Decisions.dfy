/** Decisions held for a human: what a stored decision means at a given time, and one reviewer's attempt to resolve it. */
module Decisions {
  import opened Order
  import opened Json

  datatype Status = Pending | Approved | Denied

  /** What a reader is shown; expiry is computed, never stored. */
  datatype Shown = ShownPending | ShownApproved | ShownDenied | ShownExpired

  datatype OnTimeout = TimeoutDeny | TimeoutAllow

  /** The keys of the sparse queue index. */
  datatype IndexKeys = IndexKeys(gsi1pk: string, gsi1sk: string)

  datatype Decision = Decision(
    id: string, tenant: string, status: Status, createdAt: string, expiresAt: int, onTimeout: OnTimeout,
    details: Json, auditSeq: nat,
    resolvedAt: Option<string>, reviewer: Option<string>, reason: Option<string>,
    indexKeys: Option<IndexKeys>)

  function QueuePartition(tenant: string): string { "TENANT#" + tenant + "#PENDING" }

  function QueueSortKey(createdAt: string, id: string): string { createdAt + "#" + id }

  /** `build_pending(...)` as `create` stores it: pending, and in the index. */
  function NewPending(id: string, tenant: string, createdAt: string, expiresAt: int, onTimeout: OnTimeout,
                      details: Json, auditSeq: nat): Decision {
    Decision(id, tenant, Pending, createdAt, expiresAt, onTimeout, details, auditSeq, None, None, None,
             Some(IndexKeys(QueuePartition(tenant), QueueSortKey(createdAt, id))))
  }

  /** `is_expired` at clock reading t. */
  predicate IsExpired(d: Decision, t: real) { d.status == Pending && t >= d.expiresAt as real }

  /** `effective_status` */
  function EffectiveStatus(d: Decision, t: real): Shown {
    if IsExpired(d, t) then ShownExpired
    else match d.status
      case Pending => ShownPending
      case Approved => ShownApproved
      case Denied => ShownDenied
  }

  /** `allows_execution` */
  predicate AllowsExecution(d: Decision, t: real) {
    match EffectiveStatus(d, t)
    case ShownApproved => true
    case ShownExpired => d.onTimeout == TimeoutAllow
    case _ => false
  }

  /** What a reader is shown, and when the action may go ahead: a reviewer approved it, or the window closed on a decision
      nobody answered and its rule allows that. */
  lemma ShownAndAllowed(d: Decision, t: real)
    ensures EffectiveStatus(d, t) == ShownPending <==> d.status == Pending && t < d.expiresAt as real
    ensures EffectiveStatus(d, t) == ShownExpired <==> d.status == Pending && t >= d.expiresAt as real
    ensures EffectiveStatus(d, t) == ShownApproved <==> d.status == Approved
    ensures EffectiveStatus(d, t) == ShownDenied <==> d.status == Denied
    ensures AllowsExecution(d, t)
       <==> d.status == Approved || (d.status == Pending && t >= d.expiresAt as real && d.onTimeout == TimeoutAllow)
  {
  }

  /** The update's condition compares whole seconds; for a whole expiry that is the comparison of clock readings. */
  lemma WholeSeconds(expiresAt: int, t: real)
    ensures expiresAt > t.Floor <==> t < expiresAt as real
  {
    assert t.Floor as real <= t < (t.Floor + 1) as real;
  }

  // ---------------------------------------------------------------------------------------
  // One call of `resolve`
  // ---------------------------------------------------------------------------------------

  type DecisionTable = map<(string, string), Decision>

  datatype Ruling = Ruling(tenant: string, id: string, approve: bool, reviewer: string, reason: string)

  datatype Reviewer =
    | ToRead
    | ToCapture(current: Decision)
    | ToUpdate(now: int)                 // the clock captured before the write
    | ToReread
    | Resolved(decision: Decision, captured: int)
    | Conflict(status: Shown, winner: Option<string>)   // DecisionAlreadyResolved
    | NotFound                           // DecisionNotFound
    | Failed                             // any other client error

  /** The update expression: new status, who and why, and out of the index. */
  function Rule(d: Decision, r: Ruling, resolvedAt: string): Decision {
    d.(status := if r.approve then Approved else Denied, resolvedAt := Some(resolvedAt),
       reviewer := Some(r.reviewer), reason := Some(r.reason), indexKeys := None)
  }

  /** The next step of a resolve call at clock reading t; `healthy` is false when the service errs. */
  function StepReviewer(table: DecisionTable, r: Ruling, v: Reviewer, t: real, resolvedAt: string, healthy: bool)
    : (DecisionTable, Reviewer)
  {
    var key := (r.tenant, r.id);
    match v
    case ToRead =>
      if !healthy then (table, Failed)
      else if key !in table then (table, NotFound)
      else if IsExpired(table[key], t) then (table, Conflict(ShownExpired, None))
      else (table, ToCapture(table[key]))
    case ToCapture(_) => (table, ToUpdate(t.Floor))
    case ToUpdate(now) =>
      if !healthy then (table, Failed)
      else if key in table && table[key].status == Pending && table[key].expiresAt > now then
        var d := Rule(table[key], r, resolvedAt);
        (table[key := d], Resolved(d, now))
      else (table, ToReread)
    case ToReread =>
      if !healthy then (table, Failed)
      else if key !in table then (table, NotFound)
      else (table, Conflict(EffectiveStatus(table[key], t), table[key].reviewer))
    case _ => (table, v)
  }

  // ---------------------------------------------------------------------------------------
  // What a lone reviewer gets
  // ---------------------------------------------------------------------------------------

  datatype Outcome = Settled(decision: Decision) | AlreadyResolved(status: Shown, winner: Option<string>) | Missing

  /** The decision with the judgement on it, and out of the index; nothing else of it changes. */
  predicate Judged(before: Decision, after: Decision, r: Ruling, resolvedAt: string) {
    && after.status == (if r.approve then Approved else Denied)
    && after.reviewer == Some(r.reviewer) && after.reason == Some(r.reason) && after.resolvedAt == Some(resolvedAt)
    && after.indexKeys == None
    && after.id == before.id && after.tenant == before.tenant && after.createdAt == before.createdAt
    && after.expiresAt == before.expiresAt && after.onTimeout == before.onTimeout
    && after.details == before.details && after.auditSeq == before.auditSeq
  }

  /** A call of `resolve` at clock reading t: a pending decision is judged while its window is open; otherwise nothing
      changes, and the reviewer is told of the expiry, or who decided what before. */
  ghost predicate Settles(table: DecisionTable, r: Ruling, t: real, resolvedAt: string, after: DecisionTable,
                          outcome: Outcome)
  {
    var k := (r.tenant, r.id);
    if k !in table then after == table && outcome == Missing
    else if table[k].status == Pending && t < table[k].expiresAt as real then
      && outcome.Settled? && Judged(table[k], outcome.decision, r, resolvedAt) && after == table[k := outcome.decision]
    else
      && after == table
      && match table[k].status
         case Pending => outcome == AlreadyResolved(ShownExpired, None)
         case Approved => outcome == AlreadyResolved(ShownApproved, table[k].reviewer)
         case Denied => outcome == AlreadyResolved(ShownDenied, table[k].reviewer)
  }

  /** The outcome a call has ended with. */
  predicate EndsAs(v: Reviewer, outcome: Outcome) {
    match outcome
    case Settled(d) => v.Resolved? && v.decision == d
    case AlreadyResolved(status, winner) => v == Conflict(status, winner)
    case Missing => v == NotFound
  }

  /** Left alone, the conditional update of the table-backed repository settles a decision just so. */
  lemma LoneReviewer(table: DecisionTable, r: Ruling, t: real, resolvedAt: string) returns (outcome: Outcome)
    ensures var (a, v1) := StepReviewer(table, r, ToRead, t, resolvedAt, true);
            var (b, v2) := StepReviewer(a, r, v1, t, resolvedAt, true);
            var (c, v3) := StepReviewer(b, r, v2, t, resolvedAt, true);
            var (d, v4) := StepReviewer(c, r, v3, t, resolvedAt, true);
            EndsAs(v4, outcome) && Settles(table, r, t, resolvedAt, d, outcome)
  {
    var k := (r.tenant, r.id);
    if k !in table {
      return Missing;
    }
    WholeSeconds(table[k].expiresAt, t);
    if table[k].status == Pending && t < table[k].expiresAt as real {
      return Settled(Rule(table[k], r, resolvedAt));
    }
    return AlreadyResolved(EffectiveStatus(table[k], t), if table[k].status == Pending then None else table[k].reviewer);
  }

  /** Each step touches the table only in the update; an error of the service ends the call and writes nothing. */
  lemma StepTouches(table: DecisionTable, r: Ruling, v: Reviewer, t: real, resolvedAt: string)
    ensures !v.ToUpdate? ==> StepReviewer(table, r, v, t, resolvedAt, true).0 == table
    ensures v.ToRead? || v.ToUpdate? || v.ToReread? ==> StepReviewer(table, r, v, t, resolvedAt, false) == (table, Failed)
  {
  }
}
