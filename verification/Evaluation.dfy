/** One evaluation: what the handler decides, what it records, and what the record says when it is read back. */
module Evaluation {
  import opened Order
  import opened Json
  import opened HashChain
  import opened AuditLog
  import D = Decisions
  import E = Engine
  import F = Facts
  import P = Policy
  import Slots

  // ---------------------------------------------------------------------------------------
  // The verdict
  // ---------------------------------------------------------------------------------------

  datatype Verdict = Verdict(bundle: P.Bundle, effect: P.Effect, effective: P.Effect, hitl: P.HitlOptions)

  /** A shadow bundle never restrains the caller. */
  function Effective(bundle: P.Bundle, effect: P.Effect): P.Effect {
    if bundle.shadow && P.Restrictive(effect) then P.LogAndAllow else effect
  }

  function Judge(rt: P.Runtime, tenant: string, e: F.Envelope, bundle: P.Bundle): (v: Verdict)
    ensures v.bundle == bundle
  {
    var facts := F.BuildFacts(rt, tenant, e);
    var effect := E.EffectOf(rt, bundle, facts, e.tool);
    var rule := E.WinningRule(E.AsMatches(E.Firing(rt, bundle.rules, facts, e.tool)), effect, bundle);
    Verdict(bundle, effect, Effective(bundle, effect), if rule.Some? then P.HitlOf(rule.value) else P.DEFAULT_HITL)
  }

  /** How long a held call waits and what its expiry means: as the first rule in the file says that fires with this
      effect, and 900 seconds and denial where that rule, or every rule, is silent. */
  ghost predicate Instructs(rt: P.Runtime, b: P.Bundle, facts: P.Value, tool: string, effect: P.Effect, seconds: nat,
                            onTimeout: D.OnTimeout)
  {
    if exists r :: r in b.rules && E.Fires(rt, r, facts, tool) then
      exists n ::
        && E.FirstFiring(rt, b.rules, facts, tool, effect, n)
        && match b.rules[n].hitl
           case None => seconds == 900 && onTimeout == D.TimeoutDeny
           case Some(o) =>
             seconds == o.timeoutSeconds && (onTimeout == D.TimeoutAllow <==> o.onTimeout == P.AllowOnTimeout)
    else seconds == 900 && onTimeout == D.TimeoutDeny
  }

  /** What a caller is told, from the effect the engine gives on the facts of the request: that effect, but from a shadow
      bundle never one that restrains. */
  ghost predicate Tells(rt: P.Runtime, tenant: string, e: F.Envelope, b: P.Bundle, decision: P.Effect, seconds: nat,
                        onTimeout: D.OnTimeout)
  {
    var facts := F.BuildFacts(rt, tenant, e);
    var effect := E.EffectOf(rt, b, facts, e.tool);
    && (b.shadow && (effect == P.Block || effect == P.RequireHitl) ==> decision == P.LogAndAllow)
    && (!b.shadow || effect == P.Allow || effect == P.LogAndAllow ==> decision == effect)
    && (P.UniqueIds(b.rules) ==> Instructs(rt, b, facts, e.tool, effect, seconds, onTimeout))
  }

  lemma VerdictTells(rt: P.Runtime, tenant: string, e: F.Envelope, b: P.Bundle)
    ensures var v := Judge(rt, tenant, e, b);
            && v.bundle == b && v.effect == E.EffectOf(rt, b, F.BuildFacts(rt, tenant, e), e.tool)
            && Tells(rt, tenant, e, b, v.effective, v.hitl.timeoutSeconds, TimeoutOf(v.hitl.onTimeout))
  {
    hide E.EffectOf, E.Firing, E.WinningRule, E.Fires, E.FirstFiring, F.BuildFacts;
    var facts := F.BuildFacts(rt, tenant, e);
    if P.UniqueIds(b.rules) {
      E.WinningRuleExact(rt, b, facts, e.tool);
    }
  }

  function TimeoutOf(a: P.TimeoutAction): D.OnTimeout { if a == P.Deny then D.TimeoutDeny else D.TimeoutAllow }

  function WireName(e: P.Effect): string {
    match e
    case Allow => "allow"
    case LogAndAllow => "log_and_allow"
    case RequireHitl => "require_hitl"
    case Block => "block"
  }

  // ---------------------------------------------------------------------------------------
  // The record
  // ---------------------------------------------------------------------------------------

  /** What a record states about the evaluation, besides its id, tenant and time. */
  datatype Entry = Entry(envelope: F.Envelope, effect: P.Effect, dryRun: bool, bundleId: string, bundleVersion: nat)

  function EntryFields(e: Entry): seq<Member> {
    [Member("tool", Str(e.envelope.tool)), Member("agent_id", Str(e.envelope.agentId)),
     Member("arguments", e.envelope.arguments), Member("context", e.envelope.context),
     Member("principal", if e.envelope.principal.members == [] then Null else e.envelope.principal),
     Member("dry_run", Bool(e.dryRun)), Member("effect", Str(WireName(e.effect))),
     Member("bundle_id", Str(e.bundleId)), Member("bundle_version", Num(Slots.Decimal(e.bundleVersion)))]
  }

  const ENTRY_KEYS := ["tool", "agent_id", "arguments", "context", "principal", "dry_run", "effect", "bundle_id",
                       "bundle_version"]

  /** The other entries of the payload: session, request, derived facts, matched rules, message, timings. */
  ghost predicate ValidExtra(ms: seq<Member>) {
    DistinctKeysOf(ms)
    && forall m | m in ms ::
         && m.key !in ENTRY_KEYS && m.key != "decision_id" && m.key != "timestamp" && m.key != "tenant_id"
         && WellFormed(m.value)
  }

  type Extra = ms: seq<Member> | ValidExtra(ms) witness []

  lemma {:induction false} DecimalWord(n: nat)
    ensures forall c | c in Slots.Decimal(n) :: IsDigit(c)
    ensures Slots.Decimal(n) != "" && (n > 0 ==> Slots.Decimal(n)[0] != '0')
  {
    if n >= 10 {
      DecimalWord(n / 10);
    }
  }

  lemma {:induction false} AllDigits(s: string)
    requires forall c | c in s :: IsDigit(c)
    ensures AfterDigits(s) == "" && IsWord(s)
  {
    if s != "" {
      AllDigits(s[1..]);
      assert s == [s[0]] + s[1..];
    }
  }

  lemma DecimalIsNumber(n: nat)
    ensures WellFormed(Num(Slots.Decimal(n)))
  {
    DecimalWord(n);
    AllDigits(Slots.Decimal(n));
    if n == 0 {
      assert Slots.Decimal(0) == "0";
    }
  }

  lemma EntryValues(e: Entry)
    ensures forall m | m in EntryFields(e) :: WellFormed(m.value)
  {
    DecimalIsNumber(e.bundleVersion);
    hide Slots.Decimal, WireName, IsNumber, IsWord;
    var fs := EntryFields(e);
    assert WellFormed(fs[0].value) && WellFormed(fs[1].value) && WellFormed(fs[2].value) && WellFormed(fs[3].value);
    assert WellFormed(fs[4].value) && WellFormed(fs[5].value) && WellFormed(fs[6].value) && WellFormed(fs[7].value);
    assert WellFormed(fs[8].value);
    hide WellFormed;
  }

  lemma EntryKeys(e: Entry)
    ensures |EntryFields(e)| == |ENTRY_KEYS| && forall i | 0 <= i < |ENTRY_KEYS| :: EntryFields(e)[i].key == ENTRY_KEYS[i]
  {
    hide WellFormed, Slots.Decimal, WireName;
  }

  lemma EntryKeysDistinct()
    ensures forall i, j | 0 <= i < j < |ENTRY_KEYS| :: ENTRY_KEYS[i] != ENTRY_KEYS[j]
    ensures forall i | 0 <= i < |ENTRY_KEYS| ::
              ENTRY_KEYS[i] != "decision_id" && ENTRY_KEYS[i] != "timestamp" && ENTRY_KEYS[i] != "tenant_id"
  {
    assert "arguments"[0] == 'a' && "principal"[0] == 'p' && "bundle_id"[0] == 'b' && "timestamp"[0] == 't';
    assert "tenant_id"[0] == 't' && "context"[0] == 'c' && "dry_run"[0] == 'd';
  }

  lemma FieldsValid(tenant: string, id: string, e: Entry, extra: Extra)
    ensures ValidRequest(Request(tenant, id, EntryFields(e) + extra))
  {
    EntryKeys(e);
    EntryValues(e);
    EntryKeysDistinct();
    hide EntryFields, WellFormed;
    var fields := EntryFields(e) + extra;
    var n := |ENTRY_KEYS|;
    forall i, j | 0 <= i < j < |fields| ensures fields[i].key != fields[j].key {
      if j >= n {
        assert fields[j] == extra[j - n] && extra[j - n] in extra;
        if i >= n {
          assert fields[i] == extra[i - n];
        } else {
          assert fields[i].key == ENTRY_KEYS[i] && ENTRY_KEYS[i] in ENTRY_KEYS;
        }
      }
    }
    forall m | m in fields
      ensures m.key != "decision_id" && m.key != "timestamp" && m.key != "tenant_id" && WellFormed(m.value)
    {
      var i :| 0 <= i < |fields| && fields[i] == m;
      if i >= n {
        assert m == extra[i - n] && m in extra;
      } else {
        assert m in EntryFields(e);
      }
    }
  }

  function RequestOf(tenant: string, id: string, e: Entry, extra: Extra): (r: AuditLog.Request)
    ensures r.tenant == tenant && r.decisionId == id
  {
    FieldsValid(tenant, id, e, extra);
    Request(tenant, id, EntryFields(e) + extra)
  }

  /** The stored record says which call was evaluated, whether it was a dry run, to which effect, and under which bundle. */
  ghost predicate RecordsCall(item: AuditItem, e: F.Envelope, dryRun: bool, effect: P.Effect, bundleId: string,
                              bundleVersion: nat)
  {
    && RecordSays(item, "tool", Str(e.tool)) && RecordSays(item, "agent_id", Str(e.agentId))
    && RecordSays(item, "arguments", Canonical(e.arguments)) && RecordSays(item, "context", Canonical(e.context))
    && RecordSays(item, "principal", if e.principal == Obj([]) then Null else Canonical(e.principal))
    && RecordSays(item, "dry_run", Bool(dryRun)) && RecordsEffect(item, effect)
    && RecordSays(item, "bundle_id", Str(bundleId))
    && RecordSays(item, "bundle_version", Num(Slots.Decimal(bundleVersion)))
  }

  ghost predicate RecordsEffect(item: AuditItem, effect: P.Effect) {
    && (RecordSays(item, "effect", Str("allow")) <==> effect == P.Allow)
    && (RecordSays(item, "effect", Str("log_and_allow")) <==> effect == P.LogAndAllow)
    && (RecordSays(item, "effect", Str("require_hitl")) <==> effect == P.RequireHitl)
    && (RecordSays(item, "effect", Str("block")) <==> effect == P.Block)
  }

  lemma StoredEffect(item: AuditItem, effect: P.Effect)
    requires RecordSays(item, "effect", Str(WireName(effect)))
    ensures RecordsEffect(item, effect)
  {
    hide RecordSays;
    assert |"allow"| == 5 && |"log_and_allow"| == 13 && |"require_hitl"| == 12 && "allow"[0] == 'a' && "block"[0] == 'b';
    forall other | RecordSays(item, "effect", Str(other)) ensures other == WireName(effect) {
      SaysOnce(item, "effect", Str(other), Str(WireName(effect)));
    }
  }

  lemma StoredAt(tenant: string, id: string, e: Entry, extra: Extra, timestamp: string, item: AuditItem, i: nat)
    requires item.payloadJson == CanonicalJson(Payload(RequestOf(tenant, id, e, extra), timestamp))
    requires i < |EntryFields(e)|
    ensures RecordSays(item, EntryFields(e)[i].key, Canonical(EntryFields(e)[i].value))
  {
    hide EntryFields, RecordSays, Canonical, CanonicalJson, Payload, WellFormed, Loads;
    var r := RequestOf(tenant, id, e, extra);
    assert r.fields[i] == EntryFields(e)[i];
    StoredField(r, timestamp, item, EntryFields(e)[i]);
  }

  lemma StoredEntry(tenant: string, id: string, e: Entry, extra: Extra, timestamp: string, item: AuditItem)
    requires item.payloadJson == CanonicalJson(Payload(RequestOf(tenant, id, e, extra), timestamp))
    ensures RecordsCall(item, e.envelope, e.dryRun, e.effect, e.bundleId, e.bundleVersion)
  {
    hide RequestOf, RecordSays, CanonicalJson, Payload, Loads, RecordsEffect, WireName, Slots.Decimal, WellFormed;
    EntryKeys(e);
    StoredAt(tenant, id, e, extra, timestamp, item, 0);
    StoredAt(tenant, id, e, extra, timestamp, item, 1);
    StoredAt(tenant, id, e, extra, timestamp, item, 2);
    StoredAt(tenant, id, e, extra, timestamp, item, 3);
    StoredAt(tenant, id, e, extra, timestamp, item, 4);
    StoredAt(tenant, id, e, extra, timestamp, item, 5);
    StoredAt(tenant, id, e, extra, timestamp, item, 6);
    StoredAt(tenant, id, e, extra, timestamp, item, 7);
    StoredAt(tenant, id, e, extra, timestamp, item, 8);
    Unordered(e);
    StoredEffect(item, e.effect);
  }

  /** Values without entries are their own canonical form. */
  lemma Unordered(e: Entry)
    ensures forall s: string :: Canonical(Str(s)) == Str(s) && Canonical(Num(s)) == Num(s)
    ensures forall b: bool :: Canonical(Bool(b)) == Bool(b)
    ensures Canonical(Null) == Null && (e.envelope.principal.members == [] <==> e.envelope.principal == Obj([]))
  {
  }

  // ---------------------------------------------------------------------------------------
  // The response
  // ---------------------------------------------------------------------------------------

  datatype Response = Response(
    decision: P.Effect, decisionId: string, auditSeq: int, auditHash: string, bundleId: string, bundleVersion: nat,
    dryRun: bool, timeoutSeconds: nat, onTimeout: D.OnTimeout)

  function EntryOf(e: F.Envelope, v: Verdict, dryRun: bool): Entry {
    Entry(e, v.effect, dryRun, v.bundle.bundleId, v.bundle.version)
  }

  function ResponseOf(id: string, v: Verdict, dryRun: bool, record: AuditRecord): Response {
    Response(v.effective, id, record.seqNo, record.hash, v.bundle.bundleId, v.bundle.version, dryRun,
             v.hitl.timeoutSeconds, TimeoutOf(v.hitl.onTimeout))
  }

  /** The tenant's chain holds the record the response names: same number and hash, for this decision, made for this
      tenant, saying all of this. */
  ghost predicate Recorded(log: Log, tenant: string, r: Response, e: F.Envelope, effect: P.Effect) {
    && r.auditSeq >= 1
    && SlotOf(tenant, r.auditSeq) in log
    && var item := log[SlotOf(tenant, r.auditSeq)];
    && item.hash == r.auditHash && RecordsDecision(item, r.decisionId) && RecordsOrigin(item, tenant)
    && RecordsCall(item, e, r.dryRun, effect, r.bundleId, r.bundleVersion)
  }

  /** The response tells what this bundle says of this call, and the chain records it. */
  ghost predicate VerdictOf(rt: P.Runtime, log: Log, tenant: string, e: F.Envelope, r: Response, bundle: P.Bundle) {
    && Tells(rt, tenant, e, bundle, r.decision, r.timeoutSeconds, r.onTimeout)
    && r.bundleId == bundle.bundleId && r.bundleVersion == bundle.version
    && Recorded(log, tenant, r, e, E.EffectOf(rt, bundle, F.BuildFacts(rt, tenant, e), e.tool))
  }

  /** A past decision can be reproduced from its record: judged under the same bundle, the call as the record says it
      gets the same verdict. */
  lemma {:induction false} VerdictReproducible(rt: P.Runtime, tenant: string, e: F.Envelope, bundle: P.Bundle)
    ensures Judge(rt, tenant, F.ReadBack(e), bundle) == Judge(rt, tenant, e, bundle)
  {
    F.FactsReproducible(rt, tenant, e);
  }

  // ---------------------------------------------------------------------------------------
  // What a reviewer is shown, and the record of a judgement
  // ---------------------------------------------------------------------------------------

  /** The call, as the held decision keeps it. */
  function DetailsOf(e: F.Envelope): Json {
    Obj([Member("tool", Str(e.tool)), Member("agent_id", Str(e.agentId)), Member("arguments", e.arguments)])
  }

  /** What the reviewer is shown is this call. */
  ghost predicate ShowsCall(details: Json, e: F.Envelope) {
    && details.Obj? && Get(details.members, "tool") == Some(Str(e.tool))
    && Get(details.members, "agent_id") == Some(Str(e.agentId)) && Get(details.members, "arguments") == Some(e.arguments)
  }

  lemma DetailsShow(e: F.Envelope)
    ensures ShowsCall(DetailsOf(e), e)
  {
    assert |"tool"| == 4 && |"agent_id"| == 8 && |"arguments"| == 9;
    GetOfThree(Member("tool", Str(e.tool)), Member("agent_id", Str(e.agentId)), Member("arguments", e.arguments));
    hide WellFormed, Get;
  }

  function TextAt(details: Json, key: string): string {
    if details.Obj? && Get(details.members, key).Some? && Get(details.members, key).value.Str?
    then Get(details.members, key).value.s else ""
  }

  function DocumentAt(details: Json, key: string): Document {
    if details.Obj? && Get(details.members, key).Some? && Get(details.members, key).value.Obj?
       && WellFormed(Get(details.members, key).value)
    then Get(details.members, key).value else Obj([])
  }

  function StatusName(s: D.Status): string {
    match s
    case Pending => "pending"
    case Approved => "approved"
    case Denied => "denied"
  }

  function OrEmpty(s: Option<string>): string { if s.Some? then s.value else "" }

  /** The context of a resolution's record: who decided what, when and why, and about which decision. */
  function ResolutionContext(d: D.Decision): Json {
    Obj([Member("hitl_resolution", Str(StatusName(d.status))), Member("reviewer", Str(OrEmpty(d.reviewer))),
         Member("reason", Str(OrEmpty(d.reason))), Member("resolved_at", Str(OrEmpty(d.resolvedAt))),
         Member("original_decision_id", Str(d.id)), Member("original_audit_seq", Num(Slots.Decimal(d.auditSeq)))])
  }

  lemma ResolutionContextValid(d: D.Decision)
    ensures WellFormed(ResolutionContext(d))
  {
    DecimalIsNumber(d.auditSeq);
    hide IsNumber, IsWord;
    assert "reviewer"[0] != "reason"[0] || |"reviewer"| != |"reason"|;
    assert |"hitl_resolution"| == 15 && |"reviewer"| == 8 && |"reason"| == 6 && |"resolved_at"| == 11;
    assert |"original_decision_id"| == 20 && |"original_audit_seq"| == 18;
  }

  function ResolutionContextOf(d: D.Decision): Document {
    ResolutionContextValid(d);
    ResolutionContext(d)
  }

  /** `_record_resolution`: the call again, with the judgement as its context. */
  function ResolutionEntry(d: D.Decision): Entry {
    Entry(F.Envelope(TextAt(d.details, "tool"), TextAt(d.details, "agent_id"), DocumentAt(d.details, "arguments"),
                     ResolutionContextOf(d), Obj([])),
          if d.status == D.Approved then P.Allow else P.Block, false, "hitl", 0)
  }

  function ResolutionRequest(d: D.Decision, extra: Extra): AuditLog.Request {
    RequestOf(d.tenant, d.id + ":resolution", ResolutionEntry(d), extra)
  }

  lemma GetOfThree(a: Member, b: Member, c: Member)
    requires a.key != b.key && b.key != c.key && a.key != c.key
    ensures Get([a, b, c], a.key) == Some(a.value)
    ensures Get([a, b, c], b.key) == Some(b.value)
    ensures Get([a, b, c], c.key) == Some(c.value)
  {
    assert [a, b, c][1..] == [b, c] && [b, c][1..] == [c];
    assert Get([c], c.key) == Some(c.value);
  }

  /** The record of a judgement repeats the call that was held. */
  lemma ResolutionOfCall(d: D.Decision, e: F.Envelope)
    requires ShowsCall(d.details, e)
    ensures var r := ResolutionEntry(d).envelope; r.tool == e.tool && r.agentId == e.agentId && r.arguments == e.arguments
  {
    hide WellFormed, ResolutionContextOf, Get;
  }

  /** The context in a record has this entry. */
  ghost predicate ContextSays(item: AuditItem, key: string, v: Json) {
    exists c :: RecordSays(item, "context", c) && c.Obj? && Get(c.members, key) == Some(v)
  }

  /** The record of a judgement: who decided what, why and when, about which decision and which record; allowing exactly
      what was approved. */
  ghost predicate RecordsJudgement(item: AuditItem, d: D.Decision) {
    && ContextSays(item, "hitl_resolution", Str(if d.status == D.Approved then "approved" else "denied"))
    && (d.reviewer.Some? ==> ContextSays(item, "reviewer", Str(d.reviewer.value)))
    && (d.reason.Some? ==> ContextSays(item, "reason", Str(d.reason.value)))
    && (d.resolvedAt.Some? ==> ContextSays(item, "resolved_at", Str(d.resolvedAt.value)))
    && ContextSays(item, "original_decision_id", Str(d.id))
    && ContextSays(item, "original_audit_seq", Num(Slots.Decimal(d.auditSeq)))
    && RecordSays(item, "effect", Str(if d.status == D.Approved then "allow" else "block"))
    && RecordSays(item, "dry_run", Bool(false)) && RecordSays(item, "principal", Null)
    && RecordSays(item, "bundle_id", Str("hitl")) && RecordSays(item, "bundle_version", Num("0"))
  }

  lemma StoredContext(d: D.Decision, item: AuditItem)
    requires RecordSays(item, "context", Canonical(ResolutionContext(d)))
    ensures forall m | m in ResolutionContext(d).members :: ContextSays(item, m.key, Canonical(m.value))
  {
    ResolutionContextValid(d);
    hide WellFormed, RecordSays, Canonical, Get, StatusName, OrEmpty, Slots.Decimal;
    var ms := ResolutionContext(d).members;
    assert DistinctKeysOf(ms) by {
      DistinctEntries(ResolutionContext(d));
    }
    hide ResolutionContext, DistinctKeysOf;
    forall m | m in ms ensures ContextSays(item, m.key, Canonical(m.value)) {
      CanonicalEntry(ms, m);
    }
  }

  lemma DistinctEntries(v: Document)
    ensures DistinctKeysOf(v.members)
  {
  }

  lemma StoredJudgement(d: D.Decision, extra: Extra, timestamp: string, item: AuditItem)
    requires d.status != D.Pending
    requires item.payloadJson == CanonicalJson(Payload(ResolutionRequest(d, extra), timestamp))
    ensures RecordsJudgement(item, d)
  {
    var e := ResolutionEntry(d);
    StoredEntry(d.tenant, d.id + ":resolution", e, extra, timestamp, item);
    StoredContext(d, item);
    Unordered(e);
    assert Slots.Decimal(0) == "0";
    var ms := ResolutionContext(d).members;
    hide WellFormed, RecordSays, Canonical, RequestOf, CanonicalJson, Payload, ContextSays, Slots.Decimal;
    assert ms[0] in ms && ms[1] in ms && ms[2] in ms && ms[3] in ms && ms[4] in ms && ms[5] in ms;
  }
}
