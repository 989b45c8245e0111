/** The service's endpoints and the SDK's enforcement point over the audit chain, the decision store and the policy
    provider of every container, all interleaved: whatever a governed tool executes was recorded and permitted. */
module EndToEnd {
  import opened Order
  import opened Json
  import Slots
  import opened HashChain
  import opened AuditLog
  import AP = AuditProtocol
  import D = Decisions
  import RP = ReviewProtocol
  import P = Policy
  import F = Facts
  import opened Evaluation
  import PS = PolicyStore
  import PP = PolicyProvider
  import Sdk

  // ---------------------------------------------------------------------------------------
  // One evaluation
  // ---------------------------------------------------------------------------------------

  /** What the whole service shares: how policies are evaluated, how each container's provider is configured, and the
      policy store over time. */
  datatype Service = Service(rt: P.Runtime, cfg: PP.Config, at: real -> PS.Store)

  /** A request as the handler sees it: the tenant comes from the API key, the decision id is a new UUID. An empty key
      stands for none. `owner` is history: the SDK call that sent it. */
  datatype Input = Input(
    tenant: string, key: string, decisionId: string, envelope: F.Envelope, dryRun: bool, extra: Extra, owner: Option<nat>)

  function RequestFor(input: Input, v: Verdict): AuditLog.Request {
    RequestOf(input.tenant, input.decisionId, EntryOf(input.envelope, v, input.dryRun), input.extra)
  }

  /** A response, and as history the handler that made it; a replay returns it again. */
  datatype Served = Served(response: Response, origin: nat)

  datatype Phase =
    | Looking
    | Deciding
    | Auditing(call: nat)
    | Holding
    | Saving
    | Answered(served: Served)
    | Gone                           // the request failed: 503 where the audit write did, 500 otherwise

  /** History: which call of which container's provider gave the bundle. */
  datatype Asked = Asked(node: nat, index: nat, visit: PP.Visit)

  /** One run of `evaluate_action`, with the values its steps have computed so far. */
  datatype Handler = Handler(
    input: Input, verdict: Option<Verdict>, asked: Option<Asked>, call: Option<nat>, made: Option<Response>, phase: Phase)

  // ---------------------------------------------------------------------------------------
  // One governed call
  // ---------------------------------------------------------------------------------------

  datatype OnPending = Raise | TreatAsBlock | Wait

  datatype Setup = Setup(
    tenant: string, key: string, envelope: F.Envelope, dryRun: bool, failOpen: bool, maxRetries: int,
    onPending: OnPending)

  /** Why a tool body ran. */
  datatype Grant =
    | ByPolicy(served: Served)
    | ByReview(served: Served, decision: D.Decision, readAt: real)
    | ByFailOpen

  datatype Progress =
    | Posting(attempt: nat, handler: Option<nat>)
    | Waiting(served: Served)
    | Executed(grant: Grant)
    | NotRun                         // a dry run: permitted, and not executed
    | Blocked                        // ActionBlocked
    | ApprovalNeeded                 // ApprovalRequired
    | Refused                        // GuardrailUnavailable
    | Crashed                        // any other exception

  datatype Caller = Caller(setup: Setup, progress: Progress)

  function Act(setup: Setup, grant: Grant): Progress { if setup.dryRun then NotRun else Executed(grant) }

  /** The wrapper, once `evaluate` has returned or raised. */
  function Proceed(setup: Setup, answer: Sdk.Answer<Served>): Progress {
    match answer
    case FailOpenAllow => Act(setup, ByFailOpen)
    case Unavailable => Refused
    case Malformed => Crashed
    case Answered(served) =>
      match served.response.decision
      case Block => Blocked
      case RequireHitl =>
        (match setup.onPending
         case TreatAsBlock => Blocked
         case Wait => Waiting(served)
         case Raise => ApprovalNeeded)
      case _ => Act(setup, ByPolicy(served))
  }

  // ---------------------------------------------------------------------------------------
  // The world
  // ---------------------------------------------------------------------------------------

  /** `recordings` names the append that records a resolution; `asked` lists what each container's policy provider was
      asked so far. */
  datatype World = World(
    audit: AP.State, review: RP.State, idem: map<(string, string), Served>, handlers: map<nat, Handler>,
    callers: map<nat, Caller>, recordings: map<nat, nat>, asked: map<nat, seq<PP.Call>>)

  const INIT: World := World(AP.INIT, RP.INIT, map[], map[], map[], map[], map[])

  datatype Event =
    | Tick(elapsed: real)
    | Post(h: nat, input: Input)                          // any other client's request
    | Look(h: nat, healthy: bool)
    | Decide(h: nat, node: nat, visit: PP.Visit, call: nat)
    | Invalidate(node: nat, only: Option<string>)         // a container drops its cached bundles
    | Append(h: nat, env: Env)
    | Hold(h: nat, createdAt: string, healthy: bool)
    | Save(h: nat, net: Net)
    | Resolve(review: nat, ruling: D.Ruling)
    | ReviewStep(review: nat, resolvedAt: string, healthy: bool)
    | Record(review: nat, call: nat, extra: Extra)
    | RecordStep(review: nat, env: Env)
    | Call(c: nat, setup: Setup, breakerOpen: bool)
    | Send(c: nat, h: nat, decisionId: string, extra: Extra)
    | Finish(c: nat, delivered: bool, error: Sdk.Reply<Served>)
    | Poll(c: nat, last: bool, ok: bool)

  predicate SameKey(setup: Setup, input: Input) { setup.tenant == input.tenant && setup.key == input.key }

  /** The decision id is new. */
  predicate NewId(w: World, input: Input) {
    && (forall g | g in w.handlers :: w.handlers[g].input.decisionId != input.decisionId)
    && (input.tenant, input.decisionId) !in w.review.table
  }

  function Begun(input: Input): Handler { Handler(input, None, None, None, None, Looking) }

  function WithHandler(w: World, h: nat, x: Handler): World { w.(handlers := w.handlers[h := x]) }

  function DoPost(w: World, h: nat, input: Input): World {
    if h in w.handlers || !NewId(w, input) || input.owner.Some?
       || (exists c | c in w.callers :: SameKey(w.callers[c].setup, input)) then w
    else WithHandler(w, h, Begun(input))
  }

  /** `find_idempotent` */
  function DoLook(w: World, h: nat, healthy: bool): World {
    if h !in w.handlers || !w.handlers[h].phase.Looking? then w
    else
      var x := w.handlers[h];
      WithHandler(w, h, x.(phase :=
        if x.input.key == "" then Deciding
        else if !healthy then Gone
        else if (x.input.tenant, x.input.key) in w.idem then Answered(w.idem[(x.input.tenant, x.input.key)])
        else Deciding))
  }

  function CallsOf(w: World, node: nat): seq<PP.Call> { if node in w.asked then w.asked[node] else [] }

  /** The bundle a container's provider serves on this visit. */
  function BundleFor(svc: Service, calls: seq<PP.Call>, tenant: string, visit: PP.Visit): P.Bundle {
    PP.Answer(svc.cfg, svc.at, PP.Run(svc.cfg, svc.at, calls), tenant, visit).bundle
  }

  /** Get the bundle, evaluate, and begin the append. */
  ghost function DoDecide(sha: Hasher, svc: Service, w: World, h: nat, node: nat, visit: PP.Visit, call: nat): World {
    if h !in w.handlers || !w.handlers[h].phase.Deciding? || call in w.audit.calls then w
    else
      var x := w.handlers[h];
      var calls := CallsOf(w, node);
      var v := Judge(svc.rt, x.input.tenant, x.input.envelope, BundleFor(svc, calls, x.input.tenant, visit));
      WithHandler(w, h, x.(verdict := Some(v), asked := Some(Asked(node, |calls|, visit)), call := Some(call),
                           phase := Auditing(call)))
        .(audit := AP.Next(sha, w.audit, AP.Begin(call, RequestFor(x.input, v))),
          asked := w.asked[node := calls + [PP.Get(x.input.tenant, visit)]])
  }

  function DoInvalidate(w: World, node: nat, only: Option<string>): World {
    w.(asked := w.asked[node := CallsOf(w, node) + [PP.Invalidate(only)]])
  }

  /** The handler after a step of its append. */
  function AppendedTo(x: Handler, writer: Writer): Handler
    requires x.verdict.Some?
  {
    match writer
    case Appended(record) =>
      x.(made := Some(ResponseOf(x.input.decisionId, x.verdict.value, x.input.dryRun, record)),
         phase := if x.verdict.value.effective == P.RequireHitl then Holding else Saving)
    case WriteFailed(_, _) => x.(phase := Gone)
    case Raised => x.(phase := Gone)
    case _ => x
  }

  /** One step of the append; the response is made only from a record that was written. */
  ghost function DoAppend(sha: Hasher, w: World, h: nat, env: Env): World {
    if h !in w.handlers || !w.handlers[h].phase.Auditing? || w.handlers[h].verdict == None
       || w.handlers[h].phase.call !in w.audit.calls then w
    else
      var x := w.handlers[h];
      var audit := AP.Next(sha, w.audit, AP.Step(x.phase.call, env));
      WithHandler(w, h, AppendedTo(x, audit.calls[x.phase.call].writer)).(audit := audit)
  }

  /** The decision the handler creates. */
  function DecisionFor(w: World, x: Handler, createdAt: string): D.Decision
    requires x.made.Some?
  {
    var r := x.made.value;
    var seqNo: nat := if r.auditSeq >= 0 then r.auditSeq else 0;
    D.NewPending(x.input.decisionId, x.input.tenant, createdAt, w.review.clock.Floor + r.timeoutSeconds, r.onTimeout,
                 DetailsOf(x.input.envelope), seqNo)
  }

  /** Create the pending decision before the response is returned. */
  function DoHold(w: World, h: nat, createdAt: string, healthy: bool): World {
    if h !in w.handlers || !w.handlers[h].phase.Holding? || w.handlers[h].verdict == None || w.handlers[h].made == None
    then w
    else
      var x := w.handlers[h];
      if !healthy then WithHandler(w, h, x.(phase := Gone))
      else
        WithHandler(w, h, x.(phase := Saving)).(review := RP.Next(w.review, RP.Create(DecisionFor(w, x, createdAt))))
  }

  /** `store_idempotent`, then respond. The first response stored for a key stands. */
  function DoSave(w: World, h: nat, net: Net): World {
    if h !in w.handlers || !w.handlers[h].phase.Saving? || w.handlers[h].made == None then w
    else
      var x := w.handlers[h];
      var k := (x.input.tenant, x.input.key);
      var served := Served(x.made.value, h);
      if x.input.key == "" then WithHandler(w, h, x.(phase := Answered(served)))
      else if net == Broken then WithHandler(w, h, x.(phase := Gone))
      else WithHandler(w, h, x.(phase := Answered(served)))
             .(idem := if net == Up && k !in w.idem then w.idem[k := served] else w.idem)
  }

  /** The reviewer's endpoint appends the judgement it was told stands. */
  ghost function DoRecord(sha: Hasher, w: World, review: nat, call: nat, extra: Extra): World {
    if review !in w.review.reviews || !w.review.reviews[review].reviewer.Resolved? || review in w.recordings
       || call in w.audit.calls then w
    else
      var d := w.review.reviews[review].reviewer.decision;
      w.(audit := AP.Next(sha, w.audit, AP.Begin(call, ResolutionRequest(d, extra))),
         recordings := w.recordings[review := call])
  }

  /** The wrapper starts: its idempotency key is a new UUID. */
  function DoCall(w: World, c: nat, setup: Setup, breakerOpen: bool): World {
    if c in w.callers || setup.key == ""
       || (exists b | b in w.callers :: w.callers[b].setup.tenant == setup.tenant && w.callers[b].setup.key == setup.key)
       || (exists h | h in w.handlers :: SameKey(setup, w.handlers[h].input)) then w
    else
      var progress :=
        if breakerOpen || Sdk.Attempts(setup.maxRetries) == 0 then Proceed(setup, Sdk.WhenUnavailable(setup.failOpen))
        else Posting(0, None);
      w.(callers := w.callers[c := Caller(setup, progress)])
  }

  function InputOf(setup: Setup, c: nat, decisionId: string, extra: Extra): Input {
    Input(setup.tenant, setup.key, decisionId, setup.envelope, setup.dryRun, extra, Some(c))
  }

  /** An attempt reaches the service. */
  function DoSend(w: World, c: nat, h: nat, decisionId: string, extra: Extra): World {
    if c !in w.callers || h in w.handlers then w
    else
      var caller := w.callers[c];
      var input := InputOf(caller.setup, c, decisionId, extra);
      if !caller.progress.Posting? || caller.progress.handler.Some? || !NewId(w, input) then w
      else
        WithHandler(w, h, Begun(input))
          .(callers := w.callers[c := Caller(caller.setup, Posting(caller.progress.attempt, Some(h)))])
  }

  /** An attempt ends: with the handler's response if that is there and is delivered, otherwise with an error. */
  function ReplyTo(w: World, handler: Option<nat>, delivered: bool, error: Sdk.Reply<Served>): Sdk.Reply<Served> {
    if delivered && handler.Some? && handler.value in w.handlers && w.handlers[handler.value].phase.Answered? then
      Sdk.Http(200, Some(w.handlers[handler.value].phase.served))
    else if error.Http? then Sdk.Http(error.status, None) else error
  }

  function DoFinish(w: World, c: nat, delivered: bool, error: Sdk.Reply<Served>): World {
    if c !in w.callers || !w.callers[c].progress.Posting? then w
    else
      var setup, p := w.callers[c].setup, w.callers[c].progress;
      var reply := ReplyTo(w, p.handler, delivered, error);
      var progress :=
        if Sdk.Final(reply) then Proceed(setup, Sdk.Interpret(setup.failOpen, Some(reply), 0.0).0)
        else if p.attempt + 1 < Sdk.Attempts(setup.maxRetries) then Posting(p.attempt + 1, None)
        else Proceed(setup, Sdk.Interpret<Served>(setup.failOpen, None, 0.0).0);
      w.(callers := w.callers[c := Caller(setup, progress)])
  }

  /** One poll of the wait; the last one is made when the deadline has passed. */
  function DoPoll(w: World, c: nat, last: bool, ok: bool): World {
    if c !in w.callers || !w.callers[c].progress.Waiting? then w
    else
      var setup, served := w.callers[c].setup, w.callers[c].progress.served;
      var k := (setup.tenant, served.response.decisionId);
      var progress :=
        if !ok || k !in w.review.table then if last then Refused else Waiting(served)
        else
          var d := w.review.table[k];
          if D.EffectiveStatus(d, w.review.clock) == D.ShownPending && !last then Waiting(served)
          else if D.AllowsExecution(d, w.review.clock) then Act(setup, ByReview(served, d, w.review.clock))
          else Blocked;
      w.(callers := w.callers[c := Caller(setup, progress)])
  }

  ghost function Next(sha: Hasher, svc: Service, w: World, e: Event): World {
    match e
    case Tick(elapsed) => w.(review := RP.Next(w.review, RP.Tick(elapsed)))
    case Post(h, input) => DoPost(w, h, input)
    case Look(h, healthy) => DoLook(w, h, healthy)
    case Decide(h, node, visit, call) => DoDecide(sha, svc, w, h, node, visit, call)
    case Invalidate(node, only) => DoInvalidate(w, node, only)
    case Append(h, env) => DoAppend(sha, w, h, env)
    case Hold(h, createdAt, healthy) => DoHold(w, h, createdAt, healthy)
    case Save(h, net) => DoSave(w, h, net)
    case Resolve(review, ruling) => w.(review := RP.Next(w.review, RP.Begin(review, ruling)))
    case ReviewStep(review, resolvedAt, healthy) => w.(review := RP.Next(w.review, RP.Step(review, resolvedAt, healthy)))
    case Record(review, call, extra) => DoRecord(sha, w, review, call, extra)
    case RecordStep(review, env) =>
      if review in w.recordings then w.(audit := AP.Next(sha, w.audit, AP.Step(w.recordings[review], env))) else w
    case Call(c, setup, breakerOpen) => DoCall(w, c, setup, breakerOpen)
    case Send(c, h, decisionId, extra) => DoSend(w, c, h, decisionId, extra)
    case Finish(c, delivered, error) => DoFinish(w, c, delivered, error)
    case Poll(c, last, ok) => DoPoll(w, c, last, ok)
  }

  ghost function Run(sha: Hasher, svc: Service, w: World, es: seq<Event>): World
    decreases |es|
  {
    if es == [] then w else Next(sha, svc, Run(sha, svc, w, es[..|es| - 1]), es[|es| - 1])
  }

  // ---------------------------------------------------------------------------------------
  // What every step keeps
  // ---------------------------------------------------------------------------------------

  /** The response was made from a record this handler's append was told it wrote. */
  ghost predicate MadeOk(audit: AP.State, x: Handler) {
    x.made.Some? ==>
      && x.verdict.Some? && x.call.Some? && x.call.value in audit.calls
      && audit.calls[x.call.value].request == RequestFor(x.input, x.verdict.value)
      && audit.calls[x.call.value].writer.Appended?
      && x.made.value == ResponseOf(x.input.decisionId, x.verdict.value, x.input.dryRun,
                                 audit.calls[x.call.value].writer.record)
  }

  /** The decision was held at that time for so long. */
  predicate ExpiresAfter(d: D.Decision, held: real, seconds: nat) { d.expiresAt == held.Floor + seconds }

  ghost predicate HeldSince(d: D.Decision, seconds: nat, now: real) {
    exists held :: ExpiresAfter(d, held, seconds) && held <= now
  }

  /** The decision a caller is told to poll exists, shows the call that was held, and is open for as long as the caller
      was told. */
  ghost predicate HeldFor(review: RP.State, tenant: string, r: Response, e: F.Envelope) {
    r.decision == P.RequireHitl ==>
      var k := (tenant, r.decisionId);
      && k in review.table && review.table[k].auditSeq as int == r.auditSeq && review.table[k].onTimeout == r.onTimeout
      && ShowsCall(review.table[k].details, e) && HeldSince(review.table[k], r.timeoutSeconds, review.clock)
  }

  /** A handler of this tenant made this response, and could hand it out. */
  ghost predicate ServedOk(w: World, tenant: string, s: Served) {
    && s.origin in w.handlers && w.handlers[s.origin].input.tenant == tenant
    && w.handlers[s.origin].made == Some(s.response)
    && HeldFor(w.review, tenant, s.response, w.handlers[s.origin].input.envelope)
  }

  predicate Unheld(review: RP.State, x: Handler) { (x.input.tenant, x.input.decisionId) !in review.table }

  /** A response is the handler's own, or a replay under its key. */
  predicate KeyMatches(w: World, h: nat, s: Served)
    requires h in w.handlers && s.origin in w.handlers
  {
    s.origin == h || (w.handlers[h].input.key != "" && w.handlers[s.origin].input.key == w.handlers[h].input.key)
  }

  ghost predicate PhaseOk(w: World, h: nat)
    requires h in w.handlers
  {
    var x := w.handlers[h];
    match x.phase
    case Auditing(call) =>
      && x.call == Some(call) && x.verdict.Some? && x.made == None && Unheld(w.review, x)
      && call in w.audit.calls && w.audit.calls[call].request == RequestFor(x.input, x.verdict.value)
    case Holding => x.made.Some? && Unheld(w.review, x)
    case Saving => x.made.Some? && HeldFor(w.review, x.input.tenant, x.made.value, x.input.envelope)
    case Answered(s) => ServedOk(w, x.input.tenant, s) && KeyMatches(w, h, s)
    case Gone => true
    case _ => x.verdict == None && x.call == None && x.made == None && Unheld(w.review, x)
  }

  ghost predicate HandlerOk(svc: Service, w: World, h: nat)
    requires h in w.handlers
  {
    var x := w.handlers[h];
    && (x.verdict.Some? ==> x.verdict.value == Judge(svc.rt, x.input.tenant, x.input.envelope, x.verdict.value.bundle))
    && MadeOk(w.audit, x) && PhaseOk(w, h)
  }

  ghost predicate IdemOk(w: World, k: (string, string))
    requires k in w.idem
  {
    ServedOk(w, k.0, w.idem[k]) && w.handlers[w.idem[k].origin].input.key == k.1 != ""
  }

  /** What the SDK call was given was made for this very call. */
  ghost predicate GivenTo(w: World, c: nat, s: Served)
    requires c in w.callers
  {
    ServedOk(w, w.callers[c].setup.tenant, s) && w.handlers[s.origin].input.owner == Some(c)
  }

  /** A decision read from the table at that time. */
  predicate Seen(review: RP.State, k: (string, string), d: D.Decision, t: real) {
    && k == (d.tenant, d.id) && t <= review.clock && k in review.table
    && review.table[k].auditSeq == d.auditSeq && review.table[k].onTimeout == d.onTimeout
    && review.table[k].details == d.details && review.table[k].expiresAt == d.expiresAt
    && (d.status != D.Pending ==> review.table[k] == d)
  }

  ghost predicate CallerOk(w: World, c: nat)
    requires c in w.callers
  {
    var setup := w.callers[c].setup;
    match w.callers[c].progress
    case Posting(_, handler) =>
      handler.Some? ==> handler.value in w.handlers && w.handlers[handler.value].input.owner == Some(c)
    case Waiting(s) => GivenTo(w, c, s) && s.response.decision == P.RequireHitl
    case Executed(ByPolicy(s)) => !setup.dryRun && GivenTo(w, c, s) && P.Permits(s.response.decision)
    case Executed(ByReview(s, d, t)) =>
      && !setup.dryRun && GivenTo(w, c, s) && s.response.decision == P.RequireHitl
      && Seen(w.review, (setup.tenant, s.response.decisionId), d, t) && D.AllowsExecution(d, t)
    case Executed(ByFailOpen) => !setup.dryRun && setup.failOpen
    case _ => true
  }

  predicate Fits(setup: Setup, input: Input) {
    SameKey(setup, input) && input.envelope == setup.envelope && input.dryRun == setup.dryRun
  }

  /** A handler under an SDK call's key was sent by that call. */
  predicate Owned(w: World, h: nat, c: nat)
    requires h in w.handlers && c in w.callers
  {
    SameKey(w.callers[c].setup, w.handlers[h].input) ==>
      w.handlers[h].input.owner == Some(c) && Fits(w.callers[c].setup, w.handlers[h].input)
  }

  predicate OwnerOk(w: World, h: nat)
    requires h in w.handlers
  {
    var input := w.handlers[h].input;
    input.owner.Some? ==> input.owner.value in w.callers && Fits(w.callers[input.owner.value].setup, input)
  }

  ghost predicate KeysOk(w: World) {
    && (forall g, h | g in w.handlers && h in w.handlers && g != h ::
          w.handlers[g].input.decisionId != w.handlers[h].input.decisionId)
    && (forall h, c | h in w.handlers && c in w.callers :: Owned(w, h, c))
    && (forall h | h in w.handlers :: OwnerOk(w, h))
    && (forall c | c in w.callers :: w.callers[c].setup.key != "")
    && (forall b, c | b in w.callers && c in w.callers && b != c ::
          w.callers[b].setup.tenant != w.callers[c].setup.tenant || w.callers[b].setup.key != w.callers[c].setup.key)
  }

  ghost predicate Inv(sha: Hasher, svc: Service, w: World) {
    && AP.Inv(sha, w.audit) && RP.Inv(w.review)
    && (forall h | h in w.handlers :: HandlerOk(svc, w, h))
    && (forall k | k in w.idem :: IdemOk(w, k))
    && (forall c | c in w.callers :: CallerOk(w, c))
    && KeysOk(w)
  }

  // ---------------------------------------------------------------------------------------
  // Nothing established is lost
  // ---------------------------------------------------------------------------------------

  /** Appends keep what they were asked for and, once successful, what they were told. */
  ghost predicate AuditGrows(a: AP.State, b: AP.State) {
    forall call | call in a.calls ::
      && call in b.calls && b.calls[call].request == a.calls[call].request
      && (a.calls[call].writer.Appended? ==> b.calls[call].writer == a.calls[call].writer)
  }

  predicate SameHandlers(w: World, w': World) {
    forall h | h in w.handlers ::
      && h in w'.handlers && w'.handlers[h].input == w.handlers[h].input
      && (w.handlers[h].made.Some? ==> w'.handlers[h].made == w.handlers[h].made)
  }

  ghost predicate Grows(w: World, w': World) {
    && AuditGrows(w.audit, w'.audit) && RP.Advances(w.review, w'.review) && SameHandlers(w, w')
    && (forall c | c in w.callers :: c in w'.callers && w'.callers[c].setup == w.callers[c].setup)
    && (forall k | k in w.idem :: k in w'.idem && w'.idem[k] == w.idem[k])
  }

  lemma AuditNextGrows(sha: Hasher, a: AP.State, e: AP.Event)
    ensures AuditGrows(a, AP.Next(sha, a, e))
  {
    hide StepWriter;
  }

  lemma HeldForStays(a: RP.State, b: RP.State, tenant: string, r: Response, e: F.Envelope)
    requires HeldFor(a, tenant, r, e) && RP.Advances(a, b)
    ensures HeldFor(b, tenant, r, e)
  {
    hide ShowsCall;
    var k := (tenant, r.decisionId);
    if r.decision == P.RequireHitl {
      var held :| ExpiresAfter(a.table[k], held, r.timeoutSeconds) && held <= a.clock;
      assert ExpiresAfter(b.table[k], held, r.timeoutSeconds) && held <= b.clock;
    }
  }

  lemma ServedOkStays(w: World, w': World, tenant: string, s: Served)
    requires ServedOk(w, tenant, s) && SameHandlers(w, w') && RP.Advances(w.review, w'.review)
    ensures ServedOk(w', tenant, s)
  {
    HeldForStays(w.review, w'.review, tenant, s.response, w.handlers[s.origin].input.envelope);
  }

  lemma MadeOkStays(a: AP.State, b: AP.State, x: Handler)
    requires MadeOk(a, x) && AuditGrows(a, b)
    ensures MadeOk(b, x)
  {
  }

  lemma SeenStays(a: RP.State, b: RP.State, k: (string, string), d: D.Decision, t: real)
    requires Seen(a, k, d, t) && RP.Advances(a, b)
    ensures Seen(b, k, d, t)
  {
  }

  /** A handler that does not move, while its decision is not created by anyone else. */
  lemma HandlerStays(svc: Service, w: World, w': World, h: nat)
    requires h in w.handlers && HandlerOk(svc, w, h) && Grows(w, w') && w'.handlers[h] == w.handlers[h]
    requires Unheld(w.review, w.handlers[h]) ==> Unheld(w'.review, w.handlers[h])
    ensures HandlerOk(svc, w', h)
  {
    hide Judge, RequestFor, ResponseOf, HeldFor, Unheld, RP.Advances;
    var x := w.handlers[h];
    MadeOkStays(w.audit, w'.audit, x);
    match x.phase
    case Saving => HeldForStays(w.review, w'.review, x.input.tenant, x.made.value, x.input.envelope);
    case Answered(s) => ServedOkStays(w, w', x.input.tenant, s);
    case _ =>
  }

  lemma CallerStays(w: World, w': World, c: nat)
    requires c in w.callers && CallerOk(w, c) && Grows(w, w') && w'.callers[c] == w.callers[c]
    ensures CallerOk(w', c)
  {
    hide ServedOk, Seen, RP.Advances, AuditGrows, D.AllowsExecution;
    var tenant := w.callers[c].setup.tenant;
    match w.callers[c].progress
    case Waiting(s) => ServedOkStays(w, w', tenant, s); ServedKnown(w, tenant, s);
    case Executed(ByPolicy(s)) => ServedOkStays(w, w', tenant, s); ServedKnown(w, tenant, s);
    case Executed(ByReview(s, d, t)) =>
      ServedOkStays(w, w', tenant, s);
      ServedKnown(w, tenant, s);
      SeenStays(w.review, w'.review, (tenant, s.response.decisionId), d, t);
    case _ =>
  }

  lemma ServedKnown(w: World, tenant: string, s: Served)
    requires ServedOk(w, tenant, s)
    ensures s.origin in w.handlers
  {
  }

  lemma IdemStays(w: World, w': World, k: (string, string))
    requires k in w.idem && IdemOk(w, k) && Grows(w, w')
    ensures IdemOk(w', k)
  {
    ServedOkStays(w, w', k.0, w.idem[k]);
  }

  /** The rest of the world after a step that moves at most one handler and one caller. */
  lemma OthersKept(sha: Hasher, svc: Service, w: World, w': World, moved: set<nat>, gone: set<nat>)
    requires Inv(sha, svc, w) && Grows(w, w')
    requires forall h | h in w.handlers && h !in moved ::
               w'.handlers[h] == w.handlers[h] && (Unheld(w.review, w.handlers[h]) ==> Unheld(w'.review, w.handlers[h]))
    requires forall c | c in w.callers && c !in gone :: w'.callers[c] == w.callers[c]
    ensures forall h | h in w.handlers && h !in moved :: HandlerOk(svc, w', h)
    ensures forall c | c in w.callers && c !in gone :: CallerOk(w', c)
    ensures forall k | k in w.idem :: IdemOk(w', k)
  {
    hide HandlerOk, CallerOk, IdemOk, Unheld, KeysOk, AP.Inv, RP.Inv;
    forall h | h in w.handlers && h !in moved ensures HandlerOk(svc, w', h) {
      HandlerStays(svc, w, w', h);
    }
    forall c | c in w.callers && c !in gone ensures CallerOk(w', c) {
      CallerStays(w, w', c);
    }
    forall k | k in w.idem ensures IdemOk(w', k) {
      IdemStays(w, w', k);
    }
  }

  /** Keys stay in order when no handler and no caller is added. */
  lemma KeysKept(w: World, w': World)
    requires KeysOk(w) && w'.handlers.Keys == w.handlers.Keys && w'.callers.Keys == w.callers.Keys
    requires forall h | h in w.handlers :: w'.handlers[h].input == w.handlers[h].input
    requires forall c | c in w.callers :: w'.callers[c].setup == w.callers[c].setup
    ensures KeysOk(w')
  {
    forall h, c | h in w'.handlers && c in w'.callers ensures Owned(w', h, c) {
      assert Owned(w, h, c);
    }
    forall h | h in w'.handlers ensures OwnerOk(w', h) {
      assert OwnerOk(w, h);
    }
  }

  lemma Parts(sha: Hasher, svc: Service, w: World)
    requires Inv(sha, svc, w)
    ensures AP.Inv(sha, w.audit) && RP.Inv(w.review) && KeysOk(w)
  {
    hide AP.Inv, RP.Inv, KeysOk, HandlerOk, IdemOk, CallerOk;
  }

  lemma HandlerPart(sha: Hasher, svc: Service, w: World, h: nat)
    requires Inv(sha, svc, w) && h in w.handlers
    ensures HandlerOk(svc, w, h)
  {
    hide AP.Inv, RP.Inv, KeysOk, HandlerOk, IdemOk, CallerOk;
  }

  lemma CallerPart(sha: Hasher, svc: Service, w: World, c: nat)
    requires Inv(sha, svc, w) && c in w.callers
    ensures CallerOk(w, c)
  {
    hide AP.Inv, RP.Inv, KeysOk, HandlerOk, IdemOk, CallerOk;
  }

  lemma IdemPart(sha: Hasher, svc: Service, w: World, k: (string, string))
    requires Inv(sha, svc, w) && k in w.idem
    ensures IdemOk(w, k)
  {
    hide AP.Inv, RP.Inv, KeysOk, HandlerOk, IdemOk, CallerOk;
  }

  lemma AuditSame(a: AP.State)
    ensures AuditGrows(a, a)
  {
  }

  lemma ReviewSame(s: RP.State)
    ensures RP.Advances(s, s)
  {
  }

  lemma Idle(sha: Hasher, svc: Service, w: World)
    ensures Grows(w, w)
  {
    AuditSame(w.audit);
    ReviewSame(w.review);
  }

  /** The shape of a step that moves one handler. */
  predicate OneHandler(w: World, w': World, h: nat) {
    && h in w.handlers && h in w'.handlers && w'.handlers == w.handlers[h := w'.handlers[h]]
    && w'.handlers[h].input == w.handlers[h].input
    && (w.handlers[h].made.Some? ==> w'.handlers[h].made == w.handlers[h].made)
    && w'.callers == w.callers
    && (forall k | k in w.idem :: k in w'.idem && w'.idem[k] == w.idem[k])
  }

  lemma OneHandlerGrows(w: World, w': World, h: nat)
    requires OneHandler(w, w', h) && AuditGrows(w.audit, w'.audit) && RP.Advances(w.review, w'.review)
    ensures Grows(w, w')
  {
    hide AuditGrows, RP.Advances;
  }

  /** A step that moves one handler, and perhaps stores its response. */
  lemma HandlerMoved(sha: Hasher, svc: Service, w: World, w': World, h: nat)
    requires Inv(sha, svc, w) && OneHandler(w, w', h) && AuditGrows(w.audit, w'.audit) && RP.Advances(w.review, w'.review)
    requires AP.Inv(sha, w'.audit) && RP.Inv(w'.review) && HandlerOk(svc, w', h)
    requires forall g | g in w.handlers && g != h && Unheld(w.review, w.handlers[g]) :: Unheld(w'.review, w.handlers[g])
    requires forall k | k in w'.idem && k !in w.idem :: IdemOk(w', k)
    ensures Inv(sha, svc, w') && Grows(w, w')
  {
    hide HandlerOk, CallerOk, IdemOk, KeysOk, Unheld, AP.Inv, RP.Inv, AuditGrows, RP.Advances;
    OneHandlerGrows(w, w', h);
    hide Grows;
    OthersKept(sha, svc, w, w', {h}, {});
    KeysKept(w, w');
  }

  /** The same, where neither the chain nor the decisions are touched. */
  lemma HandlerAlone(sha: Hasher, svc: Service, w: World, w': World, h: nat)
    requires Inv(sha, svc, w) && OneHandler(w, w', h) && w'.audit == w.audit && w'.review == w.review
    requires HandlerOk(svc, w', h)
    requires forall k | k in w'.idem && k !in w.idem :: IdemOk(w', k)
    ensures Inv(sha, svc, w') && Grows(w, w')
  {
    hide Inv, HandlerOk, IdemOk, KeysOk, Unheld, AP.Inv, RP.Inv, AuditGrows, RP.Advances, Grows, OneHandler;
    Parts(sha, svc, w);
    AuditSame(w.audit);
    ReviewSame(w.review);
    HandlerMoved(sha, svc, w, w', h);
  }

  /** A step that moves one caller. */
  lemma CallerMoved(sha: Hasher, svc: Service, w: World, w': World, c: nat)
    requires Inv(sha, svc, w) && c in w.callers && c in w'.callers
    requires w' == w.(callers := w.callers[c := w'.callers[c]])
    requires w'.callers[c].setup == w.callers[c].setup && CallerOk(w', c)
    ensures Inv(sha, svc, w') && Grows(w, w')
  {
    hide HandlerOk, CallerOk, IdemOk, KeysOk, Unheld, AP.Inv, RP.Inv, AuditGrows, RP.Advances;
    AuditSame(w.audit);
    ReviewSame(w.review);
    OthersKept(sha, svc, w, w', {}, {c});
    KeysKept(w, w');
  }

  /** A step of the chain or of the decision store alone. */
  lemma StoresMoved(sha: Hasher, svc: Service, w: World, w': World)
    requires Inv(sha, svc, w) && w'.handlers == w.handlers && w'.callers == w.callers && w'.idem == w.idem
    requires AuditGrows(w.audit, w'.audit) && RP.Advances(w.review, w'.review)
    requires w'.review.table.Keys == w.review.table.Keys
    requires AP.Inv(sha, w'.audit) && RP.Inv(w'.review)
    ensures Inv(sha, svc, w') && Grows(w, w')
  {
    hide HandlerOk, CallerOk, IdemOk, KeysOk, AP.Inv, RP.Inv, AuditGrows, RP.Advances;
    OthersKept(sha, svc, w, w', {}, {});
    KeysKept(w, w');
  }

  lemma ReviewKeys(s: RP.State, e: RP.Event)
    ensures !e.Create? ==> RP.Next(s, e).table.Keys == s.table.Keys
    ensures e.Create? ==> RP.Next(s, e).table.Keys <= s.table.Keys + {(e.decision.tenant, e.decision.id)}
  {
    if e.Step? && e.review in s.reviews {
      RP.StepEffect(s, e.review, e.resolvedAt, e.healthy);
    }
  }

  lemma ReviewEvent(sha: Hasher, svc: Service, w: World, e: RP.Event)
    requires Inv(sha, svc, w) && !e.Create?
    ensures var w' := w.(review := RP.Next(w.review, e)); Inv(sha, svc, w') && Grows(w, w')
  {
    hide Inv, Grows, KeysOk, AP.Inv, RP.Inv, RP.Next, RP.Advances, AuditGrows;
    Parts(sha, svc, w);
    AuditSame(w.audit);
    RP.NextKeepsInv(w.review, e);
    ReviewKeys(w.review, e);
    StoresMoved(sha, svc, w, w.(review := RP.Next(w.review, e)));
  }

  lemma AuditEvent(sha: Hasher, svc: Service, w: World, e: AP.Event, recordings: map<nat, nat>)
    requires Inv(sha, svc, w)
    ensures var w' := w.(audit := AP.Next(sha, w.audit, e), recordings := recordings);
            Inv(sha, svc, w') && Grows(w, w')
  {
    hide Inv, Grows, KeysOk, AP.Inv, RP.Inv, AP.Next, RP.Advances, AuditGrows;
    Parts(sha, svc, w);
    AP.NextKeepsInv(sha, w.audit, e);
    AuditNextGrows(sha, w.audit, e);
    ReviewSame(w.review);
    StoresMoved(sha, svc, w, w.(audit := AP.Next(sha, w.audit, e), recordings := recordings));
  }

  // --- requests arrive -------------------------------------------------------------------

  lemma OwnedStays(w: World, w': World, h: nat, c: nat)
    requires h in w.handlers && c in w.callers && Owned(w, h, c)
    requires h in w'.handlers && c in w'.callers
    requires w'.handlers[h].input == w.handlers[h].input && w'.callers[c].setup == w.callers[c].setup
    ensures Owned(w', h, c)
  {
  }

  lemma OwnerStays(w: World, w': World, h: nat)
    requires h in w.handlers && OwnerOk(w, h) && h in w'.handlers && w'.handlers[h].input == w.handlers[h].input
    requires forall c | c in w.callers :: c in w'.callers && w'.callers[c].setup == w.callers[c].setup
    ensures OwnerOk(w', h)
  {
  }

  /** The shape of a step that adds a handler. */
  predicate NewHandler(w: World, w': World, h: nat, input: Input) {
    && h !in w.handlers && NewId(w, input) && w'.handlers == w.handlers[h := Begun(input)]
    && w'.audit == w.audit && w'.review == w.review && w'.idem == w.idem && w'.recordings == w.recordings
    && w'.callers.Keys == w.callers.Keys && (forall c | c in w.callers :: w'.callers[c].setup == w.callers[c].setup)
  }

  lemma NewHandlerKeys(w: World, w': World, h: nat, input: Input)
    requires KeysOk(w) && NewHandler(w, w', h, input)
    requires OwnerOk(w', h) && forall c | c in w.callers :: Owned(w', h, c)
    ensures KeysOk(w')
  {
    hide Owned, OwnerOk;
    forall g, c | g in w'.handlers && c in w'.callers ensures Owned(w', g, c) {
      if g != h {
        OwnedStays(w, w', g, c);
      }
    }
    forall g | g in w'.handlers ensures OwnerOk(w', g) {
      if g != h {
        OwnerStays(w, w', g);
      }
    }
  }

  lemma NewHandlerOk(svc: Service, w: World, w': World, h: nat, input: Input)
    requires NewHandler(w, w', h, input)
    ensures HandlerOk(svc, w', h) && Grows(w, w')
  {
    hide AuditGrows, RP.Advances;
    AuditSame(w.audit);
    ReviewSame(w.review);
  }

  lemma HandlerAdded(sha: Hasher, svc: Service, w: World, w': World, h: nat, input: Input, sender: set<nat>)
    requires Inv(sha, svc, w) && NewHandler(w, w', h, input)
    requires OwnerOk(w', h) && forall c | c in w.callers :: Owned(w', h, c)
    requires forall c | c in w.callers && c !in sender :: w'.callers[c] == w.callers[c]
    requires forall c | c in sender :: c in w'.callers && CallerOk(w', c)
    ensures Inv(sha, svc, w') && Grows(w, w')
  {
    hide HandlerOk, CallerOk, IdemOk, KeysOk, AP.Inv, RP.Inv, Owned, OwnerOk, NewId, Grows;
    NewHandlerKeys(w, w', h, input);
    NewHandlerOk(svc, w, w', h, input);
    OthersKept(sha, svc, w, w', {}, sender);
  }

  lemma PostKeeps(sha: Hasher, svc: Service, w: World, h: nat, input: Input)
    requires Inv(sha, svc, w)
    ensures Inv(sha, svc, DoPost(w, h, input)) && Grows(w, DoPost(w, h, input))
  {
    hide Inv, Grows, NewId, CallerOk;
    var w' := DoPost(w, h, input);
    Idle(sha, svc, w);
    if w' != w {
      HandlerAdded(sha, svc, w, w', h, input, {});
    }
  }

  lemma SentOwned(w: World, w': World, c: nat, h: nat, input: Input)
    requires KeysOk(w) && c in w.callers && h in w'.handlers && w'.handlers[h].input == input
    requires Fits(w.callers[c].setup, input) && input.owner == Some(c)
    requires w'.callers.Keys == w.callers.Keys && forall b | b in w.callers :: w'.callers[b].setup == w.callers[b].setup
    ensures OwnerOk(w', h) && forall b | b in w.callers :: Owned(w', h, b)
  {
  }

  lemma SendKeeps(sha: Hasher, svc: Service, w: World, c: nat, h: nat, decisionId: string, extra: Extra)
    requires Inv(sha, svc, w)
    ensures Inv(sha, svc, DoSend(w, c, h, decisionId, extra)) && Grows(w, DoSend(w, c, h, decisionId, extra))
  {
    hide Inv, Grows, NewId, KeysOk, AP.Inv, RP.Inv;
    var w' := DoSend(w, c, h, decisionId, extra);
    Idle(sha, svc, w);
    if w' != w {
      var input := InputOf(w.callers[c].setup, c, decisionId, extra);
      Parts(sha, svc, w);
      SentOwned(w, w', c, h, input);
      assert CallerOk(w', c);
      hide CallerOk, Owned, OwnerOk;
      HandlerAdded(sha, svc, w, w', h, input, {c});
    }
  }

  // --- handlers move ---------------------------------------------------------------------

  lemma LookedOk(svc: Service, w: World, h: nat, healthy: bool)
    requires h in w.handlers && HandlerOk(svc, w, h)
    requires var k := (w.handlers[h].input.tenant, w.handlers[h].input.key); k in w.idem ==> IdemOk(w, k)
    ensures HandlerOk(svc, DoLook(w, h, healthy), h)
    ensures OneHandler(w, DoLook(w, h, healthy), h)
  {
    hide Judge, HeldFor, MadeOk, ServedOk, RP.Advances, RequestFor;
    var w' := DoLook(w, h, healthy);
    var k := (w.handlers[h].input.tenant, w.handlers[h].input.key);
    if w' != w {
      MadeSame(w.audit, w.handlers[h], w'.handlers[h]);
    }
    if k in w.idem {
      assert SameHandlers(w, w');
      ReviewSame(w.review);
      ServedKnown(w, k.0, w.idem[k]);
      ServedOkStays(w, w', k.0, w.idem[k]);
    }
  }

  lemma MadeSame(a: AP.State, x: Handler, y: Handler)
    requires MadeOk(a, x) && y.input == x.input && y.verdict == x.verdict && y.call == x.call && y.made == x.made
    ensures MadeOk(a, y)
  {
  }

  lemma LookKeeps(sha: Hasher, svc: Service, w: World, h: nat, healthy: bool)
    requires Inv(sha, svc, w)
    ensures Inv(sha, svc, DoLook(w, h, healthy)) && Grows(w, DoLook(w, h, healthy))
  {
    hide Inv, Grows, HandlerOk, IdemOk;
    var w' := DoLook(w, h, healthy);
    Idle(sha, svc, w);
    if w' != w {
      var k := (w.handlers[h].input.tenant, w.handlers[h].input.key);
      HandlerPart(sha, svc, w, h);
      if k in w.idem {
        IdemPart(sha, svc, w, k);
      }
      LookedOk(svc, w, h, healthy);
      HandlerAlone(sha, svc, w, w', h);
    }
  }

  lemma DecidedOk(sha: Hasher, svc: Service, w: World, h: nat, node: nat, visit: PP.Visit, call: nat)
    requires h in w.handlers && HandlerOk(svc, w, h)
    ensures var w' := DoDecide(sha, svc, w, h, node, visit, call); HandlerOk(svc, w', h) && OneHandler(w, w', h)
  {
    hide Judge, RequestFor, ServedOk, HeldFor, BundleFor;
  }

  lemma DecideKeeps(sha: Hasher, svc: Service, w: World, h: nat, node: nat, visit: PP.Visit, call: nat)
    requires Inv(sha, svc, w)
    ensures var w' := DoDecide(sha, svc, w, h, node, visit, call); Inv(sha, svc, w') && Grows(w, w')
  {
    hide Inv, Grows, HandlerOk, Judge, RequestFor, BundleFor, AP.Inv, RP.Inv, RP.Advances, AuditGrows, KeysOk, OneHandler,
         AP.Next;
    var w' := DoDecide(sha, svc, w, h, node, visit, call);
    Idle(sha, svc, w);
    if w' != w {
      var input := w.handlers[h].input;
      var bundle := BundleFor(svc, CallsOf(w, node), input.tenant, visit);
      var e := AP.Begin(call, RequestFor(input, Judge(svc.rt, input.tenant, input.envelope, bundle)));
      Parts(sha, svc, w);
      HandlerPart(sha, svc, w, h);
      DecidedOk(sha, svc, w, h, node, visit, call);
      AP.NextKeepsInv(sha, w.audit, e);
      AuditNextGrows(sha, w.audit, e);
      ReviewSame(w.review);
      HandlerMoved(sha, svc, w, w', h);
    }
  }

  lemma AppendedToOk(svc: Service, w: World, w': World, h: nat)
    requires h in w.handlers && HandlerOk(svc, w, h) && w.handlers[h].phase.Auditing?
    requires AuditGrows(w.audit, w'.audit) && w'.review == w.review
    requires w.handlers[h].phase.call in w'.audit.calls && h in w'.handlers
    requires w'.handlers[h] == AppendedTo(w.handlers[h], w'.audit.calls[w.handlers[h].phase.call].writer)
    ensures HandlerOk(svc, w', h)
  {
    hide Judge, RequestFor, ServedOk;
  }

  lemma AppendedShape(sha: Hasher, w: World, h: nat, env: Env)
    requires h in w.handlers && w.handlers[h].phase.Auditing? && w.handlers[h].verdict.Some?
    requires w.handlers[h].phase.call in w.audit.calls
    ensures var w' := DoAppend(sha, w, h, env);
            var x := w.handlers[h];
            && w'.audit == AP.Next(sha, w.audit, AP.Step(x.phase.call, env)) && AuditGrows(w.audit, w'.audit)
            && x.phase.call in w'.audit.calls
            && w' == WithHandler(w, h, AppendedTo(x, w'.audit.calls[x.phase.call].writer)).(audit := w'.audit)
  {
    var x := w.handlers[h];
    AuditNextGrows(sha, w.audit, AP.Step(x.phase.call, env));
    hide AP.Next, AppendedTo;
  }

  /** A handler gets a response only from the record its append was told of, and holds the call before anything else where
      that says so; if the append fails the request does. */
  lemma AppendEnds(sha: Hasher, w: World, h: nat, env: Env)
    requires h in w.handlers && w.handlers[h].phase.Auditing? && w.handlers[h].verdict.Some?
    requires w.handlers[h].phase.call in w.audit.calls
    ensures var w' := DoAppend(sha, w, h, env);
            var x := w.handlers[h];
            && h in w'.handlers && x.phase.call in w'.audit.calls
            && var x' := w'.handlers[h];
            match w'.audit.calls[x.phase.call].writer
            case Appended(record) =>
              && x'.made.Some? && x'.made.value.auditSeq == record.seqNo && x'.made.value.auditHash == record.hash
              && x'.phase == if x'.made.value.decision == P.RequireHitl then Holding else Saving
            case WriteFailed(_, _) => x'.phase == Gone && x'.made == x.made
            case Raised => x'.phase == Gone && x'.made == x.made
            case _ => x' == x
  {
    AppendedShape(sha, w, h, env);
    hide AP.Next, DoAppend, AuditGrows;
  }

  lemma AppendedToKeeps(x: Handler, writer: Writer)
    requires x.verdict.Some? && x.made == None
    ensures AppendedTo(x, writer).input == x.input
  {
    hide ResponseOf;
  }

  lemma AppendedOk(sha: Hasher, svc: Service, w: World, h: nat, env: Env)
    requires h in w.handlers && HandlerOk(svc, w, h) && w.handlers[h].phase.Auditing?
    ensures h in DoAppend(sha, w, h, env).handlers
    ensures var w' := DoAppend(sha, w, h, env); HandlerOk(svc, w', h) && OneHandler(w, w', h)
  {
    InAudit(svc, w, h);
    AppendedShape(sha, w, h, env);
    hide HandlerOk, AP.Next, AuditGrows, AppendedTo, DoAppend;
    var w' := DoAppend(sha, w, h, env);
    AppendedToKeeps(w.handlers[h], w'.audit.calls[w.handlers[h].phase.call].writer);
    AppendedToOk(svc, w, w', h);
  }

  lemma InAudit(svc: Service, w: World, h: nat)
    requires h in w.handlers && HandlerOk(svc, w, h) && w.handlers[h].phase.Auditing?
    ensures var x := w.handlers[h]; x.verdict.Some? && x.made == None && x.phase.call in w.audit.calls
  {
    hide Judge, RequestFor, MadeOk;
  }

  lemma AppendKeeps(sha: Hasher, svc: Service, w: World, h: nat, env: Env)
    requires Inv(sha, svc, w)
    ensures Inv(sha, svc, DoAppend(sha, w, h, env)) && Grows(w, DoAppend(sha, w, h, env))
  {
    hide Inv, Grows, HandlerOk, ResponseOf, AP.Inv, RP.Inv, RP.Advances, AuditGrows, KeysOk, OneHandler, AP.Next;
    var w' := DoAppend(sha, w, h, env);
    Idle(sha, svc, w);
    if h in w.handlers && w.handlers[h].phase.Auditing? && w' != w {
      var e := AP.Step(w.handlers[h].phase.call, env);
      Parts(sha, svc, w);
      HandlerPart(sha, svc, w, h);
      AppendedOk(sha, svc, w, h, env);
      AP.NextKeepsInv(sha, w.audit, e);
      AuditNextGrows(sha, w.audit, e);
      ReviewSame(w.review);
      HandlerMoved(sha, svc, w, w', h);
    }
  }

  lemma UnheldKept(w: World, w': World, h: nat)
    requires KeysOk(w) && h in w.handlers
    requires w'.review.table.Keys <= w.review.table.Keys + {(w.handlers[h].input.tenant, w.handlers[h].input.decisionId)}
    ensures forall g | g in w.handlers && g != h && Unheld(w.review, w.handlers[g]) :: Unheld(w'.review, w.handlers[g])
  {
  }

  /** The record behind a response has a number. */
  lemma RecordNumbered(sha: Hasher, audit: AP.State, x: Handler)
    requires AP.Inv(sha, audit) && MadeOk(audit, x) && x.made.Some?
    ensures x.made.value.auditSeq >= 1 && x.made.value.decisionId == x.input.decisionId
  {
    hide Judge, RequestFor, AllChainsOk, RecordsDecision, Payload;
    assert AP.CallOk(sha, audit, x.call.value);
  }

  lemma HeldNow(w: World, x: Handler, createdAt: string)
    requires x.made.Some?
    ensures var d := DecisionFor(w, x, createdAt);
            ShowsCall(d.details, x.input.envelope) && HeldSince(d, x.made.value.timeoutSeconds, w.review.clock)
  {
    DetailsShow(x.input.envelope);
    hide DetailsOf, ShowsCall;
    assert ExpiresAfter(DecisionFor(w, x, createdAt), w.review.clock, x.made.value.timeoutSeconds);
  }

  lemma HeldOk(svc: Service, w: World, h: nat, createdAt: string, healthy: bool)
    requires h in w.handlers && HandlerOk(svc, w, h) && w.handlers[h].phase.Holding?
    requires w.handlers[h].made.Some? ==>
               w.handlers[h].made.value.auditSeq >= 1
               && w.handlers[h].made.value.decisionId == w.handlers[h].input.decisionId
    ensures var w' := DoHold(w, h, createdAt, healthy); HandlerOk(svc, w', h) && OneHandler(w, w', h)
  {
    hide Judge, RequestFor, ServedOk, ResponseOf, ShowsCall, HeldSince, DetailsOf;
    if w.handlers[h].made.Some? {
      HeldNow(w, w.handlers[h], createdAt);
    }
  }

  lemma HoldKeeps(sha: Hasher, svc: Service, w: World, h: nat, createdAt: string, healthy: bool)
    requires Inv(sha, svc, w)
    ensures var w' := DoHold(w, h, createdAt, healthy); Inv(sha, svc, w') && Grows(w, w')
  {
    hide Inv, Grows, AP.Inv, RP.Inv, RP.Advances, AuditGrows, KeysOk, OneHandler, RP.Next, Unheld, MadeOk, Judge;
    var w' := DoHold(w, h, createdAt, healthy);
    Idle(sha, svc, w);
    if h in w.handlers && w.handlers[h].phase.Holding? && w' != w {
      Parts(sha, svc, w);
      HandlerPart(sha, svc, w, h);
      RecordNumbered(sha, w.audit, w.handlers[h]);
      HeldOk(svc, w, h, createdAt, healthy);
      hide HandlerOk;
      if healthy {
        var e := RP.Create(DecisionFor(w, w.handlers[h], createdAt));
        RP.NextKeepsInv(w.review, e);
        ReviewKeys(w.review, e);
        UnheldKept(w, w', h);
        AuditSame(w.audit);
        HandlerMoved(sha, svc, w, w', h);
      } else {
        HandlerAlone(sha, svc, w, w', h);
      }
    }
  }

  lemma SavedShape(w: World, h: nat, net: Net)
    requires h in w.handlers
    ensures var w' := DoSave(w, h, net);
            && h in w'.handlers && w' == w.(handlers := w.handlers[h := w'.handlers[h]], idem := w'.idem)
            && w'.handlers[h] == w.handlers[h].(phase := w'.handlers[h].phase)
            && (forall k | k in w.idem :: k in w'.idem && w'.idem[k] == w.idem[k])
  {
    assert w.handlers == w.handlers[h := w.handlers[h]];
  }

  lemma SavedPhaseOk(w: World, h: nat, net: Net)
    requires h in w.handlers && w.handlers[h].phase.Saving? && w.handlers[h].made.Some?
    requires var x := w.handlers[h]; HeldFor(w.review, x.input.tenant, x.made.value, x.input.envelope)
    ensures h in DoSave(w, h, net).handlers && PhaseOk(DoSave(w, h, net), h)
  {
    hide HeldFor;
  }

  lemma SavedOk(svc: Service, w: World, h: nat, net: Net)
    requires h in w.handlers && HandlerOk(svc, w, h) && w.handlers[h].phase.Saving?
    ensures h in DoSave(w, h, net).handlers
    ensures var w' := DoSave(w, h, net); HandlerOk(svc, w', h) && OneHandler(w, w', h)
  {
    hide Judge, MadeOk, HeldFor, DoSave;
    var w' := DoSave(w, h, net);
    SavedShape(w, h, net);
    assert w.handlers[h].made.Some?;
    SavedPhaseOk(w, h, net);
    hide PhaseOk;
    MadeSame(w.audit, w.handlers[h], w'.handlers[h]);
  }

  lemma SavedIdem(w: World, h: nat, net: Net)
    requires h in w.handlers && w.handlers[h].phase.Saving?
    requires var x := w.handlers[h]; x.made.Some? ==> HeldFor(w.review, x.input.tenant, x.made.value, x.input.envelope)
    ensures var w' := DoSave(w, h, net);
            var x := w.handlers[h];
            && (forall k | k in w.idem :: k in w'.idem && w'.idem[k] == w.idem[k])
            && (forall k | k in w'.idem && k !in w.idem ::
                  && IdemOk(w', k) && k == (x.input.tenant, x.input.key)
                  && x.made.Some? && w'.idem[k] == Served(x.made.value, h))
            && (x.made.Some? && x.input.key != "" && net == Up ==> (x.input.tenant, x.input.key) in w'.idem)
    ensures var x := w.handlers[h];
            x.made.Some? ==>
              && h in DoSave(w, h, net).handlers
              && DoSave(w, h, net).handlers[h].phase
                 == if x.input.key != "" && net == Broken then Gone else Answered(Served(x.made.value, h))
  {
    hide HeldFor;
  }

  lemma SavingIsHeld(svc: Service, w: World, h: nat)
    requires h in w.handlers && HandlerOk(svc, w, h) && w.handlers[h].phase.Saving?
    ensures var x := w.handlers[h]; x.made.Some? ==> HeldFor(w.review, x.input.tenant, x.made.value, x.input.envelope)
  {
    hide Judge, MadeOk, HeldFor;
  }

  lemma SaveKeeps(sha: Hasher, svc: Service, w: World, h: nat, net: Net)
    requires Inv(sha, svc, w)
    ensures Inv(sha, svc, DoSave(w, h, net)) && Grows(w, DoSave(w, h, net))
  {
    hide Inv, Grows, HandlerOk, IdemOk, OneHandler;
    var w' := DoSave(w, h, net);
    Idle(sha, svc, w);
    if h in w.handlers && w.handlers[h].phase.Saving? && w' != w {
      HandlerPart(sha, svc, w, h);
      SavingIsHeld(svc, w, h);
      SavedOk(svc, w, h, net);
      SavedIdem(w, h, net);
      hide HeldFor, DoSave;
      HandlerAlone(sha, svc, w, w', h);
    }
  }

  // --- callers move ----------------------------------------------------------------------

  lemma CallerAdded(w: World, w': World, c: nat)
    requires KeysOk(w) && c !in w.callers && c in w'.callers
    requires w'.handlers == w.handlers && w'.callers == w.callers[c := w'.callers[c]]
    requires w'.callers[c].setup.key != ""
    requires forall b | b in w.callers ::
               w.callers[b].setup.tenant != w'.callers[c].setup.tenant || w.callers[b].setup.key != w'.callers[c].setup.key
    requires forall h | h in w.handlers :: !SameKey(w'.callers[c].setup, w.handlers[h].input)
    ensures KeysOk(w')
  {
    forall h, b | h in w'.handlers && b in w'.callers ensures Owned(w', h, b) {
      if b != c {
        assert Owned(w, h, b);
      }
    }
    forall h | h in w'.handlers ensures OwnerOk(w', h) {
      assert OwnerOk(w, h);
    }
  }

  lemma CalledOk(w: World, c: nat, setup: Setup, breakerOpen: bool)
    requires KeysOk(w) && DoCall(w, c, setup, breakerOpen) != w
    ensures var w' := DoCall(w, c, setup, breakerOpen);
            && c !in w.callers && c in w'.callers && w' == w.(callers := w.callers[c := w'.callers[c]])
            && KeysOk(w') && CallerOk(w', c)
  {
    hide KeysOk, ServedOk, SameKey;
    CallerAdded(w, DoCall(w, c, setup, breakerOpen), c);
  }

  lemma CallKeeps(sha: Hasher, svc: Service, w: World, c: nat, setup: Setup, breakerOpen: bool)
    requires Inv(sha, svc, w)
    ensures var w' := DoCall(w, c, setup, breakerOpen); Inv(sha, svc, w') && Grows(w, w')
  {
    hide DoCall, HandlerOk, IdemOk, CallerOk, AP.Inv, RP.Inv, RP.Advances, AuditGrows, Unheld, KeysOk;
    var w' := DoCall(w, c, setup, breakerOpen);
    AuditSame(w.audit);
    ReviewSame(w.review);
    if w' != w {
      CalledOk(w, c, setup, breakerOpen);
      OthersKept(sha, svc, w, w', {}, {});
    }
  }

  /** What is delivered to an SDK call was made for it. */
  lemma {:induction false} DeliveredIsGiven(sha: Hasher, svc: Service, w: World, c: nat, h: nat)
    requires Inv(sha, svc, w) && c in w.callers && h in w.handlers && w.handlers[h].input.owner == Some(c)
    requires w.handlers[h].phase.Answered?
    ensures GivenTo(w, c, w.handlers[h].phase.served)
  {
    hide Inv, AP.Inv, RP.Inv, Judge, MadeOk, HeldFor;
    Parts(sha, svc, w);
    HandlerPart(sha, svc, w, h);
    assert OwnerOk(w, h);
    assert Owned(w, w.handlers[h].phase.served.origin, c);
  }

  lemma GivenSame(w: World, w': World, c: nat, s: Served)
    requires c in w.callers && GivenTo(w, c, s) && c in w'.callers && w'.callers[c].setup == w.callers[c].setup
    requires w'.handlers == w.handlers && w'.review == w.review
    ensures GivenTo(w', c, s)
  {
  }

  lemma FinishedCallerOk(w: World, c: nat, delivered: bool, error: Sdk.Reply<Served>)
    requires c in w.callers && w.callers[c].progress.Posting?
    requires var handler := w.callers[c].progress.handler;
             handler.Some? && handler.value in w.handlers && w.handlers[handler.value].phase.Answered? ==>
               GivenTo(w, c, w.handlers[handler.value].phase.served)
    ensures CallerOk(DoFinish(w, c, delivered, error), c)
  {
    hide ServedOk;
    var w' := DoFinish(w, c, delivered, error);
    var handler := w.callers[c].progress.handler;
    if handler.Some? && handler.value in w.handlers && w.handlers[handler.value].phase.Answered? {
      GivenSame(w, w', c, w.handlers[handler.value].phase.served);
    }
  }

  lemma FinishKeeps(sha: Hasher, svc: Service, w: World, c: nat, delivered: bool, error: Sdk.Reply<Served>)
    requires Inv(sha, svc, w)
    ensures Inv(sha, svc, DoFinish(w, c, delivered, error)) && Grows(w, DoFinish(w, c, delivered, error))
  {
    hide Inv, Grows, GivenTo, Proceed, ReplyTo;
    Idle(sha, svc, w);
    if c in w.callers && w.callers[c].progress.Posting? {
      CallerPart(sha, svc, w, c);
      var handler := w.callers[c].progress.handler;
      if handler.Some? && handler.value in w.handlers && w.handlers[handler.value].phase.Answered? {
        DeliveredIsGiven(sha, svc, w, c, handler.value);
      }
      hide CallerOk;
      FinishedCallerOk(w, c, delivered, error);
      CallerMoved(sha, svc, w, DoFinish(w, c, delivered, error), c);
    }
  }

  lemma PolledCallerOk(w: World, c: nat, last: bool, ok: bool)
    requires c in w.callers && w.callers[c].progress.Waiting? && CallerOk(w, c)
    requires forall k | k in w.review.table :: k == (w.review.table[k].tenant, w.review.table[k].id)
    ensures CallerOk(DoPoll(w, c, last, ok), c)
  {
    hide ServedOk, D.AllowsExecution, D.EffectiveStatus;
    GivenSame(w, DoPoll(w, c, last, ok), c, w.callers[c].progress.served);
  }

  lemma TableKeys(s: RP.State)
    requires RP.Inv(s)
    ensures forall k | k in s.table :: k == (s.table[k].tenant, s.table[k].id)
  {
    forall k | k in s.table ensures k == (s.table[k].tenant, s.table[k].id) {
      assert RP.DecisionOk(k, s.table[k]);
    }
  }

  lemma PollKeeps(sha: Hasher, svc: Service, w: World, c: nat, last: bool, ok: bool)
    requires Inv(sha, svc, w)
    ensures Inv(sha, svc, DoPoll(w, c, last, ok)) && Grows(w, DoPoll(w, c, last, ok))
  {
    hide Inv, Grows, CallerOk, AP.Inv, RP.Inv, KeysOk, D.AllowsExecution, D.EffectiveStatus;
    Idle(sha, svc, w);
    if c in w.callers && w.callers[c].progress.Waiting? {
      Parts(sha, svc, w);
      TableKeys(w.review);
      CallerPart(sha, svc, w, c);
      PolledCallerOk(w, c, last, ok);
      CallerMoved(sha, svc, w, DoPoll(w, c, last, ok), c);
    }
  }

  // ---------------------------------------------------------------------------------------
  // Every run
  // ---------------------------------------------------------------------------------------

  lemma RecordKeeps(sha: Hasher, svc: Service, w: World, e: Event)
    requires Inv(sha, svc, w) && (e.Record? || e.RecordStep?)
    ensures Inv(sha, svc, Next(sha, svc, w, e)) && Grows(w, Next(sha, svc, w, e))
  {
    hide Inv, Grows, AP.Next, RequestOf;
    var w' := Next(sha, svc, w, e);
    if w' == w {
      Idle(sha, svc, w);
    } else if e.Record? {
      var d := w.review.reviews[e.review].reviewer.decision;
      AuditEvent(sha, svc, w, AP.Begin(e.call, ResolutionRequest(d, e.extra)), w'.recordings);
    } else {
      AuditEvent(sha, svc, w, AP.Step(w.recordings[e.review], e.env), w.recordings);
    }
  }

  lemma InvalidateKeeps(sha: Hasher, svc: Service, w: World, node: nat, only: Option<string>)
    requires Inv(sha, svc, w)
    ensures Inv(sha, svc, DoInvalidate(w, node, only)) && Grows(w, DoInvalidate(w, node, only))
  {
    hide AP.Inv, RP.Inv, KeysOk, AuditGrows, RP.Advances;
    Parts(sha, svc, w);
    AuditSame(w.audit);
    ReviewSame(w.review);
    StoresMoved(sha, svc, w, DoInvalidate(w, node, only));
  }

  lemma NextKeeps(sha: Hasher, svc: Service, w: World, e: Event)
    requires Inv(sha, svc, w)
    ensures Inv(sha, svc, Next(sha, svc, w, e)) && Grows(w, Next(sha, svc, w, e))
  {
    hide Inv, Grows, AP.Next, RP.Next;
    hide DoPost, DoLook, DoDecide, DoAppend, DoHold, DoSave, DoRecord, DoCall, DoSend, DoFinish, DoPoll;
    match e
    case Tick(elapsed) => ReviewEvent(sha, svc, w, RP.Tick(elapsed));
    case Post(h, input) => PostKeeps(sha, svc, w, h, input);
    case Look(h, healthy) => LookKeeps(sha, svc, w, h, healthy);
    case Decide(h, node, visit, call) => DecideKeeps(sha, svc, w, h, node, visit, call);
    case Invalidate(node, only) => InvalidateKeeps(sha, svc, w, node, only);
    case Append(h, env) => AppendKeeps(sha, svc, w, h, env);
    case Hold(h, createdAt, healthy) => HoldKeeps(sha, svc, w, h, createdAt, healthy);
    case Save(h, net) => SaveKeeps(sha, svc, w, h, net);
    case Resolve(review, ruling) => ReviewEvent(sha, svc, w, RP.Begin(review, ruling));
    case ReviewStep(review, resolvedAt, healthy) => ReviewEvent(sha, svc, w, RP.Step(review, resolvedAt, healthy));
    case Record(_, _, _) => RecordKeeps(sha, svc, w, e);
    case RecordStep(_, _) => RecordKeeps(sha, svc, w, e);
    case Call(c, setup, breakerOpen) => CallKeeps(sha, svc, w, c, setup, breakerOpen);
    case Send(c, h, decisionId, extra) => SendKeeps(sha, svc, w, c, h, decisionId, extra);
    case Finish(c, delivered, error) => FinishKeeps(sha, svc, w, c, delivered, error);
    case Poll(c, last, ok) => PollKeeps(sha, svc, w, c, last, ok);
  }

  lemma GrowsTransitive(w: World, v: World, u: World)
    requires Grows(w, v) && Grows(v, u)
    ensures Grows(w, u)
  {
    RP.AdvancesTransitive(w.review, v.review, u.review);
    hide RP.Advances;
  }

  lemma {:induction false} RunKeeps(sha: Hasher, svc: Service, w: World, es: seq<Event>)
    requires Inv(sha, svc, w)
    ensures Inv(sha, svc, Run(sha, svc, w, es)) && Grows(w, Run(sha, svc, w, es))
    decreases |es|
  {
    hide Inv, Next, Grows;
    if es == [] {
      Idle(sha, svc, w);
    } else {
      var v := Run(sha, svc, w, es[..|es| - 1]);
      RunKeeps(sha, svc, w, es[..|es| - 1]);
      NextKeeps(sha, svc, v, es[|es| - 1]);
      GrowsTransitive(w, v, Run(sha, svc, w, es));
    }
  }

  lemma InitInv(sha: Hasher, svc: Service)
    ensures Inv(sha, svc, INIT)
  {
    AP.InitInv(sha);
  }

  // --- where bundles come from -----------------------------------------------------------

  /** This call of this container's provider served this bundle. */
  ghost predicate Provided(svc: Service, asked: map<nat, seq<PP.Call>>, tenant: string, a: Asked, bundle: P.Bundle) {
    && a.node in asked && a.index < |asked[a.node]| && asked[a.node][a.index] == PP.Get(tenant, a.visit)
    && bundle == BundleFor(svc, asked[a.node][..a.index], tenant, a.visit)
  }

  ghost predicate BundleOk(svc: Service, asked: map<nat, seq<PP.Call>>, x: Handler) {
    x.verdict.Some? ==> x.asked.Some? && Provided(svc, asked, x.input.tenant, x.asked.value, x.verdict.value.bundle)
  }

  ghost predicate BundlesOk(svc: Service, w: World) { forall h | h in w.handlers :: BundleOk(svc, w.asked, w.handlers[h]) }

  /** Verdicts are made only by `Decide`. */
  predicate VerdictsKept(w: World, w': World) {
    forall h | h in w'.handlers && w'.handlers[h].verdict.Some? ::
      && h in w.handlers && w'.handlers[h].verdict == w.handlers[h].verdict
      && w'.handlers[h].asked == w.handlers[h].asked && w'.handlers[h].input == w.handlers[h].input
  }

  lemma HandlerVerdicts(sha: Hasher, svc: Service, w: World, e: Event)
    requires e.Post? || e.Look? || e.Append? || e.Hold? || e.Save? || e.Send?
    ensures VerdictsKept(w, Next(sha, svc, w, e)) && Next(sha, svc, w, e).asked == w.asked
  {
    hide AP.Next, RP.Next, ResponseOf, NewId, SameKey, DecisionFor, DoPost, DoLook, DoAppend, DoHold, DoSave, DoSend;
    match e
    case Post(h, input) => PostVerdicts(w, h, input);
    case Look(h, healthy) => LookVerdicts(w, h, healthy);
    case Append(h, env) => AppendVerdicts(sha, w, h, env);
    case Hold(h, createdAt, healthy) => HoldVerdicts(w, h, createdAt, healthy);
    case Save(h, net) => SaveVerdicts(w, h, net);
    case Send(c, h, decisionId, extra) => SendVerdicts(w, c, h, decisionId, extra);
  }

  lemma PostVerdicts(w: World, h: nat, input: Input)
    ensures VerdictsKept(w, DoPost(w, h, input)) && DoPost(w, h, input).asked == w.asked
  {
    hide NewId, SameKey;
  }

  lemma LookVerdicts(w: World, h: nat, healthy: bool)
    ensures VerdictsKept(w, DoLook(w, h, healthy)) && DoLook(w, h, healthy).asked == w.asked
  {
  }

  lemma AppendVerdicts(sha: Hasher, w: World, h: nat, env: Env)
    ensures VerdictsKept(w, DoAppend(sha, w, h, env)) && DoAppend(sha, w, h, env).asked == w.asked
  {
    hide AP.Next, ResponseOf;
  }

  lemma HoldVerdicts(w: World, h: nat, createdAt: string, healthy: bool)
    ensures VerdictsKept(w, DoHold(w, h, createdAt, healthy)) && DoHold(w, h, createdAt, healthy).asked == w.asked
  {
    hide RP.Next, DecisionFor;
  }

  lemma SaveVerdicts(w: World, h: nat, net: Net)
    ensures VerdictsKept(w, DoSave(w, h, net)) && DoSave(w, h, net).asked == w.asked
  {
    if h in w.handlers {
      SavedShape(w, h, net);
      hide DoSave;
    }
  }

  lemma SendVerdicts(w: World, c: nat, h: nat, decisionId: string, extra: Extra)
    ensures VerdictsKept(w, DoSend(w, c, h, decisionId, extra)) && DoSend(w, c, h, decisionId, extra).asked == w.asked
  {
    hide NewId;
  }

  lemma NextVerdicts(sha: Hasher, svc: Service, w: World, e: Event)
    requires !e.Decide?
    ensures VerdictsKept(w, Next(sha, svc, w, e))
    ensures !e.Invalidate? ==> Next(sha, svc, w, e).asked == w.asked
  {
    if e.Post? || e.Look? || e.Append? || e.Hold? || e.Save? || e.Send? {
      HandlerVerdicts(sha, svc, w, e);
      hide VerdictsKept, Next;
    } else {
      HandlersUntouched(sha, svc, w, e);
      hide Next;
    }
  }

  lemma ProvidedLater(svc: Service, asked: map<nat, seq<PP.Call>>, node: nat, call: PP.Call, tenant: string, a: Asked,
                      bundle: P.Bundle)
    requires Provided(svc, asked, tenant, a, bundle)
    ensures var calls := if node in asked then asked[node] else [];
            Provided(svc, asked[node := calls + [call]], tenant, a, bundle)
  {
    if a.node == node {
      assert (asked[node] + [call])[..a.index] == asked[node][..a.index];
    }
    hide BundleFor;
  }

  lemma KeptBundles(svc: Service, w: World, w': World, node: nat, call: PP.Call)
    requires BundlesOk(svc, w) && VerdictsKept(w, w')
    requires w'.asked == w.asked || w'.asked == w.asked[node := CallsOf(w, node) + [call]]
    ensures BundlesOk(svc, w')
  {
    hide Provided;
    forall h | h in w'.handlers ensures BundleOk(svc, w'.asked, w'.handlers[h]) {
      var x := w'.handlers[h];
      if x.verdict.Some? {
        assert BundleOk(svc, w.asked, w.handlers[h]);
        ProvidedLater(svc, w.asked, node, call, x.input.tenant, x.asked.value, x.verdict.value.bundle);
      }
    }
  }

  lemma DecidedBundles(sha: Hasher, svc: Service, w: World, h: nat, node: nat, visit: PP.Visit, call: nat)
    requires BundlesOk(svc, w)
    ensures BundlesOk(svc, DoDecide(sha, svc, w, h, node, visit, call))
  {
    hide AP.Next, Judge, RequestFor, BundleFor;
    var w' := DoDecide(sha, svc, w, h, node, visit, call);
    if w' != w {
      var calls := CallsOf(w, node);
      assert (calls + [PP.Get(w.handlers[h].input.tenant, visit)])[..|calls|] == calls;
      var others := w.(handlers := w'.handlers - {h}, asked := w'.asked);
      KeptBundles(svc, w, others, node, PP.Get(w.handlers[h].input.tenant, visit));
      hide Provided;
      forall g | g in w'.handlers ensures BundleOk(svc, w'.asked, w'.handlers[g]) {
        if g != h {
          assert g in others.handlers && others.handlers[g] == w'.handlers[g];
        }
      }
    }
  }

  lemma {:induction false} RunBundles(sha: Hasher, svc: Service, es: seq<Event>)
    ensures BundlesOk(svc, Run(sha, svc, INIT, es))
    decreases |es|
  {
    hide BundleOk, VerdictsKept, DoDecide;
    if es != [] {
      var v, e := Run(sha, svc, INIT, es[..|es| - 1]), es[|es| - 1];
      RunBundles(sha, svc, es[..|es| - 1]);
      match e
      case Decide(h, node, visit, call) => DecidedBundles(sha, svc, v, h, node, visit, call);
      case Invalidate(node, only) =>
        NextVerdicts(sha, svc, v, e);
        KeptBundles(svc, v, Next(sha, svc, v, e), node, PP.Invalidate(only));
      case _ =>
        NextVerdicts(sha, svc, v, e);
        hide Next;
        KeptBundles(svc, v, Next(sha, svc, v, e), 0, PP.Invalidate(None));
    }
  }

  // ---------------------------------------------------------------------------------------
  // Main results
  // ---------------------------------------------------------------------------------------

  /** What an append was told is in the chain. */
  lemma ToldIsStored(sha: Hasher, a: AP.State, call: nat)
    requires AP.Inv(sha, a) && call in a.calls && a.calls[call].writer.Appended?
    ensures var record := a.calls[call].writer.record;
            var r := a.calls[call].request;
            && record.tenantId == r.tenant && record.seqNo >= 1
            && SlotOf(r.tenant, record.seqNo) in a.log
            && var item := a.log[SlotOf(r.tenant, record.seqNo)];
            && item.hash == record.hash && item.payloadJson == CanonicalJson(Payload(r, record.timestamp))
            && RecordsDecision(item, r.decisionId) && RecordsOrigin(item, r.tenant)
  {
    hide AllChainsOk, RecordsDecision, Payload, CanonicalJson, RecordsOrigin;
    assert AP.CallOk(sha, a, call);
    var r, record := a.calls[call].request, a.calls[call].writer.record;
    StoredOrigin(r, a.log[SlotOf(r.tenant, record.seqNo)]);
  }

  lemma {:induction false} MadeIsRecorded(sha: Hasher, svc: Service, audit: AP.State, x: Handler)
    requires AP.Inv(sha, audit) && MadeOk(audit, x) && x.made.Some? && x.verdict.Some?
    requires x.verdict.value == Judge(svc.rt, x.input.tenant, x.input.envelope, x.verdict.value.bundle)
    ensures VerdictOf(svc.rt, audit.log, x.input.tenant, x.input.envelope, x.made.value, x.verdict.value.bundle)
    ensures x.made.value.decisionId == x.input.decisionId && x.made.value.dryRun == x.input.dryRun
  {
    hide AP.Inv, RecordsDecision, RecordsOrigin, RecordsCall, Payload, CanonicalJson, Judge, RequestOf, Tells, E.EffectOf,
         F.BuildFacts;
    var record := audit.calls[x.call.value].writer.record;
    ToldIsStored(sha, audit, x.call.value);
    var item := audit.log[SlotOf(x.input.tenant, record.seqNo)];
    var entry := EntryOf(x.input.envelope, x.verdict.value, x.input.dryRun);
    StoredEntry(x.input.tenant, x.input.decisionId, entry, x.input.extra, record.timestamp, item);
    VerdictTells(svc.rt, x.input.tenant, x.input.envelope, x.verdict.value.bundle);
  }

  lemma ServedIsRecorded(sha: Hasher, svc: Service, w: World, tenant: string, s: Served)
    requires Inv(sha, svc, w) && ServedOk(w, tenant, s)
    ensures var x := w.handlers[s.origin];
            && x.verdict.Some?
            && VerdictOf(svc.rt, w.audit.log, tenant, x.input.envelope, s.response, x.verdict.value.bundle)
            && s.response.dryRun == x.input.dryRun
  {
    hide Inv, AP.Inv, RP.Inv, KeysOk, VerdictOf, PhaseOk, Judge;
    Parts(sha, svc, w);
    HandlerPart(sha, svc, w, s.origin);
    MadeIsRecorded(sha, svc, w.audit, w.handlers[s.origin]);
  }

  /** The response is the recorded verdict on this call of a bundle that a container's provider answered with. */
  ghost predicate Decided(svc: Service, w: World, setup: Setup, r: Response, bundle: P.Bundle, a: Asked) {
    && VerdictOf(svc.rt, w.audit.log, setup.tenant, setup.envelope, r, bundle)
    && Provided(svc, w.asked, setup.tenant, a, bundle)
  }

  /** What a caller was given is the recorded verdict on its own call. */
  lemma GivenIsRecorded(sha: Hasher, svc: Service, w: World, c: nat, s: Served)
    requires Inv(sha, svc, w) && BundlesOk(svc, w) && c in w.callers && GivenTo(w, c, s)
    ensures var setup := w.callers[c].setup;
            && s.response.dryRun == setup.dryRun
            && exists bundle, a :: Decided(svc, w, setup, s.response, bundle, a)
  {
    hide Inv, AP.Inv, RP.Inv, KeysOk, VerdictOf, ServedOk, Provided;
    Parts(sha, svc, w);
    ServedIsRecorded(sha, svc, w, w.callers[c].setup.tenant, s);
    GivenFits(w, c, s);
    var x := w.handlers[s.origin];
    assert Decided(svc, w, w.callers[c].setup, s.response, x.verdict.value.bundle, x.asked.value);
  }

  lemma GivenFits(w: World, c: nat, s: Served)
    requires KeysOk(w) && c in w.callers && GivenTo(w, c, s)
    ensures s.origin in w.handlers && Fits(w.callers[c].setup, w.handlers[s.origin].input)
  {
    assert OwnerOk(w, s.origin);
  }

  /** An approval has a reviewer who gave it, and was told so. */
  lemma ApprovedByReviewer(s: RP.State, k: (string, string))
    requires RP.Inv(s) && k in s.table && s.table[k].status == D.Approved
    ensures exists review :: RP.ToldResolved(s, review, k) && s.reviews[review].ruling.approve
  {
    assert RP.WinnerOk(s, k);
    assert RP.ReviewOk(s, s.winners[k]);
    assert RP.ToldResolved(s, s.winners[k], k);
  }

  /** Why a held action may go ahead: a reviewer who was shown this very call approved it, or nobody answered in time
      and its rule allows that. */
  ghost predicate Consent(review: RP.State, setup: Setup, r: Response, d: D.Decision, readAt: real) {
    && (d.tenant, d.id) == (setup.tenant, r.decisionId) && d.auditSeq as int == r.auditSeq && readAt <= review.clock
    && ShowsCall(d.details, setup.envelope)
    && if d.status == D.Approved then
         exists v :: RP.ToldResolved(review, v, (setup.tenant, r.decisionId)) && review.reviews[v].ruling.approve
       else
         && d.status == D.Pending && readAt >= d.expiresAt as real && r.onTimeout == D.TimeoutAllow
         && HeldSince(d, r.timeoutSeconds, review.clock)
  }

  lemma SeenIsConsent(review: RP.State, setup: Setup, r: Response, d: D.Decision, t: real)
    requires RP.Inv(review) && HeldFor(review, setup.tenant, r, setup.envelope) && r.decision == P.RequireHitl
    requires Seen(review, (setup.tenant, r.decisionId), d, t) && D.AllowsExecution(d, t)
    ensures Consent(review, setup, r, d, t)
  {
    hide RP.Inv, ShowsCall;
    var k := (setup.tenant, r.decisionId);
    var held :| ExpiresAfter(review.table[k], held, r.timeoutSeconds) && held <= review.clock;
    assert ExpiresAfter(d, held, r.timeoutSeconds);
    if d.status == D.Approved {
      ApprovedByReviewer(review, (setup.tenant, r.decisionId));
    }
  }

  /** What it takes for a response to permit a call, or to hold it: the engine's effect on the facts of that call. */
  lemma DecidedEffect(svc: Service, w: World, setup: Setup, r: Response, bundle: P.Bundle, a: Asked)
    requires Decided(svc, w, setup, r, bundle, a)
    ensures var effect := EffectOn(svc, setup, bundle);
            && (r.decision == P.Allow || r.decision == P.LogAndAllow ==>
                  effect == P.Allow || effect == P.LogAndAllow || bundle.shadow)
            && (r.decision == P.RequireHitl ==> effect == P.RequireHitl && !bundle.shadow)
            && (r.decision == P.Block ==> effect == P.Block && !bundle.shadow)
  {
    hide E.EffectOf, F.BuildFacts, Instructs, Recorded, Provided;
  }

  /** The engine's effect on the facts of this call. */
  function EffectOn(svc: Service, setup: Setup, bundle: P.Bundle): P.Effect {
    E.EffectOf(svc.rt, bundle, F.BuildFacts(svc.rt, setup.tenant, setup.envelope), setup.envelope.tool)
  }

  /** Fail closed: in every run, however requests, retries, lost replies, reviewers, polls and other clients interleave,
      a tool body ran only outside a dry run and, unless the client chose to fail open, only on a response that is the
      recorded verdict, on this very call, of a bundle the policy provider served for its tenant, and that permitted it
      outright or was consented to. */
  lemma {:induction false} FailClosed(sha: Hasher, svc: Service, es: seq<Event>, c: nat)
    requires var w := Run(sha, svc, INIT, es); c in w.callers && w.callers[c].progress.Executed?
    ensures var w := Run(sha, svc, INIT, es);
            var setup := w.callers[c].setup;
            && !setup.dryRun
            && match w.callers[c].progress.grant
               case ByFailOpen => setup.failOpen
               case ByPolicy(s) =>
                 && (s.response.decision == P.Allow || s.response.decision == P.LogAndAllow)
                 && exists bundle, a ::
                      && Decided(svc, w, setup, s.response, bundle, a)
                      && (EffectOn(svc, setup, bundle) == P.Allow || EffectOn(svc, setup, bundle) == P.LogAndAllow
                          || bundle.shadow)
               case ByReview(s, d, t) =>
                 && s.response.decision == P.RequireHitl && Consent(w.review, setup, s.response, d, t)
                 && exists bundle, a ::
                      && Decided(svc, w, setup, s.response, bundle, a)
                      && EffectOn(svc, setup, bundle) == P.RequireHitl && !bundle.shadow
  {
    hide Inv, Decided, EffectOn, Consent, Seen, AP.Inv, RP.Inv, KeysOk, ServedOk, D.AllowsExecution, Grows, BundlesOk;
    InitInv(sha, svc);
    RunKeeps(sha, svc, INIT, es);
    RunBundles(sha, svc, es);
    var w := Run(sha, svc, INIT, es);
    hide Run;
    Parts(sha, svc, w);
    CallerPart(sha, svc, w, c);
    match w.callers[c].progress.grant
    case ByFailOpen =>
    case ByPolicy(s) =>
      GivenIsRecorded(sha, svc, w, c, s);
      var bundle, a :| Decided(svc, w, w.callers[c].setup, s.response, bundle, a);
      DecidedEffect(svc, w, w.callers[c].setup, s.response, bundle, a);
    case ByReview(s, d, t) =>
      GivenIsRecorded(sha, svc, w, c, s);
      var bundle, a :| Decided(svc, w, w.callers[c].setup, s.response, bundle, a);
      DecidedEffect(svc, w, w.callers[c].setup, s.response, bundle, a);
      GivenIsHeld(w, c, s);
      SeenIsConsent(w.review, w.callers[c].setup, s.response, d, t);
  }

  lemma GivenIsHeld(w: World, c: nat, s: Served)
    requires KeysOk(w) && c in w.callers && GivenTo(w, c, s)
    ensures HeldFor(w.review, w.callers[c].setup.tenant, s.response, w.callers[c].setup.envelope)
  {
    GivenFits(w, c, s);
    hide KeysOk, ShowsCall, HeldSince;
  }

  /** This bundle was the tenant's policy at some instant less than `refresh_seconds` plus the length of a refresh
      before the handler asked for it, and no later than it was given. */
  ghost predicate Current(svc: Service, tenant: string, bundle: P.Bundle, visit: PP.Visit, span: real) {
    exists t ::
      && PP.InForce(svc.cfg, svc.at(t), PS.Partition(tenant, svc.cfg.bundleId)) == Some(bundle) && t <= visit.done
      && (visit.start <= t || (svc.cfg.refreshSeconds > 0.0 && visit.start - t < svc.cfg.refreshSeconds + span))
  }

  /** This bundle was the tenant's policy once, or is the packaged one. */
  ghost predicate Former(svc: Service, tenant: string, bundle: P.Bundle, visit: PP.Visit) {
    || bundle == svc.cfg.fallback
    || exists t :: PP.InForce(svc.cfg, svc.at(t), PS.Partition(tenant, svc.cfg.bundleId)) == Some(bundle) && t <= visit.done
  }

  function StateFor(svc: Service, asked: map<nat, seq<PP.Call>>, tenant: string, a: Asked): PP.PolicyState
    requires a.node in asked && a.index < |asked[a.node]|
  {
    PP.Answer(svc.cfg, svc.at, PP.Run(svc.cfg, svc.at, asked[a.node][..a.index]), tenant, a.visit)
  }

  lemma ProvidedIsCurrent(svc: Service, asked: map<nat, seq<PP.Call>>, tenant: string, a: Asked, bundle: P.Bundle,
                          span: real)
    requires Provided(svc, asked, tenant, a, bundle)
    requires svc.cfg.hasStore && PP.History(svc.at) && PP.Timed(asked[a.node], span)
    ensures if StateFor(svc, asked, tenant, a).degraded then Former(svc, tenant, bundle, a.visit)
            else Current(svc, tenant, bundle, a.visit, span)
  {
    hide PP.History, PP.Timed, PP.InForce, PP.Answer, PS.Partition;
    var calls := asked[a.node];
    assert calls[..a.index + 1] == calls[..a.index] + [PP.Get(tenant, a.visit)];
    PP.TimedPrefix(calls, a.index + 1, span);
    PP.Freshness(svc.cfg, svc.at, calls[..a.index], tenant, a.visit, span);
    PP.OnceInForce(svc.cfg, svc.at, calls[..a.index], tenant, a.visit, span);
  }

  function ServedIn(g: Grant): Option<Served> {
    match g
    case ByPolicy(s) => Some(s)
    case ByReview(s, _, _) => Some(s)
    case ByFailOpen => None
  }

  lemma ExecutedIsDecided(sha: Hasher, svc: Service, es: seq<Event>, c: nat) returns (bundle: P.Bundle, a: Asked)
    requires var w := Run(sha, svc, INIT, es);
             c in w.callers && w.callers[c].progress.Executed? && ServedIn(w.callers[c].progress.grant).Some?
    ensures var w := Run(sha, svc, INIT, es);
            Decided(svc, w, w.callers[c].setup, ServedIn(w.callers[c].progress.grant).value.response, bundle, a)
  {
    hide Run, Decided, Consent, EffectOn;
    FailClosed(sha, svc, es, c);
    var w := Run(sha, svc, INIT, es);
    bundle, a :| Decided(svc, w, w.callers[c].setup, ServedIn(w.callers[c].progress.grant).value.response, bundle, a);
  }

  /** What governs an executed call is its tenant's policy at the time it was evaluated: the bundle behind the recorded
      verdict was in force within the refresh interval, or else the store had failed the container that served it, and
      it is an earlier policy of the tenant or the packaged one. */
  lemma {:induction false} GovernedByPolicy(sha: Hasher, svc: Service, es: seq<Event>, c: nat, span: real)
    requires var w := Run(sha, svc, INIT, es);
             && c in w.callers && w.callers[c].progress.Executed? && ServedIn(w.callers[c].progress.grant).Some?
             && forall node | node in w.asked :: PP.Timed(w.asked[node], span)
    requires svc.cfg.hasStore && PP.History(svc.at)
    ensures var w := Run(sha, svc, INIT, es);
            var setup := w.callers[c].setup;
            exists bundle, a ::
              && Decided(svc, w, setup, ServedIn(w.callers[c].progress.grant).value.response, bundle, a)
              && if StateFor(svc, w.asked, setup.tenant, a).degraded then Former(svc, setup.tenant, bundle, a.visit)
                 else Current(svc, setup.tenant, bundle, a.visit, span)
  {
    hide VerdictOf, Former, Current, PP.History, PP.Timed, StateFor, BundleFor;
    var bundle, a := ExecutedIsDecided(sha, svc, es, c);
    var w := Run(sha, svc, INIT, es);
    var setup := w.callers[c].setup;
    hide Run;
    ProvidedIsCurrent(svc, w.asked, setup.tenant, a, bundle, span);
  }

  /** A caller told to wait always finds its decision: it is in the store before any response naming it goes out, first
      hand or replayed, and it carries the record's number, the policy's timeout rule, and the call as it was made. */
  lemma {:induction false} HeldBeforeAnswered(sha: Hasher, svc: Service, es: seq<Event>, h: nat)
    requires var w := Run(sha, svc, INIT, es); h in w.handlers && w.handlers[h].phase.Answered?
    ensures var w := Run(sha, svc, INIT, es);
            var r := w.handlers[h].phase.served.response;
            var k := (w.handlers[h].input.tenant, r.decisionId);
            var origin := w.handlers[h].phase.served.origin;
            r.decision == P.RequireHitl ==>
              && k in w.review.table && w.review.table[k].auditSeq as int == r.auditSeq
              && w.review.table[k].onTimeout == r.onTimeout
              && origin in w.handlers && ShowsCall(w.review.table[k].details, w.handlers[origin].input.envelope)
              && HeldSince(w.review.table[k], r.timeoutSeconds, w.review.clock)
  {
    hide Inv, Grows, MadeOk, Judge, ShowsCall, HeldSince;
    InitInv(sha, svc);
    RunKeeps(sha, svc, INIT, es);
    HandlerPart(sha, svc, Run(sha, svc, INIT, es), h);
  }

  lemma {:induction false} RunConcat(sha: Hasher, svc: Service, w: World, es: seq<Event>, fs: seq<Event>)
    ensures Run(sha, svc, w, es + fs) == Run(sha, svc, Run(sha, svc, w, es), fs)
    decreases |fs|
  {
    hide Next;
    if fs == [] {
      assert es + fs == es;
    } else {
      assert (es + fs)[..|es + fs| - 1] == es + fs[..|fs| - 1];
      RunConcat(sha, svc, w, es, fs[..|fs| - 1]);
    }
  }

  /** Where a handler under a stored key can be: not past its lookup, or answered with the stored response. */
  predicate Replays(w: World, h: nat, k: (string, string)) {
    h in w.handlers && (w.handlers[h].input.tenant, w.handlers[h].input.key) == k ==>
      && w.handlers[h].call == None
      && match w.handlers[h].phase
         case Looking => true
         case Answered(served) => k in w.idem && served == w.idem[k]
         case Gone => true
         case _ => false
  }

  lemma LookReplays(w: World, g: nat, healthy: bool, h: nat, k: (string, string))
    requires k in w.idem && k.1 != "" && Replays(w, h, k)
    ensures Replays(DoLook(w, g, healthy), h, k)
  {
  }

  lemma DecideReplays(sha: Hasher, svc: Service, w: World, g: nat, node: nat, visit: PP.Visit, call: nat, h: nat,
                      k: (string, string))
    requires Replays(w, h, k)
    ensures Replays(DoDecide(sha, svc, w, g, node, visit, call), h, k)
  {
    hide AP.Next, Judge, RequestFor, BundleFor;
  }

  lemma AppendReplays(sha: Hasher, w: World, g: nat, env: Env, h: nat, k: (string, string))
    requires Replays(w, h, k)
    ensures Replays(DoAppend(sha, w, g, env), h, k)
  {
    hide AP.Next, ResponseOf;
  }

  lemma HoldReplays(w: World, g: nat, createdAt: string, healthy: bool, h: nat, k: (string, string))
    requires Replays(w, h, k)
    ensures Replays(DoHold(w, g, createdAt, healthy), h, k)
  {
    hide RP.Next, DecisionFor;
  }

  lemma SaveReplays(w: World, g: nat, net: Net, h: nat, k: (string, string))
    requires k in w.idem && Replays(w, h, k)
    ensures Replays(DoSave(w, g, net), h, k)
  {
  }

  lemma PostReplays(w: World, g: nat, input: Input, h: nat, k: (string, string))
    requires Replays(w, h, k)
    ensures Replays(DoPost(w, g, input), h, k)
  {
    hide NewId, SameKey;
  }

  lemma SendReplays(w: World, c: nat, g: nat, decisionId: string, extra: Extra, h: nat, k: (string, string))
    requires Replays(w, h, k)
    ensures Replays(DoSend(w, c, g, decisionId, extra), h, k)
  {
    hide NewId;
  }

  lemma NextReplays(sha: Hasher, svc: Service, w: World, e: Event, h: nat, k: (string, string))
    requires k in w.idem && k.1 != "" && Replays(w, h, k)
    ensures Replays(Next(sha, svc, w, e), h, k)
  {
    hide AP.Next, RP.Next, DoPost, DoLook, DoDecide, DoAppend, DoHold, DoSave, DoRecord, DoCall, DoSend, DoFinish, DoPoll;
    match e
    case Post(g, input) => PostReplays(w, g, input, h, k);
    case Look(g, healthy) => LookReplays(w, g, healthy, h, k);
    case Decide(g, node, visit, call) => DecideReplays(sha, svc, w, g, node, visit, call, h, k);
    case Append(g, env) => AppendReplays(sha, w, g, env, h, k);
    case Hold(g, createdAt, healthy) => HoldReplays(w, g, createdAt, healthy, h, k);
    case Save(g, net) => SaveReplays(w, g, net, h, k);
    case Send(c, g, decisionId, extra) => SendReplays(w, c, g, decisionId, extra, h, k);
    case _ => HandlersUntouched(sha, svc, w, e);
  }

  lemma HandlersUntouched(sha: Hasher, svc: Service, w: World, e: Event)
    requires !e.Post? && !e.Look? && !e.Decide? && !e.Append? && !e.Hold? && !e.Save? && !e.Send?
    ensures var w' := Next(sha, svc, w, e);
            && w'.handlers == w.handlers && w'.idem == w.idem
            && (!e.Tick? && !e.Resolve? && !e.ReviewStep? ==> w'.review == w.review)
            && (!e.Record? ==> w'.recordings == w.recordings)
            && (!e.Invalidate? ==> w'.asked == w.asked)
  {
    hide AP.Next, RP.Next, DoPost, DoLook, DoDecide, DoAppend, DoHold, DoSave, DoSend, DoCall, DoFinish, DoPoll, DoRecord;
    match e
    case Call(c, setup, breakerOpen) => CallersOnly(w, c, setup, breakerOpen);
    case Finish(c, delivered, error) => FinishesOnly(w, c, delivered, error);
    case Poll(c, last, ok) => PollsOnly(w, c, last, ok);
    case Record(review, call, extra) => RecordsOnly(sha, w, review, call, extra);
    case _ =>
  }

  lemma CallersOnly(w: World, c: nat, setup: Setup, breakerOpen: bool)
    ensures DoCall(w, c, setup, breakerOpen) == w.(callers := DoCall(w, c, setup, breakerOpen).callers)
  {
    hide Proceed, SameKey;
  }

  lemma FinishesOnly(w: World, c: nat, delivered: bool, error: Sdk.Reply<Served>)
    ensures DoFinish(w, c, delivered, error) == w.(callers := DoFinish(w, c, delivered, error).callers)
  {
    hide Proceed, ReplyTo;
  }

  lemma PollsOnly(w: World, c: nat, last: bool, ok: bool)
    ensures DoPoll(w, c, last, ok) == w.(callers := DoPoll(w, c, last, ok).callers)
  {
    hide D.EffectiveStatus, D.AllowsExecution;
  }

  lemma RecordsOnly(sha: Hasher, w: World, review: nat, call: nat, extra: Extra)
    ensures var w' := DoRecord(sha, w, review, call, extra);
            w' == w.(audit := w'.audit, recordings := w'.recordings)
  {
    hide AP.Next, ResolutionRequest;
  }

  lemma OnlyHandlers(sha: Hasher, svc: Service, w: World, e: Event)
    requires e.Post? || e.Look? || e.Decide? || e.Append? || e.Save? || e.Send?
    ensures Next(sha, svc, w, e).review == w.review && Next(sha, svc, w, e).recordings == w.recordings
  {
    hide AP.Next, Judge, RequestFor, ResponseOf, BundleFor, NewId, SameKey;
  }

  lemma {:induction false} RunReplays(sha: Hasher, svc: Service, w: World, fs: seq<Event>, h: nat, k: (string, string))
    requires Inv(sha, svc, w) && k in w.idem && h !in w.handlers
    ensures var w' := Run(sha, svc, w, fs);
            k in w'.idem && w'.idem[k] == w.idem[k] && Replays(w', h, k)
    decreases |fs|
  {
    hide Inv, Next, AuditGrows, RP.Advances, Replays, SameHandlers;
    if fs == [] {
      assert Replays(w, h, k) by {
        NotYet(w, h, k);
      }
    } else {
      var v := Run(sha, svc, w, fs[..|fs| - 1]);
      RunReplays(sha, svc, w, fs[..|fs| - 1], h, k);
      RunKeeps(sha, svc, w, fs[..|fs| - 1]);
      NextKeeps(sha, svc, v, fs[|fs| - 1]);
      IdemPart(sha, svc, w, k);
      NextReplays(sha, svc, v, fs[|fs| - 1], h, k);
    }
  }

  lemma NotYet(w: World, h: nat, k: (string, string))
    requires h !in w.handlers
    ensures Replays(w, h, k)
  {
  }

  /** Idempotent replay: a response once stored for a tenant and key never changes and is in the chain; and a request
      that arrives later with that key begins no append and is answered, if at all, with exactly that response. */
  lemma {:induction false} IdempotentReplay(sha: Hasher, svc: Service, es: seq<Event>, fs: seq<Event>,
                                            k: (string, string), h: nat)
    requires k in Run(sha, svc, INIT, es).idem
    ensures var stored := Run(sha, svc, INIT, es).idem[k];
            var w := Run(sha, svc, INIT, es + fs);
            && k in w.idem && w.idem[k] == stored
            && stored.origin in w.handlers
            && (exists bundle ::
                  VerdictOf(svc.rt, w.audit.log, k.0, w.handlers[stored.origin].input.envelope, stored.response, bundle))
            && (h !in Run(sha, svc, INIT, es).handlers && h in w.handlers
                && (w.handlers[h].input.tenant, w.handlers[h].input.key) == k ==>
                  && w.handlers[h].call == None
                  && (w.handlers[h].phase.Answered? ==> w.handlers[h].phase.served == stored))
  {
    hide Inv, Next, AuditGrows, RP.Advances, SameHandlers, VerdictOf, HeldFor;
    InitInv(sha, svc);
    RunKeeps(sha, svc, INIT, es);
    var v := Run(sha, svc, INIT, es);
    RunConcat(sha, svc, INIT, es, fs);
    RunKeeps(sha, svc, v, fs);
    var w := Run(sha, svc, v, fs);
    IdemPart(sha, svc, w, k);
    ServedIsRecorded(sha, svc, w, k.0, w.idem[k]);
    if h !in v.handlers {
      RunReplays(sha, svc, v, fs, h, k);
    }
  }

  // --- resolutions -----------------------------------------------------------------------

  /** The append that records a resolution was asked for the right record. */
  ghost predicate RecordingOk(w: World, review: nat)
    requires review in w.recordings
  {
    && review in w.review.reviews && w.review.reviews[review].reviewer.Resolved?
    && w.recordings[review] in w.audit.calls
    && exists extra ::
         w.audit.calls[w.recordings[review]].request == ResolutionRequest(w.review.reviews[review].reviewer.decision, extra)
  }

  ghost predicate RecordingsOk(w: World) { forall review | review in w.recordings :: RecordingOk(w, review) }

  /** Reviews keep their ruling, and stay resolved. */
  lemma ReviewsKept(s: RP.State, e: RP.Event)
    ensures forall v | v in s.reviews ::
              && v in RP.Next(s, e).reviews && RP.Next(s, e).reviews[v].ruling == s.reviews[v].ruling
              && (s.reviews[v].reviewer.Resolved? ==> RP.Next(s, e).reviews[v].reviewer == s.reviews[v].reviewer)
  {
    if e.Step? && e.review in s.reviews {
      RP.StepEffect(s, e.review, e.resolvedAt, e.healthy);
    }
  }

  predicate SameReviews(s: RP.State, s': RP.State) {
    forall v | v in s.reviews ::
      && v in s'.reviews && s'.reviews[v].ruling == s.reviews[v].ruling
      && (s.reviews[v].reviewer.Resolved? ==> s'.reviews[v].reviewer == s.reviews[v].reviewer)
  }

  /** What an event does to the decision store is one of its own events, or nothing. */
  lemma NextReviews(sha: Hasher, svc: Service, w: World, e: Event)
    ensures SameReviews(w.review, Next(sha, svc, w, e).review)
    ensures !e.Record? ==> Next(sha, svc, w, e).recordings == w.recordings
  {
    hide AP.Next, RP.Next, DecisionFor;
    hide DoPost, DoLook, DoDecide, DoAppend, DoSave, DoRecord, DoCall, DoSend, DoFinish, DoPoll;
    match e
    case Tick(elapsed) => ReviewsKept(w.review, RP.Tick(elapsed));
    case Resolve(review, ruling) => ReviewsKept(w.review, RP.Begin(review, ruling));
    case ReviewStep(review, resolvedAt, healthy) => ReviewsKept(w.review, RP.Step(review, resolvedAt, healthy));
    case Hold(h, createdAt, healthy) =>
      if Next(sha, svc, w, e).review != w.review {
        ReviewsKept(w.review, RP.Create(DecisionFor(w, w.handlers[h], createdAt)));
      }
    case Record(_, _, _) => HandlersUntouched(sha, svc, w, e);
    case RecordStep(_, _) => HandlersUntouched(sha, svc, w, e);
    case Call(_, _, _) => HandlersUntouched(sha, svc, w, e);
    case Finish(_, _, _) => HandlersUntouched(sha, svc, w, e);
    case Poll(_, _, _) => HandlersUntouched(sha, svc, w, e);
    case Invalidate(_, _) => HandlersUntouched(sha, svc, w, e);
    case _ => OnlyHandlers(sha, svc, w, e);
  }

  lemma RecordingStays(w: World, w': World, review: nat)
    requires review in w.recordings && RecordingOk(w, review)
    requires review in w'.recordings && w'.recordings[review] == w.recordings[review]
    requires SameReviews(w.review, w'.review) && AuditGrows(w.audit, w'.audit)
    ensures RecordingOk(w', review)
  {
    hide ResolutionRequest;
  }

  lemma NextRecordings(sha: Hasher, svc: Service, w: World, e: Event)
    requires RecordingsOk(w) && Grows(w, Next(sha, svc, w, e))
    ensures RecordingsOk(Next(sha, svc, w, e))
  {
    hide RecordingOk, AuditGrows, SameReviews, RP.Advances, SameHandlers;
    var w' := Next(sha, svc, w, e);
    NextReviews(sha, svc, w, e);
    if e.Record? && w' != w {
      NewRecording(sha, w, e.review, e.call, e.extra);
    }
    hide Next;
    forall review | review in w'.recordings ensures RecordingOk(w', review) {
      if review in w.recordings {
        RecordingStays(w, w', review);
      }
    }
  }

  lemma NewRecording(sha: Hasher, w: World, review: nat, call: nat, extra: Extra)
    requires DoRecord(sha, w, review, call, extra) != w
    ensures var w' := DoRecord(sha, w, review, call, extra);
            && review !in w.recordings && w'.recordings == w.recordings[review := call] && RecordingOk(w', review)
  {
    hide ResolutionRequest;
  }

  /** The reviewer's endpoint appends the judgement, once, under the decision's id and tenant. */
  lemma JudgementAppended(sha: Hasher, svc: Service, w: World, review: nat, call: nat, extra: Extra)
    requires review in w.review.reviews && w.review.reviews[review].reviewer.Resolved?
    requires review !in w.recordings && call !in w.audit.calls
    ensures var w' := Next(sha, svc, w, Record(review, call, extra));
            var d := w.review.reviews[review].reviewer.decision;
            && review in w'.recordings && w'.recordings[review] == call && call in w'.audit.calls
            && w'.audit.calls[call].request.tenant == d.tenant
            && w'.audit.calls[call].request.decisionId == d.id + ":resolution"
  {
    hide RequestOf, ResolutionEntry;
  }

  lemma {:induction false} RunRecordings(sha: Hasher, svc: Service, es: seq<Event>)
    ensures RecordingsOk(Run(sha, svc, INIT, es))
    decreases |es|
  {
    hide Inv, Next, Grows, RecordingOk;
    if es != [] {
      RunRecordings(sha, svc, es[..|es| - 1]);
      InitInv(sha, svc);
      RunKeeps(sha, svc, INIT, es[..|es| - 1]);
      NextKeeps(sha, svc, Run(sha, svc, INIT, es[..|es| - 1]), es[|es| - 1]);
      NextRecordings(sha, svc, Run(sha, svc, INIT, es[..|es| - 1]), es[|es| - 1]);
    }
  }

  /** A judgement whose append was told of success is a record of its own in the tenant's chain: for this decision's
      resolution, saying who decided what, why, about which decision and record, and about which call. */
  lemma {:induction false} ResolutionRecorded(sha: Hasher, svc: Service, es: seq<Event>, review: nat)
    requires var w := Run(sha, svc, INIT, es);
             review in w.recordings && w.recordings[review] in w.audit.calls
             && w.audit.calls[w.recordings[review]].writer.Appended?
    ensures var w := Run(sha, svc, INIT, es);
            && review in w.review.reviews
            && var ruling := w.review.reviews[review].ruling;
            var record := w.audit.calls[w.recordings[review]].writer.record;
            && record.seqNo >= 1 && SlotOf(ruling.tenant, record.seqNo) in w.audit.log
            && var item := w.audit.log[SlotOf(ruling.tenant, record.seqNo)];
            && item.hash == record.hash
            && RecordsDecision(item, ruling.id + ":resolution")
            && RP.ToldResolved(w.review, review, RP.KeyOf(ruling))
            && RP.KeyOf(ruling) in w.review.table
            && var d := w.review.table[RP.KeyOf(ruling)];
            && d.status == (if ruling.approve then D.Approved else D.Denied) && d.reviewer == Some(ruling.reviewer)
            && d.reason == Some(ruling.reason) && d.resolvedAt.Some? && (d.tenant, d.id) == (ruling.tenant, ruling.id)
            && RecordsJudgement(item, d) && RecordsOrigin(item, ruling.tenant)
  {
    hide Inv, AP.Inv, RP.Inv, KeysOk, Grows, RecordsDecision, RecordsJudgement, RecordsOrigin, Payload, CanonicalJson,
         RequestOf, ResolutionEntry;
    InitInv(sha, svc);
    RunKeeps(sha, svc, INIT, es);
    RunRecordings(sha, svc, es);
    var w := Run(sha, svc, INIT, es);
    hide Run;
    Parts(sha, svc, w);
    assert RecordingOk(w, review);
    var d := w.review.reviews[review].reviewer.decision;
    ResolvedDecision(w.review, review);
    var extra :| w.audit.calls[w.recordings[review]].request == ResolutionRequest(d, extra);
    var record := w.audit.calls[w.recordings[review]].writer.record;
    ToldIsStored(sha, w.audit, w.recordings[review]);
    StoredJudgement(d, extra, record.timestamp, w.audit.log[SlotOf(d.tenant, record.seqNo)]);
  }

  lemma ResolvedDecision(s: RP.State, review: nat)
    requires RP.Inv(s) && review in s.reviews && s.reviews[review].reviewer.Resolved?
    ensures var ruling, d := s.reviews[review].ruling, s.reviews[review].reviewer.decision;
            var k := RP.KeyOf(ruling);
            && RP.ToldResolved(s, review, k)
            && k in s.table && s.table[k] == d && k == (d.tenant, d.id)
            && d.status == (if ruling.approve then D.Approved else D.Denied) && d.reviewer == Some(ruling.reviewer)
            && d.reason == Some(ruling.reason) && d.resolvedAt.Some?
  {
    assert RP.ReviewOk(s, review);
    assert RP.DecisionOk(RP.KeyOf(s.reviews[review].ruling), s.reviews[review].reviewer.decision);
  }

  /** And it repeats the call that was held: the record of a judgement names the tool, agent and arguments of the
      evaluation whose response sent the caller to wait. */
  lemma {:induction false} ResolutionNamesCall(sha: Hasher, svc: Service, es: seq<Event>, review: nat, s: Served)
    requires var w := Run(sha, svc, INIT, es);
             && review in w.recordings && w.recordings[review] in w.audit.calls
             && w.audit.calls[w.recordings[review]].writer.Appended? && review in w.review.reviews
             && var ruling := w.review.reviews[review].ruling;
             && ServedOk(w, ruling.tenant, s) && s.response.decision == P.RequireHitl && s.response.decisionId == ruling.id
    ensures var w := Run(sha, svc, INIT, es);
            var record := w.audit.calls[w.recordings[review]].writer.record;
            && record.seqNo >= 1
            && var slot := SlotOf(w.review.reviews[review].ruling.tenant, record.seqNo);
            && slot in w.audit.log && s.origin in w.handlers
            && var asked := w.handlers[s.origin].input.envelope;
            && RecordSays(w.audit.log[slot], "tool", Str(asked.tool))
            && RecordSays(w.audit.log[slot], "agent_id", Str(asked.agentId))
            && RecordSays(w.audit.log[slot], "arguments", Canonical(asked.arguments))
  {
    hide Inv, AP.Inv, RP.Inv, KeysOk, Grows, RecordsDecision, RecordsOrigin, Payload, CanonicalJson, RequestOf,
         ResolutionEntry, RecordSays, ShowsCall, HeldSince;
    InitInv(sha, svc);
    RunKeeps(sha, svc, INIT, es);
    RunRecordings(sha, svc, es);
    var w := Run(sha, svc, INIT, es);
    hide Run;
    Parts(sha, svc, w);
    assert RecordingOk(w, review);
    var d := w.review.reviews[review].reviewer.decision;
    ResolvedDecision(w.review, review);
    var extra :| w.audit.calls[w.recordings[review]].request == ResolutionRequest(d, extra);
    var record := w.audit.calls[w.recordings[review]].writer.record;
    ToldIsStored(sha, w.audit, w.recordings[review]);
    StoredEntry(d.tenant, d.id + ":resolution", ResolutionEntry(d), extra, record.timestamp,
                w.audit.log[SlotOf(d.tenant, record.seqNo)]);
    ResolutionOfCall(d, w.handlers[s.origin].input.envelope);
  }

  // --- the end of an attempt -------------------------------------------------------------

  /** Without a delivered answer: another attempt while there is one left and the failure may pass; otherwise a rejected
      key raises, an answer that does not parse crashes, and for anything else the switch to fail open decides. */
  ghost predicate FailedAttempt(setup: Setup, attempt: nat, error: Sdk.Reply<Served>, p: Progress) {
    if error.TransportError? || error.status in {429, 500, 502, 503, 504} then
      if attempt < setup.maxRetries then p == Posting(attempt + 1, None) else GivesUp(setup, p)
    else if error.status == 401 then p == Refused
    else if error.status < 400 then p == Crashed
    else GivesUp(setup, p)
  }

  ghost predicate GivesUp(setup: Setup, p: Progress) {
    p == if !setup.failOpen then Refused else if setup.dryRun then NotRun else Executed(ByFailOpen)
  }

  /** An attempt that delivers the handler's answer ends the call as that says; any other as its error says. */
  lemma FinishEnds(w: World, c: nat, delivered: bool, error: Sdk.Reply<Served>)
    requires c in w.callers && w.callers[c].progress.Posting?
    ensures var setup, p := w.callers[c].setup, w.callers[c].progress;
            var p' := DoFinish(w, c, delivered, error).callers[c].progress;
            if delivered && p.handler.Some? && p.handler.value in w.handlers && w.handlers[p.handler.value].phase.Answered?
            then Concludes(setup, w.handlers[p.handler.value].phase.served, p')
            else FailedAttempt(setup, p.attempt, error, p')
  {
  }

  /** A call that the breaker stops, or that has no attempts, is decided by the switch to fail open. */
  lemma CallStarts(w: World, c: nat, setup: Setup, breakerOpen: bool)
    requires DoCall(w, c, setup, breakerOpen) != w
    ensures var w' := DoCall(w, c, setup, breakerOpen);
            && c in w'.callers && w'.callers[c].setup == setup
            && if breakerOpen || setup.maxRetries < 0 then GivesUp(setup, w'.callers[c].progress)
               else w'.callers[c].progress == Posting(0, None)
  {
    hide SameKey;
  }

  // --- the end of a wait -----------------------------------------------------------------

  /** What a poll that gets through makes of a waiting call: an approved one runs, a denied one is blocked; past the
      expiry the timeout rule the caller was told of decides; before it, only the deadline of the wait ends it. */
  ghost predicate PollEnds(setup: Setup, s: Served, d: D.Decision, now: real, last: bool, p: Progress) {
    var runs := if setup.dryRun then NotRun else Executed(ByReview(s, d, now));
    match d.status
    case Approved => p == runs
    case Denied => p == Blocked
    case Pending =>
      if now >= d.expiresAt as real then p == if s.response.onTimeout == D.TimeoutAllow then runs else Blocked
      else p == if last then Blocked else Waiting(s)
  }

  /** A waiting call always finds its decision, and ends as that decision says; a poll that fails ends only the last. */
  lemma {:induction false} WaitEnds(sha: Hasher, svc: Service, w: World, c: nat, last: bool, ok: bool)
    requires Inv(sha, svc, w) && c in w.callers && w.callers[c].progress.Waiting?
    ensures var setup, s := w.callers[c].setup, w.callers[c].progress.served;
            var k := (setup.tenant, s.response.decisionId);
            var w' := Next(sha, svc, w, Poll(c, last, ok));
            && k in w.review.table && c in w'.callers
            && if ok then PollEnds(setup, s, w.review.table[k], w.review.clock, last, w'.callers[c].progress)
               else w'.callers[c].progress == if last then Refused else Waiting(s)
  {
    hide Inv, ServedOk, ShowsCall, HeldSince, KeysOk, AP.Inv, RP.Inv;
    CallerPart(sha, svc, w, c);
    Parts(sha, svc, w);
    GivenIsHeld(w, c, w.callers[c].progress.served);
  }

  // --- an undisturbed call ---------------------------------------------------------------

  /** The call's names are new. */
  predicate FreshCall(w: World, c: nat, setup: Setup, h: nat, input: Input, call: nat) {
    && c !in w.callers && h !in w.handlers && call !in w.audit.calls && NewId(w, input)
    && setup.key != "" && setup.maxRetries >= 0
    && (forall b | b in w.callers :: w.callers[b].setup.tenant != setup.tenant || w.callers[b].setup.key != setup.key)
    && (forall g | g in w.handlers :: !SameKey(setup, w.handlers[g].input))
  }

  lemma KeyUnstored(sha: Hasher, svc: Service, w: World, setup: Setup)
    requires Inv(sha, svc, w) && forall g | g in w.handlers :: !SameKey(setup, w.handlers[g].input)
    ensures (setup.tenant, setup.key) !in w.idem
  {
    hide Inv, HeldFor;
    if (setup.tenant, setup.key) in w.idem {
      IdemPart(sha, svc, w, (setup.tenant, setup.key));
    }
  }

  lemma Reaches(w: World, c: nat, setup: Setup, h: nat, input: Input, call: nat, extra: Extra)
    requires FreshCall(w, c, setup, h, input, call) && input == InputOf(setup, c, input.decisionId, extra)
    requires (setup.tenant, setup.key) !in w.idem
    ensures var w' := DoLook(DoSend(DoCall(w, c, setup, false), c, h, input.decisionId, extra), h, true);
            && w'.callers == w.callers[c := Caller(setup, Posting(0, Some(h)))]
            && w'.handlers == w.handlers[h := Begun(input).(phase := Deciding)]
            && w'.audit == w.audit && w'.review == w.review && w'.idem == w.idem && w'.asked == w.asked
  {
    var w1 := DoCall(w, c, setup, false);
    assert w1 == w.(callers := w.callers[c := Caller(setup, Posting(0, None))]);
    assert NewId(w1, input);
    var w2 := DoSend(w1, c, h, input.decisionId, extra);
    assert w2.handlers == w.handlers[h := Begun(input)];
    hide NewId, SameKey;
  }

  /** The append's step, seen from the handler. */
  lemma AppendStep(sha: Hasher, w: World, h: nat, env: Env, call: nat, audit: AP.State)
    requires h in w.handlers && w.handlers[h].phase == Auditing(call) && w.handlers[h].verdict.Some?
    requires call in w.audit.calls && audit == AP.Next(sha, w.audit, AP.Step(call, env)) && call in audit.calls
    ensures var w' := DoAppend(sha, w, h, env);
            var x := w.handlers[h];
            var writer := audit.calls[call].writer;
            && (writer.Putting? ==> w' == w.(handlers := w.handlers[h := x], audit := audit))
            && (writer.Appended? ==> w' == w.(audit := audit, handlers := w.handlers[h :=
                  x.(made := Some(ResponseOf(x.input.decisionId, x.verdict.value, x.input.dryRun, writer.record)),
                     phase := if x.verdict.value.effective == P.RequireHitl then Holding else Saving)]))
  {
    hide AP.Next, ResponseOf;
  }

  /** How a call ends, or goes on, once it has this response. */
  ghost predicate Concludes(setup: Setup, s: Served, p: Progress) {
    match s.response.decision
    case Block => p == Blocked
    case RequireHitl =>
      (match setup.onPending
       case TreatAsBlock => p == Blocked
       case Wait => p == Waiting(s)
       case Raise => p == ApprovalNeeded)
    case _ => if setup.dryRun then p == NotRun else p == Executed(ByPolicy(s))
  }

  lemma ProceedConcludes(setup: Setup, s: Served)
    ensures Concludes(setup, s, Proceed(setup, Sdk.Answered(s)))
    ensures Proceed(setup, Sdk.Unavailable) == Refused && Proceed(setup, Sdk.Malformed) == Crashed
    ensures Proceed(setup, Sdk.FailOpenAllow) == if setup.dryRun then NotRun else Executed(ByFailOpen)
  {
  }

  lemma Appends(sha: Hasher, svc: Service, w: World, h: nat, node: nat, visit: PP.Visit, call: nat, env: Env)
    requires AP.Inv(sha, w.audit) && call !in w.audit.calls && env.net == Up
    requires h in w.handlers && w.handlers[h].phase.Deciding?
    requires Length(w.audit.log, w.handlers[h].input.tenant) < Slots.CAPACITY
    ensures var input := w.handlers[h].input;
            var v := Judge(svc.rt, input.tenant, input.envelope, BundleFor(svc, CallsOf(w, node), input.tenant, visit));
            var w' := DoAppend(sha, DoAppend(sha, DoDecide(sha, svc, w, h, node, visit, call), h, env), h, env);
            && w'.callers == w.callers && w'.idem == w.idem && w'.review == w.review
            && h in w'.handlers && w'.handlers[h].input == input && w'.handlers[h].verdict == Some(v)
            && w'.handlers[h].made.Some?
            && w'.handlers[h].made.value.decision == v.effective
            && w'.handlers[h].made.value.timeoutSeconds == v.hitl.timeoutSeconds
            && w'.handlers[h].made.value.onTimeout == TimeoutOf(v.hitl.onTimeout)
            && w'.handlers[h].made.value.auditSeq == Length(w.audit.log, input.tenant) + 1
            && w'.handlers[h].phase == if v.effective == P.RequireHitl then Holding else Saving
  {
    var input := w.handlers[h].input;
    var v := Judge(svc.rt, input.tenant, input.envelope, BundleFor(svc, CallsOf(w, node), input.tenant, visit));
    var request := RequestFor(input, v);
    hide Judge, RequestOf, AP.Next, AP.Inv, Length;
    AP.AppendAlone(sha, w.audit, call, request, env);
    var a1 := AP.Next(sha, w.audit, AP.Begin(call, request));
    var a2 := AP.Next(sha, a1, AP.Step(call, env));
    var a3 := AP.Next(sha, a2, AP.Step(call, env));
    var w1 := DoDecide(sha, svc, w, h, node, visit, call);
    assert w1.audit == a1 && w1.handlers[h].phase == Auditing(call) && w1.handlers[h].verdict == Some(v);
    hide DoAppend, RequestFor;
    AppendStep(sha, w1, h, env, call, a2);
    AppendStep(sha, DoAppend(sha, w1, h, env), h, env, call, a3);
  }

  lemma Responds(w: World, c: nat, setup: Setup, h: nat, createdAt: string)
    requires h in w.handlers && w.handlers[h].made.Some? && w.handlers[h].verdict.Some?
    requires w.handlers[h].phase == if w.handlers[h].verdict.value.effective == P.RequireHitl then Holding else Saving
    requires c in w.callers && w.callers[c] == Caller(setup, Posting(0, Some(h)))
    ensures var w' := DoFinish(DoSave(DoHold(w, h, createdAt, true), h, Up), c, true, Sdk.TransportError);
            c in w'.callers
            && w'.callers[c] == Caller(setup, Proceed(setup, Sdk.Answered(Served(w.handlers[h].made.value, h))))
  {
    hide RP.Next, DecisionFor, Proceed;
  }

  /** Left alone, a governed call is decided by the policy, and nothing else: from any reachable world it runs, is
      blocked, waits or raises as the served bundle says of it, recorded under the next number of its tenant's chain. */
  lemma {:induction false} UndisturbedCall(sha: Hasher, svc: Service, w: World, c: nat, setup: Setup, h: nat, id: string,
                                           extra: Extra, node: nat, visit: PP.Visit, call: nat, env: Env,
                                           createdAt: string)
    requires Inv(sha, svc, w) && FreshCall(w, c, setup, h, InputOf(setup, c, id, extra), call)
    requires env.net == Up && Length(w.audit.log, setup.tenant) < Slots.CAPACITY
    ensures var es := Sending(c, setup, h, id, extra) + Handling(h, node, visit, call, env) + Answering(c, h, createdAt);
            var w' := Run(sha, svc, w, es);
            c in w'.callers && exists s ::
              && w'.callers[c].setup == setup && Concludes(setup, s, w'.callers[c].progress)
              && var bundle := BundleFor(svc, CallsOf(w, node), setup.tenant, visit);
              && Tells(svc.rt, setup.tenant, setup.envelope, bundle, s.response.decision, s.response.timeoutSeconds,
                       s.response.onTimeout)
              && s.response.auditSeq == Length(w.audit.log, setup.tenant) + 1
  {
    hide Inv, AP.Inv, RP.Inv, KeysOk, FreshCall, Judge, Proceed, DoCall, DoSend, DoLook, DoDecide, DoAppend, DoHold, DoSave,
         DoFinish, Length, BundleFor, Tells, Concludes;
    var input := InputOf(setup, c, id, extra);
    Parts(sha, svc, w);
    FreshFacts(w, c, setup, h, input, call);
    KeyUnstored(sha, svc, w, setup);
    Reaches(w, c, setup, h, input, call, extra);
    var w3 := DoLook(DoSend(DoCall(w, c, setup, false), c, h, id, extra), h, true);
    Appends(sha, svc, w3, h, node, visit, call, env);
    var w6 := DoAppend(sha, DoAppend(sha, DoDecide(sha, svc, w3, h, node, visit, call), h, env), h, env);
    Responds(w6, c, setup, h, createdAt);
    RunSending(sha, svc, w, c, setup, h, id, extra);
    RunHandling(sha, svc, w3, h, node, visit, call, env);
    RunAnswering(sha, svc, w6, c, h, createdAt);
    RunInTurn(sha, svc, w, Sending(c, setup, h, id, extra), Handling(h, node, visit, call, env), Answering(c, h, createdAt));
    hide Run, Sending, Handling, Answering, HeldFor, InputOf;
    assert w6.handlers[h].made.Some?;
    assert CallsOf(w3, node) == CallsOf(w, node);
    var s := Served(w6.handlers[h].made.value, h);
    ProceedConcludes(setup, s);
    VerdictTells(svc.rt, setup.tenant, setup.envelope, BundleFor(svc, CallsOf(w, node), setup.tenant, visit));
    assert s.response.auditSeq == Length(w.audit.log, setup.tenant) + 1;
  }

  lemma RunInTurn(sha: Hasher, svc: Service, w: World, es: seq<Event>, fs: seq<Event>, gs: seq<Event>)
    ensures Run(sha, svc, w, es + fs + gs) == Run(sha, svc, Run(sha, svc, Run(sha, svc, w, es), fs), gs)
  {
    RunConcat(sha, svc, w, es + fs, gs);
    RunConcat(sha, svc, w, es, fs);
    hide Run;
  }

  /** The events of one undisturbed call: the request is sent, handled, and answered. */
  function Sending(c: nat, setup: Setup, h: nat, id: string, extra: Extra): seq<Event> {
    [Call(c, setup, false), Send(c, h, id, extra), Look(h, true)]
  }

  function Handling(h: nat, node: nat, visit: PP.Visit, call: nat, env: Env): seq<Event> {
    [Decide(h, node, visit, call), Append(h, env), Append(h, env)]
  }

  function Answering(c: nat, h: nat, createdAt: string): seq<Event> {
    [Hold(h, createdAt, true), Save(h, Up), Finish(c, true, Sdk.TransportError)]
  }

  lemma RunSending(sha: Hasher, svc: Service, w: World, c: nat, setup: Setup, h: nat, id: string, extra: Extra)
    ensures Run(sha, svc, w, Sending(c, setup, h, id, extra))
         == DoLook(DoSend(DoCall(w, c, setup, false), c, h, id, extra), h, true)
  {
    hide Run, AP.Next, RP.Next, DoPost, DoLook, DoDecide, DoInvalidate, DoAppend, DoHold, DoSave, DoRecord, DoCall, DoSend,
         DoFinish, DoPoll;
    RunThree(sha, svc, w, Sending(c, setup, h, id, extra));
  }

  lemma RunHandling(sha: Hasher, svc: Service, w: World, h: nat, node: nat, visit: PP.Visit, call: nat, env: Env)
    ensures Run(sha, svc, w, Handling(h, node, visit, call, env))
         == DoAppend(sha, DoAppend(sha, DoDecide(sha, svc, w, h, node, visit, call), h, env), h, env)
  {
    hide Run, AP.Next, RP.Next, DoPost, DoLook, DoDecide, DoInvalidate, DoAppend, DoHold, DoSave, DoRecord, DoCall, DoSend,
         DoFinish, DoPoll;
    RunThree(sha, svc, w, Handling(h, node, visit, call, env));
  }

  lemma RunAnswering(sha: Hasher, svc: Service, w: World, c: nat, h: nat, createdAt: string)
    ensures Run(sha, svc, w, Answering(c, h, createdAt))
         == DoFinish(DoSave(DoHold(w, h, createdAt, true), h, Up), c, true, Sdk.TransportError)
  {
    hide Run, AP.Next, RP.Next, DoPost, DoLook, DoDecide, DoInvalidate, DoAppend, DoHold, DoSave, DoRecord, DoCall, DoSend,
         DoFinish, DoPoll;
    RunThree(sha, svc, w, Answering(c, h, createdAt));
  }

  lemma FreshFacts(w: World, c: nat, setup: Setup, h: nat, input: Input, call: nat)
    requires FreshCall(w, c, setup, h, input, call)
    ensures call !in w.audit.calls && forall g | g in w.handlers :: !SameKey(setup, w.handlers[g].input)
  {
  }

  lemma RunThree(sha: Hasher, svc: Service, w: World, es: seq<Event>)
    requires |es| == 3
    ensures Run(sha, svc, w, es) == Next(sha, svc, Next(sha, svc, Next(sha, svc, w, es[0]), es[1]), es[2])
  {
    hide Next;
    assert es[..2][..1][..0] == [];
    assert es[..2][..1] == [es[0]] && es[..2][1] == es[1];
    assert Run(sha, svc, w, es[..2][..1]) == Next(sha, svc, w, es[0]);
  }
}
