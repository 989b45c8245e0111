/** Any number of concurrent appends, in any interleaving: every sequence of events is a run. */
module AuditProtocol {
  import opened Order
  import opened Json
  import opened Slots
  import opened HashChain
  import opened AuditLog

  /** One call of `append`. All but the first two fields are history: the chain's length when the call began, how many of
      its own steps it has taken, how many of its puts found the slot taken and how many were throttled, whether an
      operation met an error, and whether a put that failed found the deadline passed. */
  datatype Call = Call(
    request: Request, writer: Writer, base: nat, steps: nat, lost: nat, throttles: nat, broken: bool, late: bool)

  /** `authors` is history as well: which call put which record. */
  datatype State = State(log: Log, calls: map<nat, Call>, authors: map<Key, nat>)

  datatype Event = Begin(id: nat, request: Request) | Step(id: nat, env: Env)

  const INIT: State := State(map[], map[], map[])

  /** The call after a step that left it with writer w. */
  function Counted(c: Call, w: Writer, env: Env): Call {
    var put := c.writer.Putting?;
    Call(c.request, w, c.base, c.steps + 1,
         if put && env.net == Up && !w.Appended? then c.lost + 1 else c.lost,
         if put && env.net == Throttled then c.throttles + 1 else c.throttles,
         c.broken || env.net == Broken || (!put && env.net == Throttled),
         c.late || (put && env.late && env.net != Broken && !w.Appended?))
  }

  ghost function Next(sha: Hasher, s: State, e: Event): State {
    match e
    case Begin(id, request) =>
      if id in s.calls then s
      else s.(calls := s.calls[id := Call(request, START, Length(s.log, request.tenant), 0, 0, 0, false, false)])
    case Step(id, env) =>
      if id !in s.calls || !Running(s.calls[id].writer) then s
      else
        var c := s.calls[id];
        var (log, w) := StepWriter(sha, s.log, c.request, c.writer, env);
        State(log, s.calls[id := Counted(c, w, env)], if w.Appended? then s.authors[KeyOfRecord(w.record) := id] else s.authors)
  }

  ghost function Run(sha: Hasher, s: State, es: seq<Event>): State
    decreases |es|
  {
    if es == [] then s else Next(sha, Run(sha, s, es[..|es| - 1]), es[|es| - 1])
  }

  ghost predicate CallOk(sha: Hasher, s: State, id: nat)
    requires id in s.calls
  {
    var c := s.calls[id];
    && WriterOk(sha, s.log, c.request, c.writer)
    && c.base <= Length(s.log, c.request.tenant)
    && (c.writer.Appended? ==>
          KeyOfRecord(c.writer.record) in s.authors && s.authors[KeyOfRecord(c.writer.record)] == id)
    && StepsOk(c) && HistoryOk(c)
    && (Length(s.log, c.request.tenant) < CAPACITY ==> Charged(c, Length(s.log, c.request.tenant)))
  }

  /** A running call has taken two steps for each attempt behind it. */
  predicate StepsOk(c: Call) {
    match c.writer
    case Reading(attempt, _, _) => c.steps == 2 * attempt && attempt < MAX_WRITE_ATTEMPTS
    case Putting(attempt, _, _, _) => c.steps == 2 * attempt + 1 && attempt < MAX_WRITE_ATTEMPTS
    case _ => true
  }

  /** Each attempt behind a call found its slot taken or was throttled, and its flags say which occurred; it gives up
      after the last attempt or past the deadline, and raises what the service raised. */
  predicate HistoryOk(c: Call) {
    match c.writer
    case Reading(attempt, contended, throttled) => StillTrying(c, attempt, contended, throttled)
    case Putting(attempt, contended, throttled, _) => StillTrying(c, attempt, contended, throttled)
    case Appended(_) => !c.broken && !c.late
    case WriteFailed(contended, throttled) =>
      && contended == (c.lost > 0) && throttled == (c.throttles > 0) && !c.broken
      && (c.late || c.lost + c.throttles == MAX_WRITE_ATTEMPTS)
    case Raised => c.broken && !c.late
  }

  predicate StillTrying(c: Call, attempt: nat, contended: bool, throttled: bool) {
    && attempt == c.lost + c.throttles && contended == (c.lost > 0) && throttled == (c.throttles > 0)
    && !c.broken && !c.late
  }

  /** Every put that found its slot taken is charged to a record committed since the call began: `now` is the chain's
      length. Between read and put the charge is against what was read. */
  predicate Charged(c: Call, now: nat) {
    match c.writer
    case Putting(_, _, _, latest) => c.base + c.lost + 1 <= NextSeq(latest)
    case Appended(record) => c.base + c.lost + 1 <= record.seqNo <= now
    case _ => c.base + c.lost <= now
  }

  /** Every record was put by one call, and that call was told so. */
  ghost predicate AuthorOk(s: State, k: Key)
    requires k in s.log && k in s.authors
  {
    && s.authors[k] in s.calls
    && var c := s.calls[s.authors[k]];
    && c.writer.Appended? && k == KeyOfRecord(c.writer.record)
  }

  ghost predicate Inv(sha: Hasher, s: State) {
    && AllChainsOk(sha, s.log)
    && (forall id | id in s.calls :: CallOk(sha, s, id))
    && s.authors.Keys == s.log.Keys
    && (forall k | k in s.log :: AuthorOk(s, k))
  }

  lemma InitInv(sha: Hasher)
    ensures Inv(sha, INIT)
  {
    forall tenant ensures ChainOk(sha, INIT.log, tenant) {
      assert SeqKeys(INIT.log, tenant) == {};
      assert SlotKeys(SEQ_PREFIX, 0) == {};
    }
  }

  lemma LengthGrows(sha: Hasher, before: Log, after: Log, tenant: string)
    requires Grows(before, after)
    ensures Length(before, tenant) <= Length(after, tenant)
  {
    forall sk | sk in SeqKeys(before, tenant) ensures sk in SeqKeys(after, tenant) {
      var k :| k in before && k.pk == TenantKey(tenant) && HasPrefix(k.sk, SEQ_PREFIX) && k.sk == sk;
      assert k in after;
    }
    SubsetSize(SeqKeys(before, tenant), SeqKeys(after, tenant));
  }

  lemma SubsetSize<T>(a: set<T>, b: set<T>)
    requires a <= b
    ensures |a| <= |b|
  {
    assert b == a + (b - a);
  }

  /** What a step of a running call does to the state. */
  ghost predicate StepEffect(s: State, id: nat, env: Env, s': State)
    requires id in s.calls
  {
    var c := s.calls[id];
    && Grows(s.log, s'.log)
    && id in s'.calls && s'.calls == s.calls[id := s'.calls[id]]
    && var c' := s'.calls[id];
    && c'.request == c.request && c'.base == c.base
    && if c'.writer.Appended? then
         && Gained(s.log, s'.log, c'.writer.record) && c'.writer.record.tenantId == c.request.tenant
         && s'.authors == s.authors[KeyOfRecord(c'.writer.record) := id]
       else s'.log == s.log && s'.authors == s.authors
  }

  lemma StepHasEffect(sha: Hasher, s: State, id: nat, env: Env)
    requires AllChainsOk(sha, s.log) && id in s.calls && Running(s.calls[id].writer)
    requires WriterOk(sha, s.log, s.calls[id].request, s.calls[id].writer)
    ensures var s' := Next(sha, s, Step(id, env));
            && StepEffect(s, id, env, s')
            && AllChainsOk(sha, s'.log) && WriterOk(sha, s'.log, s'.calls[id].request, s'.calls[id].writer)
  {
    hide ChainOk, RecordsDecision, Gained, ToItem;
    StepKeepsChain(sha, s.log, s.calls[id].request, s.calls[id].writer, env);
  }

  /** The call that takes the step. */
  lemma StepKeepsCall(sha: Hasher, s: State, id: nat, env: Env)
    requires Inv(sha, s) && id in s.calls && Running(s.calls[id].writer)
    ensures CallOk(sha, Next(sha, s, Step(id, env)), id)
  {
    hide LinkedItem, RecordsDecision, ToItem, ChainOk, WriterOk, Charged, HistoryOk, StepsOk, StepWriter, Counted;
    var c := s.calls[id];
    var s' := Next(sha, s, Step(id, env));
    assert CallOk(sha, s, id);
    StepHasEffect(sha, s, id, env);
    LengthGrows(sha, s.log, s'.log, c.request.tenant);
    StepKeepsCharge(sha, s, id, env);
  }

  lemma HistoryKept(sha: Hasher, log: Log, c: Call, env: Env)
    requires StepsOk(c) && HistoryOk(c) && Running(c.writer)
    ensures var c' := Counted(c, StepWriter(sha, log, c.request, c.writer, env).1, env);
            StepsOk(c') && HistoryOk(c')
  {
    hide RecordFor, SlotOf, ToItem, Latest;
  }

  lemma LatestWithin(sha: Hasher, log: Log, tenant: string, latest: Option<AuditItem>)
    requires ChainOk(sha, log, tenant) && ReadOk(log, tenant, latest)
    ensures NextSeq(latest) <= Length(log, tenant) + 1
  {
    if latest.Some? {
      SlotTaken(sha, log, tenant, latest.value.seqNo);
    }
  }

  lemma ChargeKept(sha: Hasher, log: Log, c: Call, env: Env)
    requires ChainOk(sha, log, c.request.tenant) && Running(c.writer) && WriterOk(sha, log, c.request, c.writer)
    requires Length(log, c.request.tenant) < CAPACITY && Charged(c, Length(log, c.request.tenant))
    ensures var w := StepWriter(sha, log, c.request, c.writer, env).1;
            !w.Appended? ==> Charged(Counted(c, w, env), Length(log, c.request.tenant))
  {
    hide ChainOk, RecordsDecision, ToItem, LinkedItem, Payload;
    var t := c.request.tenant;
    if c.writer.Reading? {
      LatestIsLast(sha, log, t);
    } else {
      LatestWithin(sha, log, t, c.writer.latest);
      SlotTaken(sha, log, t, NextSeq(c.writer.latest));
    }
  }

  lemma StepKeepsCharge(sha: Hasher, s: State, id: nat, env: Env)
    requires AllChainsOk(sha, s.log) && id in s.calls && Running(s.calls[id].writer)
    requires CallOk(sha, s, id)
    ensures var c := Next(sha, s, Step(id, env)).calls[id];
            var now := Length(Next(sha, s, Step(id, env)).log, c.request.tenant);
            StepsOk(c) && HistoryOk(c) && (now < CAPACITY ==> Charged(c, now))
  {
    hide LinkedItem, RecordsDecision, ToItem, ChainOk, StepsOk, HistoryOk, StepWriter, WriterOk;
    var c := s.calls[id];
    var t := c.request.tenant;
    var s' := Next(sha, s, Step(id, env));
    assert ChainOk(sha, s.log, t);
    StepHasEffect(sha, s, id, env);
    LengthGrows(sha, s.log, s'.log, t);
    HistoryKept(sha, s.log, c, env);
    if Length(s.log, t) < CAPACITY {
      if s'.calls[id].writer.Appended? {
        AppendedCharge(sha, s.log, c, env);
      } else {
        ChargeKept(sha, s.log, c, env);
      }
    }
  }

  lemma AppendedCharge(sha: Hasher, log: Log, c: Call, env: Env)
    requires Charged(c, Length(log, c.request.tenant)) && Running(c.writer)
    ensures var w := StepWriter(sha, log, c.request, c.writer, env).1;
            w.Appended? ==> c.base + c.lost + 1 <= w.record.seqNo && Counted(c, w, env).lost == c.lost
  {
    hide ToItem, Payload, SlotOf, Latest;
  }

  lemma OtherCallOk(sha: Hasher, s: State, s': State, other: nat)
    requires other in s.calls && CallOk(sha, s, other) && other in s'.calls && s'.calls[other] == s.calls[other]
    requires var c := s.calls[other];
             && WriterOk(sha, s'.log, c.request, c.writer)
             && Length(s.log, c.request.tenant) <= Length(s'.log, c.request.tenant)
    requires forall k | k in s.authors && s.authors[k] == other :: k in s'.authors && s'.authors[k] == other
    ensures CallOk(sha, s', other)
  {
    hide WriterOk, HistoryOk, StepsOk, Length, KeyOfRecord;
  }

  /** Every other call. */
  lemma StepKeepsOthers(sha: Hasher, s: State, id: nat, env: Env, other: nat)
    requires Inv(sha, s) && id in s.calls && Running(s.calls[id].writer) && other in s.calls && other != id
    ensures CallOk(sha, Next(sha, s, Step(id, env)), other)
  {
    hide ChainOk, RecordsDecision, ToItem, StepWriter, WriterOk, HistoryOk, StepsOk, Counted, Charged, Length, AuthorOk;
    var o := s.calls[other];
    var s' := Next(sha, s, Step(id, env));
    assert CallOk(sha, s, id) && CallOk(sha, s, other);
    StepHasEffect(sha, s, id, env);
    LengthGrows(sha, s.log, s'.log, o.request.tenant);
    WriterOkGrows(sha, s.log, s'.log, o.request, o.writer);
    hide CallOk;
    OtherCallOk(sha, s, s', other);
  }

  lemma EffectKeepsAuthors(s: State, id: nat, env: Env, s': State)
    requires id in s.calls && Running(s.calls[id].writer) && StepEffect(s, id, env, s')
    requires s.authors.Keys == s.log.Keys && forall k | k in s.log :: AuthorOk(s, k)
    ensures s'.authors.Keys == s'.log.Keys && forall k | k in s'.log :: AuthorOk(s', k)
  {
    hide ToItem, Length, SlotOf;
    forall k | k in s'.log ensures k in s'.authors && AuthorOk(s', k) {
      if k in s.log {
        assert AuthorOk(s, k);
      }
    }
  }

  lemma NextKeepsInv(sha: Hasher, s: State, e: Event)
    requires Inv(sha, s)
    ensures Inv(sha, Next(sha, s, e))
    ensures Grows(s.log, Next(sha, s, e).log)
  {
    if e.Step? && e.id in s.calls && Running(s.calls[e.id].writer) {
      StepKeepsInv(sha, s, e.id, e.env);
    } else {
      BeginKeepsInv(sha, s, e);
    }
  }

  lemma StepKeepsInv(sha: Hasher, s: State, id: nat, env: Env)
    requires Inv(sha, s) && id in s.calls && Running(s.calls[id].writer)
    ensures Inv(sha, Next(sha, s, Step(id, env))) && Grows(s.log, Next(sha, s, Step(id, env)).log)
  {
    hide ChainOk, Next, WriterOk, Charged, AuthorOk;
    var s' := Next(sha, s, Step(id, env));
    assert CallOk(sha, s, id);
    StepHasEffect(sha, s, id, env);
    EffectKeepsAuthors(s, id, env, s');
    StepKeepsCall(sha, s, id, env);
    hide CallOk;
    forall other | other in s'.calls ensures CallOk(sha, s', other) {
      if other != id {
        StepKeepsOthers(sha, s, id, env, other);
      }
    }
  }

  lemma BeginKeepsInv(sha: Hasher, s: State, e: Event)
    requires Inv(sha, s)
    requires e.Step? ==> e.id !in s.calls || !Running(s.calls[e.id].writer)
    ensures Inv(sha, Next(sha, s, e)) && Next(sha, s, e).log == s.log
  {
    hide AllChainsOk, CallOk;
    var s' := Next(sha, s, e);
    if s' != s {
      NewCallOk(sha, s', e.id);
      forall id | id in s'.calls ensures CallOk(sha, s', id) {
        if id in s.calls {
          CallUntouched(sha, s, s', id);
        }
      }
      forall k | k in s'.log ensures AuthorOk(s', k) {
        assert AuthorOk(s, k);
      }
    }
  }

  lemma NewCallOk(sha: Hasher, s: State, id: nat)
    requires id in s.calls
    requires s.calls[id] == Call(s.calls[id].request, START, Length(s.log, s.calls[id].request.tenant), 0, 0, 0, false, false)
    ensures CallOk(sha, s, id)
  {
  }

  lemma CallUntouched(sha: Hasher, s: State, s': State, id: nat)
    requires id in s.calls && CallOk(sha, s, id)
    requires s'.log == s.log && s'.authors == s.authors && id in s'.calls && s'.calls[id] == s.calls[id]
    ensures CallOk(sha, s', id)
  {
    hide ChainOk, ToItem, RecordsDecision, WriterOk, Charged;
  }

  /** Every run, from any state that satisfies the invariant, keeps it, and changes no stored record. */
  lemma {:induction false} RunKeepsInv(sha: Hasher, s: State, es: seq<Event>)
    requires Inv(sha, s)
    ensures Inv(sha, Run(sha, s, es)) && Grows(s.log, Run(sha, s, es).log)
    decreases |es|
  {
    if es != [] {
      RunKeepsInv(sha, s, es[..|es| - 1]);
      NextKeepsInv(sha, Run(sha, s, es[..|es| - 1]), es[|es| - 1]);
    }
  }

  // ---------------------------------------------------------------------------------------
  // Safety
  // ---------------------------------------------------------------------------------------

  ghost predicate Told(s: State, id: nat) { id in s.calls && s.calls[id].writer.Appended? }

  ghost predicate ToldOf(s: State, id: nat, k: Key) { Told(s, id) && KeyOfRecord(s.calls[id].writer.record) == k }

  /** Linearity: in every interleaving of any number of appends, each tenant's table holds exactly the
      records 1 to n, each linked to the one before; every record is the one some call was told of, no two
      calls were told of the same, and so a call that was told anything else put nothing. */
  lemma {:induction false} AppendSafety(sha: Hasher, es: seq<Event>)
    ensures var s := Run(sha, INIT, es);
            && AllChainsOk(sha, s.log)
            && (forall id | Told(s, id) ::
                  var c := s.calls[id];
                  c.writer.record.tenantId == c.request.tenant && Stored(s.log, c.writer.record)
                  && RecordsDecision(ToItem(c.writer.record), c.request.decisionId))
            && (forall k | k in s.log :: exists id :: ToldOf(s, id, k))
            && (forall i, j, k | ToldOf(s, i, k) && ToldOf(s, j, k) :: i == j)
  {
    hide ChainOk, RecordsDecision, ToItem;
    InitInv(sha);
    RunKeepsInv(sha, INIT, es);
    var s := Run(sha, INIT, es);
    forall id | Told(s, id)
      ensures var c := s.calls[id];
              c.writer.record.tenantId == c.request.tenant && Stored(s.log, c.writer.record)
              && RecordsDecision(ToItem(c.writer.record), c.request.decisionId)
    {
      assert CallOk(sha, s, id);
    }
    forall k | k in s.log ensures exists id :: ToldOf(s, id, k) {
      assert AuthorOk(s, k);
      assert ToldOf(s, s.authors[k], k);
    }
    forall i, j, k | ToldOf(s, i, k) && ToldOf(s, j, k) ensures i == j {
      assert CallOk(sha, s, i) && CallOk(sha, s, j);
    }
  }

  /** The tenant's chain is full, and every append to it that is told of success in s' was already told in s. */
  ghost predicate StillFull(s: State, s': State, tenant: string) {
    && Length(s'.log, tenant) == CAPACITY
    && forall id | Told(s', id) && s'.calls[id].request.tenant == tenant ::
         Told(s, id) && s.calls[id].request.tenant == tenant
  }

  lemma FullEffect(sha: Hasher, s: State, id: nat, env: Env, s': State, tenant: string)
    requires id in s.calls && StepEffect(s, id, env, s') && ChainOk(sha, s'.log, tenant)
    requires Length(s.log, tenant) == CAPACITY
    ensures StillFull(s, s', tenant)
  {
    hide LinkedItem, ToItem, Length, SlotOf;
  }

  lemma FullUnstepped(sha: Hasher, s: State, e: Event, tenant: string)
    requires Length(s.log, tenant) == CAPACITY
    requires e.Step? ==> e.id !in s.calls || !Running(s.calls[e.id].writer)
    ensures StillFull(s, Next(sha, s, e), tenant)
  {
    hide Length;
  }

  lemma FullStays(sha: Hasher, s: State, e: Event, tenant: string)
    requires Inv(sha, s) && Length(s.log, tenant) == CAPACITY
    ensures StillFull(s, Next(sha, s, e), tenant)
  {
    hide Next, StepEffect, ChainOk, Length, StillFull, WriterOk, Charged, AuthorOk, LinkedItem;
    if e.Step? && e.id in s.calls && Running(s.calls[e.id].writer) {
      assert CallOk(sha, s, e.id);
      StepHasEffect(sha, s, e.id, e.env);
      FullEffect(sha, s, e.id, e.env, Next(sha, s, e), tenant);
    } else {
      FullUnstepped(sha, s, e, tenant);
    }
  }

  /** A full chain stays as it is: whatever runs, no append to it that had not succeeded ever does. */
  lemma {:induction false} FullChainFinal(sha: Hasher, s: State, es: seq<Event>, tenant: string)
    requires Inv(sha, s) && Length(s.log, tenant) == CAPACITY
    ensures StillFull(s, Run(sha, s, es), tenant)
    decreases |es|
  {
    hide Inv, Next, Length;
    if es != [] {
      RunKeepsInv(sha, s, es[..|es| - 1]);
      FullChainFinal(sha, s, es[..|es| - 1], tenant);
      FullStays(sha, Run(sha, s, es[..|es| - 1]), es[|es| - 1], tenant);
    }
  }

  // ---------------------------------------------------------------------------------------
  // Progress
  // ---------------------------------------------------------------------------------------

  function StepsOf(es: seq<Event>, id: nat): nat {
    if es == [] then 0
    else StepsOf(es[..|es| - 1], id) + if es[|es| - 1].Step? && es[|es| - 1].id == id then 1 else 0
  }

  /** No step of this call met throttling, an error or the deadline. */
  predicate Undisturbed(es: seq<Event>, id: nat) {
    forall e | e in es && e.Step? && e.id == id :: e.env.net == Up && !e.env.late
  }

  /** While a call runs it counts each of its steps. */
  lemma {:induction false} StepsCounted(sha: Hasher, s: State, es: seq<Event>, id: nat)
    requires Inv(sha, s) && id in s.calls && s.calls[id].steps == 0
    ensures var c := Run(sha, s, es).calls;
            && id in c && c[id].request == s.calls[id].request && c[id].base == s.calls[id].base
            && (Running(c[id].writer) ==> c[id].steps == StepsOf(es, id))
            && (s.calls[id].throttles == 0 && !s.calls[id].broken && !s.calls[id].late && Undisturbed(es, id) ==>
                  c[id].throttles == 0 && !c[id].broken && !c[id].late)
    decreases |es|
  {
    if es != [] {
      var init := es[..|es| - 1];
      StepsCounted(sha, s, init, id);
      assert forall e | e in init :: e in es;
      assert es[|es| - 1] in es;
      assert Undisturbed(es, id) ==> Undisturbed(init, id);
    }
  }

  /** What a call that has ended says about how it went. */
  ghost predicate Ended(c: Call) {
    && !Running(c.writer)
    && (c.writer.Raised? <==> c.broken)
    && (c.late ==> c.writer.WriteFailed?)
    && (c.writer.WriteFailed? ==>
          && (c.late || c.lost + c.throttles == 6)
          && (c.writer.contended <==> c.lost > 0) && (c.writer.throttled <==> c.throttles > 0))
  }

  lemma EndedCall(sha: Hasher, s: State, id: nat)
    requires Inv(sha, s) && id in s.calls && !Running(s.calls[id].writer)
    ensures Ended(s.calls[id])
    ensures !Told(s, id) ==> forall k | k in s.authors :: s.authors[k] != id
    ensures var now := Length(s.log, s.calls[id].request.tenant);
            now < CAPACITY ==> now >= s.calls[id].base + s.calls[id].lost + if Told(s, id) then 1 else 0
  {
    hide AllChainsOk, WriterOk, KeyOfRecord;
    assert CallOk(sha, s, id);
    if !Told(s, id) {
      forall k | k in s.authors ensures s.authors[k] != id {
        assert AuthorOk(s, k);
      }
    }
  }

  lemma StillRunning(sha: Hasher, s: State, id: nat)
    requires Inv(sha, s) && id in s.calls && Running(s.calls[id].writer)
    ensures s.calls[id].steps < 12
  {
    hide AllChainsOk, WriterOk, AuthorOk;
    assert CallOk(sha, s, id);
  }

  /** An append ends within 12 of its own steps. It raises exactly if one of its operations met an error. Otherwise it
      succeeds, or it gives up after 6 puts that were refused or throttled, or earlier past its deadline, and says
      truly which of the two occurred. On a chain below capacity every refused put is charged to a record another
      call committed while it ran, so that undisturbed it fails only for 6 of them. */
  lemma {:induction false} AppendProgress(sha: Hasher, es: seq<Event>, id: nat, request: Request, fs: seq<Event>)
    requires id !in Run(sha, INIT, es).calls
    requires StepsOf(fs, id) >= 12
    ensures var begun := Next(sha, Run(sha, INIT, es), Begin(id, request));
            var s := Run(sha, begun, fs);
            && id in s.calls && Ended(s.calls[id])
            && (!Told(s, id) ==> forall k | k in s.authors :: s.authors[k] != id)
            && (Length(s.log, request.tenant) < CAPACITY ==>
                  Length(s.log, request.tenant)
                  >= Length(begun.log, request.tenant) + s.calls[id].lost + if Told(s, id) then 1 else 0)
            && (Undisturbed(fs, id) && !Told(s, id) ==> s.calls[id].writer.WriteFailed? && s.calls[id].lost == 6)
  {
    InitInv(sha);
    RunKeepsInv(sha, INIT, es);
    var begun := Next(sha, Run(sha, INIT, es), Begin(id, request));
    NextKeepsInv(sha, Run(sha, INIT, es), Begin(id, request));
    RunKeepsInv(sha, begun, fs);
    StepsCounted(sha, begun, fs, id);
    var s := Run(sha, begun, fs);
    hide Inv, Run, StepsOf, Undisturbed, Length;
    if Running(s.calls[id].writer) {
      StillRunning(sha, s, id);
    } else {
      EndedCall(sha, s, id);
    }
  }

  lemma StepsAlone(sha: Hasher, log: Log, request: Request, env: Env)
    requires ChainOk(sha, log, request.tenant) && Length(log, request.tenant) < CAPACITY && env.net == Up
    ensures var (a, w1) := StepWriter(sha, log, request, START, env);
            var (b, w2) := StepWriter(sha, a, request, w1, env);
            a == log && w1.Putting? && w2.Appended? && w2.record.seqNo == Length(log, request.tenant) + 1
  {
    hide RecordsDecision, ToItem, LinkedItem, Payload, SlotKey;
    LatestIsLast(sha, log, request.tenant);
    SlotTaken(sha, log, request.tenant, Length(log, request.tenant) + 1);
  }

  /** With no other call between its read and its put, an append takes the number after the last one. */
  lemma {:induction false} AppendAlone(sha: Hasher, s: State, id: nat, request: Request, env: Env)
    requires Inv(sha, s) && id !in s.calls && Length(s.log, request.tenant) < CAPACITY && env.net == Up
    ensures var begun := Next(sha, s, Begin(id, request));
            var read := Next(sha, begun, Step(id, env));
            var put := Next(sha, read, Step(id, env));
            && id in begun.calls && begun.calls[id].request == request
            && id in read.calls && read.calls[id].writer.Putting?
            && id in put.calls && put.calls[id].writer.Appended?
            && put.calls[id].writer.record.seqNo == Length(s.log, request.tenant) + 1
  {
    hide StepWriter, CallOk, AuthorOk, ChainOk, KeyOfRecord;
    assert ChainOk(sha, s.log, request.tenant);
    StepsAlone(sha, s.log, request, env);
  }

  // ---------------------------------------------------------------------------------------
  // Verification of the stored chain
  // ---------------------------------------------------------------------------------------

  /** The items `verify_chain` reads: the ascending query, at most `limit` of them. */
  ghost function QueryAscending(log: Log, tenant: string, limit: nat): seq<AuditItem> {
    var keys := Ascending(SeqKeys(log, tenant));
    var n := if limit < |keys| then limit else |keys|;
    seq(n, i requires 0 <= i < n =>
      assert keys[i] in SeqKeys(log, tenant);
      log[Key(TenantKey(tenant), keys[i])])
  }

  /** `verify_chain`, given what the query returned; None where an item's payload does not parse. */
  method VerifyChain(sha: Hasher, tenant: string, items: seq<AuditItem>) returns (v: Option<ChainVerification>)
    ensures v.Some? <==> forall i | 0 <= i < |items| :: FromItem(items[i]).Some?
    ensures v.Some? ==>
      v.value.recordsChecked == |items| && (v.value.chainValid <==> Accepted(sha, ReadItems(items)))
    ensures items == [] ==> v == Some(ChainVerification(true, 0, tenant, None, None))
  {
    var records: seq<AuditRecord> := [];
    for n := 0 to |items|
      invariant |records| == n
      invariant forall i | 0 <= i < n :: FromItem(items[i]) == Some(records[i])
    {
      var r := FromItem(items[n]);
      if r == None {
        return None;
      }
      records := records + [r.value];
    }
    assert records == ReadItems(items) by {
      ReadItemsAt(items, records);
    }
    var verification := VerifyRecords(sha, records);
    if records == [] {
      return Some(ChainVerification(true, 0, tenant, None, None));
    }
    return Some(verification);
  }

  function ReadItems(items: seq<AuditItem>): seq<AuditRecord>
    requires forall i | 0 <= i < |items| :: FromItem(items[i]).Some?
  {
    if items == [] then [] else [FromItem(items[0]).value] + ReadItems(items[1..])
  }

  lemma {:induction false} ReadItemsAt(items: seq<AuditItem>, records: seq<AuditRecord>)
    requires |records| == |items| && forall i | 0 <= i < |items| :: FromItem(items[i]) == Some(records[i])
    ensures ReadItems(items) == records
  {
    if items != [] {
      forall i | 0 <= i < |items[1..]| ensures FromItem(items[1..][i]) == Some(records[1..][i]) {
        assert items[1..][i] == items[i + 1] && records[1..][i] == records[i + 1];
      }
      ReadItemsAt(items[1..], records[1..]);
      assert records == [records[0]] + records[1..];
    }
  }

  /** No false alarm: in every reachable table, a chain below capacity reads back completely and verifies, for every limit. */
  lemma {:induction false} NoFalseAlarm(sha: Hasher, es: seq<Event>, tenant: string, limit: nat)
    requires Length(Run(sha, INIT, es).log, tenant) < CAPACITY
    ensures var items := QueryAscending(Run(sha, INIT, es).log, tenant, limit);
            && (forall i | 0 <= i < |items| :: FromItem(items[i]).Some?)
            && Accepted(sha, ReadItems(items))
            && |items| == if limit < Length(Run(sha, INIT, es).log, tenant) then limit
                          else Length(Run(sha, INIT, es).log, tenant)
  {
    var log := Run(sha, INIT, es).log;
    InitInv(sha);
    RunKeepsInv(sha, INIT, es);
    assert ChainOk(sha, log, tenant);
    QueryIsChain(sha, log, tenant, limit);
  }

  /** The i-th item read is the chain's record i + 1. */
  ghost predicate ItemAt(sha: Hasher, log: Log, tenant: string, items: seq<AuditItem>, i: nat)
    requires i < |items|
  {
    LinkedItem(sha, log, tenant, i + 1) && items[i] == log[SlotOf(tenant, i + 1)]
  }

  lemma QueryIsChain(sha: Hasher, log: Log, tenant: string, limit: nat)
    requires ChainOk(sha, log, tenant) && Length(log, tenant) < CAPACITY
    ensures var items := QueryAscending(log, tenant, limit);
            && (forall i | 0 <= i < |items| :: FromItem(items[i]).Some?)
            && Accepted(sha, ReadItems(items))
            && |items| == if limit < Length(log, tenant) then limit else Length(log, tenant)
  {
    hide FromItem, Accepted, SoundAt, ReadItems;
    QueryItems(sha, log, tenant, limit);
    hide ChainOk, ItemAt, QueryAscending, Length;
    LinkedItemsAccepted(sha, log, tenant, QueryAscending(log, tenant, limit));
  }

  /** The query reads the records in order, from the first. */
  lemma QueryItems(sha: Hasher, log: Log, tenant: string, limit: nat)
    requires ChainOk(sha, log, tenant) && Length(log, tenant) < CAPACITY
    ensures var items := QueryAscending(log, tenant, limit);
            && |items| == (if limit < Length(log, tenant) then limit else Length(log, tenant))
            && forall i | 0 <= i < |items| :: ItemAt(sha, log, tenant, items, i)
  {
    hide LinkedItem;
    AscendingSlots(SEQ_PREFIX, Length(log, tenant));
    var items := QueryAscending(log, tenant, limit);
    forall i | 0 <= i < |items| ensures ItemAt(sha, log, tenant, items, i) {
      assert LinkedItem(sha, log, tenant, i + 1);
    }
  }

  lemma LinkedItemsAccepted(sha: Hasher, log: Log, tenant: string, items: seq<AuditItem>)
    requires forall i | 0 <= i < |items| :: ItemAt(sha, log, tenant, items, i)
    ensures forall i | 0 <= i < |items| :: FromItem(items[i]).Some?
    ensures Accepted(sha, ReadItems(items))
  {
    hide ItemAt, FromItem, SoundAt;
    forall i | 0 <= i < |items| ensures FromItem(items[i]).Some? {
      ItemReadable(sha, log, tenant, items, i);
    }
    var records := ReadItems(items);
    ReadItemsIndex(items);
    hide ReadItems;
    forall i | 0 <= i < |records| ensures SoundAt(sha, records, i) {
      assert ItemAt(sha, log, tenant, items, i);
      assert i > 0 ==> ItemAt(sha, log, tenant, items, i - 1);
      ItemSound(sha, log, tenant, items, records, i);
    }
  }

  lemma ItemReadable(sha: Hasher, log: Log, tenant: string, items: seq<AuditItem>, i: nat)
    requires i < |items| && ItemAt(sha, log, tenant, items, i)
    ensures FromItem(items[i]).Some?
  {
  }

  lemma ItemSound(sha: Hasher, log: Log, tenant: string, items: seq<AuditItem>, records: seq<AuditRecord>, i: nat)
    requires i < |records| == |items| && FromItem(items[i]) == Some(records[i]) && ItemAt(sha, log, tenant, items, i)
    requires i > 0 ==> ItemAt(sha, log, tenant, items, i - 1) && FromItem(items[i - 1]) == Some(records[i - 1])
    ensures SoundAt(sha, records, i)
  {
    hide SoundAt, FromItem, SlotOf;
    if i > 0 {
      LinkedItemSound(sha, log, tenant, records, i);
    } else {
      FirstItemSound(sha, log, tenant, records);
    }
  }

  lemma {:induction false} ReadItemsIndex(items: seq<AuditItem>)
    requires forall i | 0 <= i < |items| :: FromItem(items[i]).Some?
    ensures |ReadItems(items)| == |items|
    ensures forall i | 0 <= i < |items| :: FromItem(items[i]) == Some(ReadItems(items)[i])
  {
    if items != [] {
      ReadItemsIndex(items[1..]);
      assert items == [items[0]] + items[1..];
    }
  }

  lemma FirstItemSound(sha: Hasher, log: Log, tenant: string, records: seq<AuditRecord>)
    requires records != [] && LinkedItem(sha, log, tenant, 1)
    requires FromItem(log[SlotOf(tenant, 1)]) == Some(records[0])
    ensures SoundAt(sha, records, 0)
  {
  }

  lemma LinkedItemSound(sha: Hasher, log: Log, tenant: string, records: seq<AuditRecord>, i: nat)
    requires 0 < i < |records| && LinkedItem(sha, log, tenant, i) && LinkedItem(sha, log, tenant, i + 1)
    requires FromItem(log[SlotOf(tenant, i)]) == Some(records[i - 1])
    requires FromItem(log[SlotOf(tenant, i + 1)]) == Some(records[i])
    ensures SoundAt(sha, records, i)
  {
  }
}
