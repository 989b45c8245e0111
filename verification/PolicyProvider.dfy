/** The hot-reload cache of the active bundle: one entry per tenant, refreshed on a timer, kept when the store fails. */
module PolicyProvider {
  import opened Order
  import opened Json
  import opened Slots
  import HashChain
  import opened PolicyStore
  import Policy

  datatype Source = Packaged | FromStore

  datatype PolicyState = PolicyState(bundle: Policy.Bundle, version: int, source: Source, checkedAt: real, degraded: bool)

  /** `load` is `load_bundle`; None where it raises. */
  datatype Config = Config(
    hasStore: bool, fallback: Policy.Bundle, bundleId: string, refreshSeconds: real, load: Json -> Option<Policy.Bundle>)

  /** What one call of `state` meets: the clock when it starts and when it is done, whether the pointer read succeeds
      and what it says, and what `get_version(...).bundle` gives for that pointer; None where that raises. */
  datatype Replies = Replies(
    start: real, pointerOk: bool, pointer: Option<int>, fetched: Option<(Policy.Bundle, nat)>, done: real)

  type Cache = map<string, PolicyState>

  function Lookup(cache: Cache, tenant: string): Option<PolicyState> {
    if tenant in cache then Some(cache[tenant]) else None
  }

  function FallbackState(cfg: Config, done: real, degraded: bool): PolicyState {
    PolicyState(cfg.fallback, cfg.fallback.version, Packaged, done, degraded)
  }

  /** The unchanged-version shortcut applies. */
  predicate Unchanged(cached: Option<PolicyState>, version: int) {
    cached.Some? && !cached.value.degraded && cached.value.source == FromStore && cached.value.version == version
  }

  /** `_refresh`; None where it raises. */
  function Refresh(cfg: Config, cached: Option<PolicyState>, r: Replies): Option<PolicyState> {
    if !r.pointerOk then None
    else if r.pointer == None then
      if cached.Some? && cached.value.source == Packaged && !cached.value.degraded then
        Some(cached.value.(checkedAt := r.done))
      else Some(FallbackState(cfg, r.done, false))
    else if Unchanged(cached, r.pointer.value) then Some(cached.value.(checkedAt := r.done))
    else if r.fetched == None then None
    else Some(PolicyState(r.fetched.value.0, r.fetched.value.1, FromStore, r.done, false))
  }

  /** `_degrade` */
  function Degrade(cfg: Config, cached: Option<PolicyState>, r: Replies): PolicyState {
    if cached.Some? then cached.value.(checkedAt := r.done, degraded := true) else FallbackState(cfg, r.done, true)
  }

  predicate Recent(cfg: Config, cached: Option<PolicyState>, start: real) {
    cached.Some? && start - cached.value.checkedAt < cfg.refreshSeconds
  }

  /** `state` */
  function Serve(cfg: Config, cached: Option<PolicyState>, r: Replies): PolicyState {
    if Recent(cfg, cached, r.start) then cached.value
    else if !cfg.hasStore then FallbackState(cfg, r.done, false)
    else
      match Refresh(cfg, cached, r)
      case Some(s) => s
      case None => Degrade(cfg, cached, r)
  }

  /** One call of `state`, case by case: a recent answer is repeated without asking; without a store the packaged bundle is
      served; a pointer that names the version already served confirms it without a fetch; no pointer means the packaged
      bundle; a new version is taken over; and whatever fails keeps the bundle and marks it. */
  lemma ServeSays(cfg: Config, cached: Option<PolicyState>, r: Replies)
    ensures var s := Serve(cfg, cached, r);
            if cached.Some? && r.start - cached.value.checkedAt < cfg.refreshSeconds then s == cached.value
            else if !cfg.hasStore then s == PolicyState(cfg.fallback, cfg.fallback.version, Packaged, r.done, false)
            else
              && s.checkedAt == r.done
              && (s.degraded <==> !r.pointerOk || (r.pointer.Some? && r.fetched == None && !Confirms(cached, r.pointer.value)))
              && (s.degraded ==> s.bundle == if cached.Some? then cached.value.bundle else cfg.fallback)
              && (s.degraded && cached.Some? ==> s.version == cached.value.version && s.source == cached.value.source)
              && (!s.degraded && r.pointer == None ==> s.source == Packaged)
              && (!s.degraded && r.pointer.Some? ==> s.source == FromStore)
              && (!s.degraded && r.pointer.Some? && Confirms(cached, r.pointer.value) ==>
                    s.bundle == cached.value.bundle && s.version == r.pointer.value)
              && (!s.degraded && r.pointer.Some? && !Confirms(cached, r.pointer.value) ==>
                    (s.bundle, s.version) == r.fetched.value)
  {
  }

  /** The version named is the one served from the store, and that was confirmed. */
  predicate Confirms(cached: Option<PolicyState>, version: int) {
    && cached.Some? && cached.value.source == FromStore && !cached.value.degraded
    && cached.value.version == version
  }

  class ActivePolicyProvider {
    const cfg: Config
    var states: Cache

    constructor (cfg: Config)
      ensures this.cfg == cfg && states == map[]
    {
      this.cfg := cfg;
      states := map[];
    }

    method State(tenant: string, r: Replies) returns (s: PolicyState)
      modifies this
      ensures s == Serve(cfg, Lookup(old(states), tenant), r)
      ensures states == old(states)[tenant := s]
    {
      var cached := Lookup(states, tenant);
      if cached.Some? && r.start - cached.value.checkedAt < cfg.refreshSeconds {
        assert states == states[tenant := cached.value];
        return cached.value;
      }
      if !cfg.hasStore {
        s := FallbackState(cfg, r.done, false);
        states := states[tenant := s];
        return;
      }
      match Refresh(cfg, cached, r) {
        case Some(next) => s := next;
        case None => s := Degrade(cfg, cached, r);
      }
      states := states[tenant := s];
    }

    /** Drops one entry, or all of them. */
    method Invalidate(tenant: Option<string>)
      modifies this
      ensures states == Dropped(old(states), tenant)
    {
      match tenant {
        case None => states := map[];
        case Some(t) => states := states - {t};
      }
    }
  }

  function Dropped(cache: Cache, tenant: Option<string>): Cache {
    if tenant == None then map[] else cache - {tenant.value}
  }

  // ---------------------------------------------------------------------------------------
  // The store behind it
  // ---------------------------------------------------------------------------------------

  /** `get_active` */
  function ActiveAt(store: Store, pk: string): Option<int> {
    if Key(pk, ACTIVE_SK) in store && store[Key(pk, ACTIVE_SK)].PointerItem?
    then Some(store[Key(pk, ACTIVE_SK)].activeVersion) else None
  }

  /** `get_version(...).bundle` */
  function Fetch(cfg: Config, store: Store, pk: string, v: int): Option<(Policy.Bundle, nat)> {
    if VersionKey(pk, v) !in store then None
    else
      match FromItem(pk, store[VersionKey(pk, v)])
      case None => None
      case Some(published) =>
        match cfg.load(ServedDocument(published.document, published.version))
        case None => None
        case Some(b) => Some((b, published.version))
  }

  /** The policy in force: the active version, or the packaged bundle where none was activated. */
  function InForce(cfg: Config, store: Store, pk: string): Option<Policy.Bundle> {
    match ActiveAt(store, pk)
    case None => Some(cfg.fallback)
    case Some(v) => if Fetch(cfg, store, pk, v).Some? then Some(Fetch(cfg, store, pk, v).value.0) else None
  }

  /** The store over time. PolicyStore.StoreSafety and VersionsImmutable prove this of every run. */
  ghost predicate History(at: real -> Store) {
    (forall t :: AllOk(at(t))) && (forall t, u | t <= u :: Frozen(at(t), at(u)))
  }

  /** When one call of `state` makes its reads, and which of them fail. */
  datatype Visit = Visit(start: real, readAt: real, readOk: bool, fetchAt: real, fetchOk: bool, done: real)

  datatype Call = Get(tenant: string, visit: Visit) | Invalidate(tenant_: Option<string>)

  predicate InOrder(v: Visit) { v.start <= v.readAt <= v.fetchAt <= v.done }

  function RepliesAt(cfg: Config, at: real -> Store, tenant: string, v: Visit): Replies {
    var pk := Partition(tenant, cfg.bundleId);
    var pointer := ActiveAt(at(v.readAt), pk);
    var fetched := if pointer.Some? && v.fetchOk then Fetch(cfg, at(v.fetchAt), pk, pointer.value) else None;
    Replies(v.start, v.readOk, pointer, fetched, v.done)
  }

  /** The provider's cache; `readTimes` is history: when the pointer was read that an entry's last refresh relied on. */
  datatype World = World(cache: Cache, readTimes: map<string, real>)

  const START: World := World(map[], map[])

  function Answer(cfg: Config, at: real -> Store, w: World, tenant: string, v: Visit): PolicyState {
    Serve(cfg, Lookup(w.cache, tenant), RepliesAt(cfg, at, tenant, v))
  }

  function Next(cfg: Config, at: real -> Store, w: World, c: Call): World {
    match c
    case Invalidate(tenant) => w.(cache := Dropped(w.cache, tenant))
    case Get(tenant, v) =>
      World(w.cache[tenant := Answer(cfg, at, w, tenant, v)],
            if Recent(cfg, Lookup(w.cache, tenant), v.start) then w.readTimes else w.readTimes[tenant := v.readAt])
  }

  function Run(cfg: Config, at: real -> Store, calls: seq<Call>): World {
    if calls == [] then START else Next(cfg, at, Run(cfg, at, calls[..|calls| - 1]), calls[|calls| - 1])
  }

  /** The calls follow one another on a clock that does not run backwards, each done no more than `span` after
      its pointer read. */
  ghost predicate Timed(calls: seq<Call>, span: real) {
    && (forall c | c in calls && c.Get? :: InOrder(c.visit) && c.visit.done - c.visit.readAt <= span)
    && (forall i, j | 0 <= i < j < |calls| && calls[i].Get? && calls[j].Get? :: calls[i].visit.done <= calls[j].visit.start)
  }

  // ---------------------------------------------------------------------------------------
  // What the cache always is
  // ---------------------------------------------------------------------------------------

  /** A cached published bundle is the store's, from then on; a packaged one is the fallback. */
  ghost predicate EntryOk(cfg: Config, at: real -> Store, pk: string, s: PolicyState) {
    match s.source
    case Packaged => s.bundle == cfg.fallback && s.version == cfg.fallback.version
    case FromStore =>
      cfg.hasStore && forall t | t >= s.checkedAt :: Fetch(cfg, at(t), pk, s.version) == Some((s.bundle, s.version))
  }

  /** A confirmed entry was in force when the pointer was read. */
  ghost predicate Confirmed(cfg: Config, at: real -> Store, pk: string, s: PolicyState, read: real, span: real) {
    cfg.hasStore && !s.degraded ==>
      && read <= s.checkedAt <= read + span
      && InForce(cfg, at(read), pk) == Some(s.bundle)
      && (ActiveAt(at(read), pk) == if s.source == FromStore then Some(s.version) else None)
  }

  ghost predicate Inv(cfg: Config, at: real -> Store, w: World, span: real) {
    forall tenant | tenant in w.cache ::
      && tenant in w.readTimes
      && EntryOk(cfg, at, Partition(tenant, cfg.bundleId), w.cache[tenant])
      && Confirmed(cfg, at, Partition(tenant, cfg.bundleId), w.cache[tenant], w.readTimes[tenant], span)
  }

  /** What can be fetched once is fetched the same ever after. */
  lemma FetchStable(cfg: Config, before: Store, after: Store, pk: string, v: int)
    requires AllOk(before) && Frozen(before, after) && 1 <= v <= Count(before, pk)
    ensures Fetch(cfg, before, pk, v) == Fetch(cfg, after, pk, v)
    ensures Fetch(cfg, before, pk, v).Some? ==> Fetch(cfg, before, pk, v).value.1 == v
  {
    assert BundleOk(before, pk);
    assert VersionAt(before, pk, v);
  }

  lemma PointerInRange(store: Store, pk: string)
    requires AllOk(store) && ActiveAt(store, pk).Some?
    ensures 1 <= ActiveAt(store, pk).value <= Count(store, pk)
  {
    assert BundleOk(store, pk);
  }

  /** The active version reads the same from the moment of the pointer read on. */
  lemma ActiveFetch(cfg: Config, at: real -> Store, pk: string, read: real, t: real)
    requires History(at) && read <= t && ActiveAt(at(read), pk).Some?
    ensures var v := ActiveAt(at(read), pk).value;
            && Fetch(cfg, at(t), pk, v) == Fetch(cfg, at(read), pk, v)
            && (Fetch(cfg, at(read), pk, v).Some? ==> Fetch(cfg, at(read), pk, v).value.1 == v)
  {
    hide AllOk, Frozen, Fetch;
    PointerInRange(at(read), pk);
    FetchStable(cfg, at(read), at(t), pk, ActiveAt(at(read), pk).value);
  }

  /** The shortcuts lose nothing: whatever valid entry is cached, a refresh that can reach the store gives exactly
      what one that starts with an empty cache and fetches everything would. */
  lemma {:induction false} ShortcutExact(cfg: Config, at: real -> Store, tenant: string, s: PolicyState, v: Visit)
    requires History(at) && InOrder(v) && s.checkedAt <= v.start && v.readOk && v.fetchOk
    requires EntryOk(cfg, at, Partition(tenant, cfg.bundleId), s)
    ensures Refresh(cfg, Some(s), RepliesAt(cfg, at, tenant, v)) == Refresh(cfg, None, RepliesAt(cfg, at, tenant, v))
  {
    hide Fetch, History;
  }

  lemma AnswerOk(cfg: Config, at: real -> Store, w: World, tenant: string, v: Visit, span: real)
    requires History(at) && InOrder(v) && v.done - v.readAt <= span && Inv(cfg, at, w, span)
    requires tenant in w.cache ==> w.cache[tenant].checkedAt <= v.start
    ensures var s := Answer(cfg, at, w, tenant, v);
            && EntryOk(cfg, at, Partition(tenant, cfg.bundleId), s)
            && s.checkedAt <= v.done
            && Confirmed(cfg, at, Partition(tenant, cfg.bundleId), s,
                         Next(cfg, at, w, Get(tenant, v)).readTimes[tenant], span)
  {
    hide Fetch, History, ActiveAt;
    var pk := Partition(tenant, cfg.bundleId);
    var s := Answer(cfg, at, w, tenant, v);
    if ActiveAt(at(v.readAt), pk).Some? {
      ActiveFetch(cfg, at, pk, v.readAt, v.fetchAt);
      forall t | t >= v.done ensures Fetch(cfg, at(t), pk, ActiveAt(at(v.readAt), pk).value)
                                  == Fetch(cfg, at(v.readAt), pk, ActiveAt(at(v.readAt), pk).value)
      {
        ActiveFetch(cfg, at, pk, v.readAt, t);
      }
      if tenant in w.cache {
        assert EntryOk(cfg, at, pk, w.cache[tenant]);
      }
    }
  }

  lemma NextKeepsInv(cfg: Config, at: real -> Store, w: World, c: Call, span: real)
    requires History(at) && Inv(cfg, at, w, span)
    requires c.Get? ==> InOrder(c.visit) && c.visit.done - c.visit.readAt <= span
    requires c.Get? && c.tenant in w.cache ==> w.cache[c.tenant].checkedAt <= c.visit.start
    ensures Inv(cfg, at, Next(cfg, at, w, c), span)
  {
    hide EntryOk, Confirmed, Answer, History;
    if c.Get? {
      AnswerOk(cfg, at, w, c.tenant, c.visit, span);
    }
  }

  /** Every entry was checked no later than the last call that was made. */
  ghost predicate CheckedBy(w: World, t: real) { forall tenant | tenant in w.cache :: w.cache[tenant].checkedAt <= t }

  lemma {:induction false} CheckedInTime(cfg: Config, at: real -> Store, calls: seq<Call>, span: real, t: real)
    requires Timed(calls, span) && forall c | c in calls && c.Get? :: c.visit.done <= t
    ensures CheckedBy(Run(cfg, at, calls), t)
  {
    if calls != [] {
      var c := calls[|calls| - 1];
      assert c in calls;
      CheckedInTime(cfg, at, calls[..|calls| - 1], span, t);
      hide Fetch, ActiveAt;
    }
  }

  /** In every reachable state a cached published bundle equals the store's document at that version, a packaged one
      equals the fallback, and a confirmed one was in force when its pointer was read. */
  lemma {:induction false} CacheRefinement(cfg: Config, at: real -> Store, calls: seq<Call>, span: real)
    requires History(at) && Timed(calls, span)
    ensures Inv(cfg, at, Run(cfg, at, calls), span)
  {
    hide EntryOk, Confirmed, Answer, History;
    if calls != [] {
      var c := calls[|calls| - 1];
      var before := calls[..|calls| - 1];
      assert c in calls;
      assert forall d | d in before :: d in calls;
      CacheRefinement(cfg, at, before, span);
      if c.Get? {
        CheckedInTime(cfg, at, before, span, c.visit.start);
      }
      NextKeepsInv(cfg, at, Run(cfg, at, before), c, span);
    }
  }

  // ---------------------------------------------------------------------------------------
  // How stale, and what is served while the store is down
  // ---------------------------------------------------------------------------------------

  /** A confirmed answer was in force at some instant less than `refresh_seconds` plus the length of a refresh
      before the call, and no later than its end. */
  lemma {:induction false} Freshness(cfg: Config, at: real -> Store, calls: seq<Call>, tenant: string, v: Visit, span: real)
    requires History(at) && Timed(calls + [Get(tenant, v)], span) && cfg.hasStore
    ensures var s := Answer(cfg, at, Run(cfg, at, calls), tenant, v);
            !s.degraded ==>
              exists t :: InForce(cfg, at(t), Partition(tenant, cfg.bundleId)) == Some(s.bundle)
                       && t <= v.done
                       && (v.start <= t || (cfg.refreshSeconds > 0.0 && v.start - t < cfg.refreshSeconds + span))
  {
    hide EntryOk, InForce, History, ActiveAt, Fetch;
    var c := Get(tenant, v);
    var all := calls + [c];
    assert all[|calls|] == c && c in all;
    assert forall d | d in calls :: d in all;
    assert forall i | 0 <= i < |calls| :: all[i] == calls[i];
    CacheRefinement(cfg, at, calls, span);
    CheckedInTime(cfg, at, calls, span, v.start);
    var w := Run(cfg, at, calls);
    AnswerOk(cfg, at, w, tenant, v, span);
    var s := Answer(cfg, at, w, tenant, v);
    if !s.degraded {
      var read := Next(cfg, at, w, c).readTimes[tenant];
      assert InForce(cfg, at(read), Partition(tenant, cfg.bundleId)) == Some(s.bundle);
    }
  }

  function LastServed(cfg: Config, at: real -> Store, calls: seq<Call>, tenant: string): Option<PolicyState> {
    if calls == [] then None
    else
      var before, c := calls[..|calls| - 1], calls[|calls| - 1];
      if c.Get? && c.tenant == tenant then Some(Answer(cfg, at, Run(cfg, at, before), tenant, c.visit))
      else if c.Invalidate? && (c.tenant_ == None || c.tenant_ == Some(tenant)) then None
      else LastServed(cfg, at, before, tenant)
  }

  lemma {:induction false} CacheIsLastServed(cfg: Config, at: real -> Store, calls: seq<Call>, tenant: string)
    ensures Lookup(Run(cfg, at, calls).cache, tenant) == LastServed(cfg, at, calls, tenant)
  {
    hide Answer;
    if calls != [] {
      CacheIsLastServed(cfg, at, calls[..|calls| - 1], tenant);
    }
  }

  /** Whenever a refresh raises, at the pointer read, at the fetch or at loading the document, what is served is the
      bundle served last since the tenant's last invalidation, and the packaged bundle if there was none; a refresh
      that had to be made is marked as degraded. */
  lemma {:induction false} KeepsLastServed(cfg: Config, at: real -> Store, calls: seq<Call>, tenant: string, v: Visit)
    requires cfg.hasStore
    requires Refresh(cfg, LastServed(cfg, at, calls, tenant), RepliesAt(cfg, at, tenant, v)) == None
    ensures var last := LastServed(cfg, at, calls, tenant);
            var s := Answer(cfg, at, Run(cfg, at, calls), tenant, v);
            if last == None then s == FallbackState(cfg, v.done, true)
            else if Recent(cfg, last, v.start) then s == last.value
            else s == last.value.(checkedAt := v.done, degraded := true)
  {
    hide Fetch, ActiveAt;
    CacheIsLastServed(cfg, at, calls, tenant);
  }

  /** What was served last was served by a call of its own. */
  lemma {:induction false} LastIsAnswer(cfg: Config, at: real -> Store, calls: seq<Call>, tenant: string)
    returns (i: nat, v: Visit)
    requires LastServed(cfg, at, calls, tenant).Some?
    ensures i < |calls| && calls[i] == Get(tenant, v)
    ensures LastServed(cfg, at, calls, tenant) == Some(Answer(cfg, at, Run(cfg, at, calls[..i]), tenant, v))
  {
    hide Answer;
    var n := |calls| - 1;
    if calls[n].Get? && calls[n].tenant == tenant {
      return n, calls[n].visit;
    }
    i, v := LastIsAnswer(cfg, at, calls[..n], tenant);
    assert calls[..n][..i] == calls[..i];
  }

  lemma DegradedKeeps(cfg: Config, at: real -> Store, calls: seq<Call>, tenant: string, v: Visit)
    requires cfg.hasStore && Answer(cfg, at, Run(cfg, at, calls), tenant, v).degraded
    ensures var last := LastServed(cfg, at, calls, tenant);
            Answer(cfg, at, Run(cfg, at, calls), tenant, v).bundle
            == if last == None then cfg.fallback else last.value.bundle
  {
    hide Fetch, ActiveAt;
    CacheIsLastServed(cfg, at, calls, tenant);
  }

  lemma TimedPrefix(calls: seq<Call>, n: nat, span: real)
    requires Timed(calls, span) && n <= |calls|
    ensures Timed(calls[..n], span)
  {
    forall c | c in calls[..n] && c.Get? ensures InOrder(c.visit) && c.visit.done - c.visit.readAt <= span {
      assert c in calls;
    }
  }

  /** However long the store fails: what is served is the packaged bundle, or was in force once before. */
  lemma {:induction false} OnceInForce(cfg: Config, at: real -> Store, calls: seq<Call>, tenant: string, v: Visit,
                                       span: real)
    requires History(at) && Timed(calls + [Get(tenant, v)], span) && cfg.hasStore
    ensures var s := Answer(cfg, at, Run(cfg, at, calls), tenant, v);
            || s.bundle == cfg.fallback
            || exists t :: InForce(cfg, at(t), Partition(tenant, cfg.bundleId)) == Some(s.bundle) && t <= v.done
    decreases |calls|
  {
    hide History, InForce, Answer, Timed;
    var last := LastServed(cfg, at, calls, tenant);
    if !Answer(cfg, at, Run(cfg, at, calls), tenant, v).degraded {
      Freshness(cfg, at, calls, tenant, v, span);
    } else {
      DegradedKeeps(cfg, at, calls, tenant, v);
      if last.Some? {
        var i, u := LastIsAnswer(cfg, at, calls, tenant);
        Earlier(calls, i, tenant, u, v, span);
        OnceInForce(cfg, at, calls[..i], tenant, u, span);
      }
    }
  }

  lemma Earlier(calls: seq<Call>, i: nat, tenant: string, u: Visit, v: Visit, span: real)
    requires Timed(calls + [Get(tenant, v)], span) && i < |calls| && calls[i] == Get(tenant, u)
    ensures Timed(calls[..i] + [Get(tenant, u)], span) && u.done <= v.done
  {
    var all := calls + [Get(tenant, v)];
    assert all[i] == calls[i] && all[|calls|] == Get(tenant, v) && all[|calls|] in all;
    assert all[..i + 1] == calls[..i] + [Get(tenant, u)];
    TimedPrefix(all, i + 1, span);
  }

  // ---------------------------------------------------------------------------------------
  // The bound cannot be lowered to `refresh_seconds`
  // ---------------------------------------------------------------------------------------

  /** One version published, and later activated at time 0. */
  function Switch(before: Store, after: Store): real -> Store { (t: real) => if t <= 0.0 then before else after }

  /** What is served unmarked was in force within `refresh_seconds` before the call, or since. */
  ghost predicate WithinRefresh(cfg: Config, at: real -> Store, calls: seq<Call>, tenant: string, v: Visit) {
    var s := Answer(cfg, at, Run(cfg, at, calls), tenant, v);
    !s.degraded ==>
      exists t :: InForce(cfg, at(t), Partition(tenant, cfg.bundleId)) == Some(s.bundle)
               && (v.start <= t || v.start - t <= cfg.refreshSeconds)
  }

  /** The bound holds for every history and every sequence of calls whose refreshes take at most `span`. */
  ghost predicate AlwaysWithinRefresh(cfg: Config, tenant: string, span: real) {
    forall at, calls, v | History(at) && Timed(calls + [Get(tenant, v)], span) :: WithinRefresh(cfg, at, calls, tenant, v)
  }

  /** A bundle is never staler than `refresh_seconds` exactly when refreshes take no time, or nothing is kept at all:
      for every loader that gives some publishable document a bundle other than the packaged one. */
  lemma {:induction false} StalenessIff(sha: HashChain.Hasher, cfg: Config, tenant: string, span: real, doc: Document,
                                        other: Policy.Bundle)
    requires cfg.hasStore && span >= 0.0
    requires cfg.load(ServedDocument(Canonical(doc), 1)) == Some(other) && other != cfg.fallback
    ensures AlwaysWithinRefresh(cfg, tenant, span) <==> span == 0.0 || cfg.refreshSeconds <= 0.0
  {
    hide History, Timed, WithinRefresh, Answer, InForce;
    if span == 0.0 || cfg.refreshSeconds <= 0.0 {
      forall at, calls, v | History(at) && Timed(calls + [Get(tenant, v)], span)
        ensures WithinRefresh(cfg, at, calls, tenant, v)
      {
        Timely(cfg, at, calls, tenant, v, span);
      }
    } else {
      var at, calls, v := StalenessExceeds(sha, cfg, tenant, span, doc, other);
      assert !WithinRefresh(cfg, at, calls, tenant, v);
    }
  }

  lemma Timely(cfg: Config, at: real -> Store, calls: seq<Call>, tenant: string, v: Visit, span: real)
    requires cfg.hasStore && History(at) && Timed(calls + [Get(tenant, v)], span)
    requires span == 0.0 || cfg.refreshSeconds <= 0.0
    ensures WithinRefresh(cfg, at, calls, tenant, v)
  {
    hide History, InForce, Answer;
    Freshness(cfg, at, calls, tenant, v, span);
  }

  /** However short a refresh, as long as it takes time at all: a bundle can be served that was in force at no instant
      within `refresh_seconds` before the call, or since. */
  lemma StalenessExceeds(sha: HashChain.Hasher, cfg: Config, tenant: string, span: real, doc: Document,
                         other: Policy.Bundle)
    returns (at: real -> Store, calls: seq<Call>, v: Visit)
    requires cfg.hasStore && cfg.refreshSeconds > 0.0 && span > 0.0
    requires cfg.load(ServedDocument(Canonical(doc), 1)) == Some(other) && other != cfg.fallback
    ensures History(at) && Timed(calls + [Get(tenant, v)], span) && !WithinRefresh(cfg, at, calls, tenant, v)
  {
    var before, after := Stores(sha, cfg, tenant, doc, other);
    at := Switch(before, after);
    var d := if span < cfg.refreshSeconds then span else cfg.refreshSeconds;
    var end := cfg.refreshSeconds + d;
    var first := Visit(0.0, 0.0, true, 0.0, true, d);
    v := Visit(cfg.refreshSeconds + d / 2.0, end, true, end, true, end);
    calls := [Get(tenant, first)];
    hide AllOk, Frozen, Fetch, Partition, Answer, History;
    SwitchHistory(before, after);
    InTime(Get(tenant, first), Get(tenant, v), span);
    KeptFallback(cfg, at, tenant, first, v);
    assert forall t | v.start - cfg.refreshSeconds <= t :: at(t) == after;
  }

  lemma SwitchHistory(before: Store, after: Store)
    requires AllOk(before) && AllOk(after)
    requires Frozen(before, after) && Frozen(before, before) && Frozen(after, after)
    ensures History(Switch(before, after))
  {
    hide AllOk, Frozen;
  }

  /** The packaged bundle, once served, is served again while it is recent. */
  lemma KeptFallback(cfg: Config, at: real -> Store, tenant: string, first: Visit, v: Visit)
    requires cfg.hasStore && first.readOk && ActiveAt(at(first.readAt), Partition(tenant, cfg.bundleId)) == None
    requires v.start - first.done < cfg.refreshSeconds
    ensures Answer(cfg, at, Run(cfg, at, [Get(tenant, first)]), tenant, v) == FallbackState(cfg, first.done, false)
  {
    hide Fetch, Partition, ActiveAt;
    assert [Get(tenant, first)][..0] == [];
    assert Run(cfg, at, [Get(tenant, first)]) == Next(cfg, at, START, Get(tenant, first));
  }

  lemma InTime(a: Call, b: Call, span: real)
    requires a.Get? && InOrder(a.visit) && a.visit.done - a.visit.readAt <= span
    requires b.Get? && InOrder(b.visit) && b.visit.done - b.visit.readAt <= span
    requires a.visit.done <= b.visit.start
    ensures Timed([a] + [b], span)
  {
  }

  /** A store with one published version and no active one. */
  lemma OneVersion(sha: HashChain.Hasher, c: PolicyStore.Call) returns (store: Store)
    requires c.Publish?
    ensures AllOk(store) && Count(store, PkOf(c)) == 1
    ensures VersionSlot(PkOf(c), 1) in store && store[VersionSlot(PkOf(c), 1)] == PolicyStore.ToItem(NewVersion(sha, c, 1, ""))
    ensures Key(PkOf(c), ACTIVE_SK) !in store
  {
    var env := Env("", true, true);
    InitInv(sha);
    assert VersionKeys(INIT.store, PkOf(c)) == {};
    StepKeeps(sha, INIT.store, c, Putting(0, 1), env);
    store := StepCall(sha, INIT.store, c, Putting(0, 1), env).0;
    NoPointerAt(PkOf(c), 1);
    hide BundleOk, VersionKeys;
    assert BundleOk(store, PkOf(c));
    PublishExtends(sha, INIT.store, c, 1, "");
  }

  /** What a version just published is served as. */
  lemma FetchesPublished(sha: HashChain.Hasher, cfg: Config, store: Store, c: PolicyStore.Call)
    requires c.Publish? && VersionSlot(PkOf(c), 1) in store
    requires store[VersionSlot(PkOf(c), 1)] == PolicyStore.ToItem(NewVersion(sha, c, 1, ""))
    ensures var served := cfg.load(ServedDocument(Canonical(c.document), 1));
            Fetch(cfg, store, PkOf(c), 1) == if served.Some? then Some((served.value, 1)) else None
  {
    CanonicalRoundTrip(c.document);
    hide Canonical, CanonicalJson, Loads, ServedDocument, FindFirst;
  }

  lemma Stores(sha: HashChain.Hasher, cfg: Config, tenant: string, doc: Document, other: Policy.Bundle)
    returns (before: Store, after: Store)
    requires cfg.load(ServedDocument(Canonical(doc), 1)) == Some(other)
    ensures AllOk(before) && AllOk(after) && Frozen(before, after)
    ensures Frozen(before, before) && Frozen(after, after)
    ensures ActiveAt(before, Partition(tenant, cfg.bundleId)) == None
    ensures InForce(cfg, after, Partition(tenant, cfg.bundleId)) == Some(other)
  {
    var pk := Partition(tenant, cfg.bundleId);
    var publish := Publish(tenant, cfg.bundleId, doc, "", "");
    var activate := Activate(tenant, cfg.bundleId, 1, "");
    var env := Env("", true, true);
    before := OneVersion(sha, publish);
    FetchesPublished(sha, cfg, before, publish);
    hide AllOk, Count, Fetch, VersionSlot, Canonical, ServedDocument;
    StepKeeps(sha, before, activate, Pointing, env);
    after := StepCall(sha, before, activate, Pointing, env).0;
    FetchStable(cfg, before, after, pk, 1);
  }
}
