/** Versioned policy bundles: racing publishers, an active pointer, and what a stored version is served as. */
module PolicyStore {
  import opened Order
  import opened Json
  import opened Slots
  import opened HashChain

  const MAX_PUBLISH_ATTEMPTS: nat := 5
  const VERSION_PREFIX := "VERSION#"
  const ACTIVE_SK := "ACTIVE"
  const POLICY_SEPARATOR := "#POLICY#"

  datatype Key = Key(pk: string, sk: string)

  datatype Item =
    | VersionItem(version: nat, bundleJson: string, contentHash: Digest,
                  publishedAt: string, publishedBy: string, description: string)
    | PointerItem(activeVersion: int, activatedAt: string, activatedBy: string)

  type Store = map<Key, Item>

  function Partition(tenant: string, bundleId: string): string { TENANT_PREFIX + tenant + POLICY_SEPARATOR + bundleId }

  function VersionSlot(pk: string, n: nat): Key { Key(pk, SlotKey(VERSION_PREFIX, n)) }

  /** The sort key `get_version` asks for. Whatever number the caller names, `:012d` has a form for it. */
  function VersionKey(pk: string, v: int): Key {
    if v >= 0 then VersionSlot(pk, v) else Key(pk, VERSION_PREFIX + "-" + ZeroPad(Decimal(-v), WIDTH - 1))
  }

  /** Where a version and the pointer to the active one are stored. */
  lemma StoredUnder(tenant: string, bundleId: string, n: nat)
    requires n < 1_000_000_000_000
    ensures var k := VersionKey(Partition(tenant, bundleId), n);
            && k.pk == "TENANT#" + tenant + "#POLICY#" + bundleId
            && |k.sk| == 8 + 12 && k.sk[..8] == "VERSION#"
            && (forall i | 8 <= i < 20 :: '0' <= k.sk[i] <= '9') && ValueOf(k.sk[8..]) == n
    ensures ACTIVE_SK == "ACTIVE"
  {
    KeyDigits(VERSION_PREFIX, n);
  }

  // ---------------------------------------------------------------------------------------
  // A published bundle, stored and read back
  // ---------------------------------------------------------------------------------------

  datatype PublishedBundle = PublishedBundle(
    tenant: string, bundleId: string, version: nat, document: Json, contentHash: Digest,
    publishedAt: string, publishedBy: string, description: string)

  function ToItem(p: PublishedBundle): Item {
    VersionItem(p.version, CanonicalJson(p.document), p.contentHash, p.publishedAt, p.publishedBy, p.description)
  }

  /** Position of the first occurrence; the length where there is none. */
  function FindFirst(s: string, part: string): (n: nat)
    ensures n <= |s|
  {
    if s == "" || part <= s then 0 else 1 + FindFirst(s[1..], part)
  }

  /** `s.partition(part)`, without the middle. */
  function PartitionAt(s: string, part: string): (string, string) {
    var n := FindFirst(s, part);
    (s[..n], if n + |part| <= |s| then s[n + |part|..] else "")
  }

  /** `from_item`; None where it raises. */
  function FromItem(pk: string, item: Item): Option<PublishedBundle> {
    if item.PointerItem? then None
    else
      var (tenant, bundleId) := PartitionAt(RemovePrefix(pk, TENANT_PREFIX), POLICY_SEPARATOR);
      match Loads(item.bundleJson)
      case None => None
      case Some(document) =>
        Some(PublishedBundle(tenant, bundleId, item.version, document, item.contentHash,
                             item.publishedAt, item.publishedBy, item.description))
  }

  lemma {:induction false} FirstOccurrence(s: string, rest: string, n: nat)
    requires n <= |s|
    ensures FindFirst(s + POLICY_SEPARATOR + rest, POLICY_SEPARATOR) <= |s|
    ensures FindFirst(s + POLICY_SEPARATOR + rest, POLICY_SEPARATOR) == FindFirst(s + POLICY_SEPARATOR, POLICY_SEPARATOR)
  {
    var whole := s + POLICY_SEPARATOR + rest;
    var part := s + POLICY_SEPARATOR;
    assert POLICY_SEPARATOR <= whole <==> POLICY_SEPARATOR <= part by {
      assert whole[..|POLICY_SEPARATOR|] == part[..|POLICY_SEPARATOR|];
    }
    if s != "" {
      assert whole[1..] == s[1..] + POLICY_SEPARATOR + rest && part[1..] == s[1..] + POLICY_SEPARATOR;
      FirstOccurrence(s[1..], rest, 0);
    }
  }

  /** A stored version reads back as it was published, entries in key order, exactly when the partition key splits
      where it was joined: when the tenant's name, joined to the separator, contains it no earlier. */
  lemma {:induction false} VersionRoundTrip(p: PublishedBundle)
    requires WellFormed(p.document)
    ensures FromItem(Partition(p.tenant, p.bundleId), ToItem(p)) == Some(p.(document := Canonical(p.document)))
       <==> FindFirst(p.tenant + POLICY_SEPARATOR, POLICY_SEPARATOR) == |p.tenant|
  {
    hide Loads, CanonicalJson, Canonical, WellFormed, FindFirst;
    var pk := Partition(p.tenant, p.bundleId);
    CanonicalRoundTrip(p.document);
    var body := p.tenant + POLICY_SEPARATOR + p.bundleId;
    assert pk == TENANT_PREFIX + body;
    assert RemovePrefix(pk, TENANT_PREFIX) == body;
    FirstOccurrence(p.tenant, p.bundleId, 0);
    var n := FindFirst(body, POLICY_SEPARATOR);
    if n == |p.tenant| {
      assert body[..n] == p.tenant && body[n + |POLICY_SEPARATOR|..] == p.bundleId;
    } else {
      assert |body[..n]| != |p.tenant|;
    }
  }

  /** A tenant whose name ends the separator early reads back as another. */
  lemma TenantMisread(p: PublishedBundle)
    requires WellFormed(p.document) && p.tenant == "x#POLICY"
    ensures var read := FromItem(Partition(p.tenant, p.bundleId), ToItem(p));
            read != Some(p.(document := Canonical(p.document)))
  {
    var s := p.tenant + POLICY_SEPARATOR;
    assert s[1..] == "#POLICY#POLICY#" && POLICY_SEPARATOR <= s[1..];
    assert s[0] == 'x' && POLICY_SEPARATOR[0] == '#';
    assert FindFirst(s[1..], POLICY_SEPARATOR) == 0;
    assert FindFirst(s, POLICY_SEPARATOR) == 1;
    VersionRoundTrip(p);
  }

  /** `document.get(key, {})` */
  function Section(doc: Json, key: string): Json {
    if doc.Obj? && Get(doc.members, key).Some? then Get(doc.members, key).value else Obj([])
  }

  /** The document `PublishedBundle.bundle` hands to the loader. */
  function ServedDocument(doc: Json, version: nat): Json {
    var metadata := Section(doc, "metadata");
    var stamped := Obj(PutMember(if metadata.Obj? then metadata.members else [], Member("version", Num(Decimal(version)))));
    Obj(PutMember(if doc.Obj? then doc.members else [], Member("metadata", stamped)))
  }

  lemma {:induction false} GetPut(members: seq<Member>, m: Member, key: string)
    ensures Get(PutMember(members, m), key) == if key == m.key then Some(m.value) else Get(members, key)
  {
    if members != [] && members[0].key != m.key {
      GetPut(members[1..], m, key);
    }
  }

  /** Whatever the author wrote, what is served names the store's version number;
      nothing else in the document, and nothing else in its metadata, differs. */
  lemma ServedVersion(doc: Json, version: nat, key: string)
    requires doc.Obj? && (Get(doc.members, "metadata").Some? ==> Get(doc.members, "metadata").value.Obj?)
    ensures var served := ServedDocument(doc, version);
            && Section(served, "metadata").Obj?
            && Get(Section(served, "metadata").members, "version") == Some(Num(Decimal(version)))
            && (key != "version" ==> Get(Section(served, "metadata").members, key) == Get(Section(doc, "metadata").members, key))
            && (key != "metadata" ==> Get(served.members, key) == Get(doc.members, key))
  {
    var metadata := Section(doc, "metadata");
    var version_ := Member("version", Num(Decimal(version)));
    GetPut(metadata.members, version_, "version");
    GetPut(metadata.members, version_, key);
    var stamped := Member("metadata", Obj(PutMember(metadata.members, version_)));
    GetPut(doc.members, stamped, "metadata");
    GetPut(doc.members, stamped, key);
  }

  // ---------------------------------------------------------------------------------------
  // One step of a publish or activate call
  // ---------------------------------------------------------------------------------------

  datatype Call =
    | Publish(tenant: string, bundleId: string, document: Document, actor: string, description: string)
    | Activate(tenant: string, bundleId: string, target: int, actor: string)

  datatype Phase =
    | Reading(attempt: nat)
    | Putting(attempt: nat, version: nat)
    | Published(published: PublishedBundle)
    | Rejected                        // PolicyError: the document does not load
    | Contended                       // PolicyStoreError
    | Checking
    | Pointing
    | Activated
    | NotFound                        // PolicyNotFound
    | Raised                          // any other client error

  predicate Running(p: Phase) { p.Reading? || p.Putting? || p.Checking? || p.Pointing? }

  /** What the surroundings decide: the clock text, whether the service answers, and, for the version lookup that is
      not strongly consistent, whether it shows the latest state. A version once written never changes, so what such
      a lookup finds is right; it may only find nothing. */
  datatype Env = Env(now: string, healthy: bool, current: bool)

  function PkOf(c: Call): string { Partition(c.tenant, c.bundleId) }

  ghost function VersionKeys(store: Store, pk: string): set<string> {
    set k | k in store && k.pk == pk && HasPrefix(k.sk, VERSION_PREFIX) :: k.sk
  }

  ghost function Count(store: Store, pk: string): nat { |VersionKeys(store, pk)| }

  /** `_latest_version` */
  ghost function LatestVersion(store: Store, pk: string): nat {
    match Newest(VersionKeys(store, pk))
    case None => 0
    case Some(sk) =>
      if Key(pk, sk) in store && store[Key(pk, sk)].VersionItem? then store[Key(pk, sk)].version else 0
  }

  function NewVersion(sha: Hasher, c: Call, version: nat, now: string): PublishedBundle
    requires c.Publish?
  {
    PublishedBundle(c.tenant, c.bundleId, version, c.document, sha(CanonicalJson(c.document)), now, c.actor, c.description)
  }

  function Start(loads: Json -> bool, c: Call): Phase {
    if c.Activate? then Checking else if loads(c.document) then Reading(0) else Rejected
  }

  ghost function StepCall(sha: Hasher, store: Store, c: Call, p: Phase, env: Env): (Store, Phase) {
    if !env.healthy && Running(p) then (store, Raised)
    else
      match p
      case Reading(attempt) => (store, Putting(attempt, LatestVersion(store, PkOf(c)) + 1))
      case Putting(attempt, version) =>
        if c.Activate? then (store, p)
        else if VersionSlot(PkOf(c), version) in store then
          (store, if attempt + 1 < MAX_PUBLISH_ATTEMPTS then Reading(attempt + 1) else Contended)
        else
          var published := NewVersion(sha, c, version, env.now);
          (store[VersionSlot(PkOf(c), version) := ToItem(published)], Published(published))
      case Checking =>
        if c.Activate? && env.current && VersionKey(PkOf(c), c.target) in store then (store, Pointing) else (store, NotFound)
      case Pointing =>
        if c.Publish? then (store, p)
        else (store[Key(PkOf(c), ACTIVE_SK) := PointerItem(c.target, env.now, c.actor)], Activated)
      case _ => (store, p)
  }

  // ---------------------------------------------------------------------------------------
  // What every step keeps
  // ---------------------------------------------------------------------------------------

  ghost predicate VersionAt(store: Store, pk: string, n: nat) {
    && VersionSlot(pk, n) in store
    && store[VersionSlot(pk, n)].VersionItem?
    && store[VersionSlot(pk, n)].version == n
    && Loads(store[VersionSlot(pk, n)].bundleJson).Some?
  }

  ghost predicate PointerOk(store: Store, pk: string) {
    Key(pk, ACTIVE_SK) in store ==>
      store[Key(pk, ACTIVE_SK)].PointerItem? && 1 <= store[Key(pk, ACTIVE_SK)].activeVersion <= Count(store, pk)
  }

  /** The versions are exactly 1 to n, and the active pointer names one of them. */
  ghost predicate BundleOk(store: Store, pk: string) {
    && Count(store, pk) <= CAPACITY
    && VersionKeys(store, pk) == SlotKeys(VERSION_PREFIX, Count(store, pk))
    && (forall n: nat | 1 <= n <= Count(store, pk) :: VersionAt(store, pk, n))
    && PointerOk(store, pk)
  }

  ghost predicate AllOk(store: Store) { forall pk :: BundleOk(store, pk) }

  /** No published version changes. */
  ghost predicate Frozen(before: Store, after: Store) {
    forall k | k in before && before[k].VersionItem? :: k in after && after[k] == before[k]
  }

  ghost predicate PhaseOk(sha: Hasher, store: Store, c: Call, p: Phase) {
    match p
    case Putting(_, version) => c.Publish? && 1 <= version <= CAPACITY && version <= Count(store, PkOf(c)) + 1
    case Reading(_) => c.Publish?
    case Pointing => c.Activate? && 1 <= c.target <= Count(store, PkOf(c))
    case Published(b) =>
      && c.Publish?
      && b == NewVersion(sha, c, b.version, b.publishedAt)
      && VersionSlot(PkOf(c), b.version) in store && store[VersionSlot(PkOf(c), b.version)] == ToItem(b)
    case _ => true
  }

  /** A put under a free version slot. */
  lemma PutKeys(store: Store, at: string, n: nat, item: Item, pk: string)
    requires VersionSlot(at, n) !in store
    ensures VersionKeys(store[VersionSlot(at, n) := item], pk)
         == VersionKeys(store, pk) + if pk == at then {SlotKey(VERSION_PREFIX, n)} else {}
  {
    var key := VersionSlot(at, n);
    var after := store[key := item];
    forall sk ensures sk in VersionKeys(after, pk)
                 <==> sk in VersionKeys(store, pk) + if pk == at then {SlotKey(VERSION_PREFIX, n)} else {}
    {
      if sk in VersionKeys(after, pk) {
        var k :| k in after && k.pk == pk && HasPrefix(k.sk, VERSION_PREFIX) && k.sk == sk;
        assert k == key || k in store;
      }
      if sk in VersionKeys(store, pk) {
        var k :| k in store && k.pk == pk && HasPrefix(k.sk, VERSION_PREFIX) && k.sk == sk;
        assert k in after;
      }
      if pk == at && sk == SlotKey(VERSION_PREFIX, n) {
        assert key in after;
      }
    }
  }

  /** A put of a pointer. */
  lemma PointerKeys(store: Store, at: string, item: Item, pk: string)
    ensures VersionKeys(store[Key(at, ACTIVE_SK) := item], pk) == VersionKeys(store, pk)
  {
    var after := store[Key(at, ACTIVE_SK) := item];
    forall sk ensures sk in VersionKeys(after, pk) <==> sk in VersionKeys(store, pk) {
      if sk in VersionKeys(after, pk) {
        var k :| k in after && k.pk == pk && HasPrefix(k.sk, VERSION_PREFIX) && k.sk == sk;
        assert k in store;
      }
      if sk in VersionKeys(store, pk) {
        var k :| k in store && k.pk == pk && HasPrefix(k.sk, VERSION_PREFIX) && k.sk == sk;
        assert k in after;
      }
    }
  }

  /** Version v can be looked up exactly when it is a number of the history. */
  lemma VersionTaken(store: Store, pk: string, v: int)
    requires BundleOk(store, pk)
    ensures VersionKey(pk, v) in store <==> 1 <= v <= Count(store, pk)
  {
    var n := Count(store, pk);
    if VersionKey(pk, v) in store {
      assert VersionKey(pk, v).sk in VersionKeys(store, pk);
      var i: nat :| 1 <= i <= n && VersionKey(pk, v).sk == SlotKey(VERSION_PREFIX, i);
      if v < 0 {
        KeyHasNoSign(i, v);
      } else {
        SlotKeyInjective(VERSION_PREFIX, v, i);
      }
    }
    if 1 <= v <= n {
      assert VersionAt(store, pk, v);
    }
  }

  lemma {:induction false} DecimalDigits(n: nat)
    ensures forall c | c in Decimal(n) :: c != '-'
  {
    if n >= 10 {
      DecimalDigits(n / 10);
    }
  }

  lemma {:induction false} PadDigits(s: string, width: nat)
    requires forall c | c in s :: c != '-'
    ensures forall c | c in ZeroPad(s, width) :: c != '-'
    decreases width - |s|
  {
    if |s| < width {
      PadDigits("0" + s, width);
    }
  }

  lemma KeyHasNoSign(i: nat, v: int)
    requires v < 0
    ensures SlotKey(VERSION_PREFIX, i) != VERSION_PREFIX + "-" + ZeroPad(Decimal(-v), WIDTH - 1)
  {
    var key := VERSION_PREFIX + "-" + ZeroPad(Decimal(-v), WIDTH - 1);
    var digits := ZeroPad(Decimal(i), WIDTH);
    DecimalDigits(i);
    PadDigits(Decimal(i), WIDTH);
    assert key[|VERSION_PREFIX|] == '-';
    if digits != "" {
      assert digits[0] in digits;
      assert SlotKey(VERSION_PREFIX, i)[|VERSION_PREFIX|] == digits[0];
    }
  }

  /** What is read as the next version is at most one past the last, and within the capacity. */
  lemma LatestIsLast(store: Store, pk: string)
    requires BundleOk(store, pk)
    ensures var n := Count(store, pk);
            LatestVersion(store, pk) == if n < CAPACITY then n else n - 1
  {
    var n := Count(store, pk);
    NewestSlot(VERSION_PREFIX, n);
    if n > 0 {
      var top: nat := if n < CAPACITY then n else n - 1;
      assert Newest(VersionKeys(store, pk)) == Some(SlotKey(VERSION_PREFIX, top));
      assert VersionAt(store, pk, top);
    }
  }

  lemma NewVersionAt(sha: Hasher, store: Store, c: Call, version: nat, now: string)
    requires c.Publish?
    ensures VersionAt(store[VersionSlot(PkOf(c), version) := ToItem(NewVersion(sha, c, version, now))], PkOf(c), version)
  {
    CanonicalRoundTrip(c.document);
  }

  lemma NoPointerAt(pk: string, n: nat)
    ensures VersionSlot(pk, n) != Key(pk, ACTIVE_SK)
  {
    assert |SlotKey(VERSION_PREFIX, n)| >= |VERSION_PREFIX|;
  }

  lemma KeysAfterPut(store: Store, pk: string, n: nat, item: Item)
    requires n >= 1 && VersionSlot(pk, n) !in store && VersionKeys(store, pk) == SlotKeys(VERSION_PREFIX, n - 1)
    ensures VersionKeys(store[VersionSlot(pk, n) := item], pk) == SlotKeys(VERSION_PREFIX, n)
    ensures Count(store[VersionSlot(pk, n) := item], pk) == n
  {
    PutKeys(store, pk, n, item, pk);
    hide VersionKeys, SlotKeys, SlotKey, VersionSlot;
    SlotKeysNext(VERSION_PREFIX, n);
    SlotKeysCount(VERSION_PREFIX, n);
  }

  lemma VersionPut(store: Store, pk: string, n: nat, item: Item)
    requires BundleOk(store, pk) && n == Count(store, pk) + 1 <= CAPACITY && VersionSlot(pk, n) !in store
    requires item.VersionItem? && VersionAt(store[VersionSlot(pk, n) := item], pk, n)
    ensures BundleOk(store[VersionSlot(pk, n) := item], pk) && Count(store[VersionSlot(pk, n) := item], pk) == n
  {
    hide VersionAt, VersionKeys, SlotKeys, SlotKey;
    var after := store[VersionSlot(pk, n) := item];
    KeysAfterPut(store, pk, n, item);
    VersionsGrow(store, after, pk, n - 1);
    NoPointerAt(pk, n);
    forall i: nat | 1 <= i <= n ensures VersionAt(after, pk, i) {
      assert i == n || i <= n - 1;
    }
  }

  lemma PublishExtends(sha: Hasher, store: Store, c: Call, version: nat, now: string)
    requires BundleOk(store, PkOf(c)) && c.Publish?
    requires 1 <= version <= CAPACITY && version <= Count(store, PkOf(c)) + 1
    requires VersionSlot(PkOf(c), version) !in store
    ensures var after := store[VersionSlot(PkOf(c), version) := ToItem(NewVersion(sha, c, version, now))];
            version == Count(store, PkOf(c)) + 1 == Count(after, PkOf(c)) && BundleOk(after, PkOf(c))
  {
    VersionTaken(store, PkOf(c), version);
    NewVersionAt(sha, store, c, version, now);
    hide BundleOk, VersionAt;
    VersionPut(store, PkOf(c), version, ToItem(NewVersion(sha, c, version, now)));
  }

  lemma VersionsGrow(before: Store, after: Store, pk: string, n: nat)
    requires Frozen(before, after) && forall i: nat | 1 <= i <= n :: VersionAt(before, pk, i)
    ensures forall i: nat | 1 <= i <= n :: VersionAt(after, pk, i)
  {
    hide SlotKey;
    forall i: nat | 1 <= i <= n ensures VersionAt(after, pk, i) {
      assert VersionAt(before, pk, i);
    }
  }

  lemma PublishElsewhere(store: Store, at: string, version: nat, item: Item, pk: string)
    requires BundleOk(store, pk) && pk != at && VersionSlot(at, version) !in store
    ensures BundleOk(store[VersionSlot(at, version) := item], pk)
    ensures Count(store[VersionSlot(at, version) := item], pk) == Count(store, pk)
  {
    PutKeys(store, at, version, item, pk);
    var after := store[VersionSlot(at, version) := item];
    forall i: nat | 1 <= i <= Count(store, pk) ensures VersionAt(after, pk, i) {
      assert VersionAt(store, pk, i);
    }
  }

  lemma PointKeeps(store: Store, at: string, item: Item, pk: string)
    requires BundleOk(store, pk) && item.PointerItem?
    requires pk == at ==> 1 <= item.activeVersion <= Count(store, pk)
    ensures BundleOk(store[Key(at, ACTIVE_SK) := item], pk)
    ensures Count(store[Key(at, ACTIVE_SK) := item], pk) == Count(store, pk)
  {
    PointerKeys(store, at, item, pk);
    var after := store[Key(at, ACTIVE_SK) := item];
    forall i: nat | 1 <= i <= Count(store, pk) ensures VersionAt(after, pk, i) {
      assert VersionAt(store, pk, i);
    }
  }

  /** The store gained this version, one past the last, or its pointers moved, or nothing happened. */
  ghost predicate Effect(before: Store, c: Call, p: Phase, after: Store, p': Phase) {
    && AllOk(after) && Frozen(before, after)
    && (forall pk :: Count(before, pk) <= Count(after, pk))
    && (forall k | k in after && after[k].VersionItem? && !(k in before && before[k].VersionItem?) ::
          p'.Published? && k == VersionSlot(PkOf(c), p'.published.version))
    && (p'.Published? ==>
          var k := VersionSlot(PkOf(c), p'.published.version);
          k !in before && k in after && after[k].VersionItem?)
    && (!p'.Published? && !p'.Activated? ==> after == before)
  }

  lemma StepKeeps(sha: Hasher, store: Store, c: Call, p: Phase, env: Env)
    requires AllOk(store) && PhaseOk(sha, store, c, p) && Running(p)
    ensures var (after, p') := StepCall(sha, store, c, p, env);
            PhaseOk(sha, after, c, p') && Effect(store, c, p, after, p')
  {
    hide ToItem, VersionKeys, VersionAt, CanonicalJson, Partition, VersionKey;
    var (after, p') := StepCall(sha, store, c, p, env);
    var pk := PkOf(c);
    assert BundleOk(store, pk);
    if p'.Published? {
      var item := ToItem(p'.published);
      ItemOfBundle(p'.published);
      PublishExtends(sha, store, c, p.version, env.now);
      hide BundleOk;
      forall other ensures BundleOk(after, other) && Count(store, other) <= Count(after, other) {
        if other != pk {
          assert BundleOk(store, other);
          PublishElsewhere(store, pk, p.version, item, other);
        }
      }
    } else if p'.Activated? {
      var item := PointerItem(c.target, env.now, c.actor);
      PointerSlotPlain(store, pk);
      hide BundleOk;
      forall other ensures BundleOk(after, other) && Count(store, other) == Count(after, other) {
        assert BundleOk(store, other);
        PointKeeps(store, pk, item, other);
      }
    } else if p.Reading? {
      LatestIsLast(store, pk);
    } else if p.Checking? && c.Activate? {
      VersionTaken(store, pk, c.target);
    }
  }

  lemma ItemOfBundle(b: PublishedBundle)
    ensures ToItem(b).VersionItem? && ToItem(b).version == b.version
  {
  }

  lemma PointerSlotPlain(store: Store, pk: string)
    requires BundleOk(store, pk)
    ensures Key(pk, ACTIVE_SK) in store ==> store[Key(pk, ACTIVE_SK)].PointerItem?
  {
  }

  lemma PhaseOkGrows(sha: Hasher, before: Store, after: Store, c: Call, p: Phase)
    requires PhaseOk(sha, before, c, p) && Frozen(before, after) && Count(before, PkOf(c)) <= Count(after, PkOf(c))
    ensures PhaseOk(sha, after, c, p)
  {
    hide VersionKeys, CanonicalJson, Partition, NewVersion;
  }

  // ---------------------------------------------------------------------------------------
  // Any number of concurrent calls
  // ---------------------------------------------------------------------------------------

  datatype Proc = Proc(call: Call, phase: Phase)

  /** `authors` is history: which call put which version. */
  datatype State = State(store: Store, procs: map<nat, Proc>, authors: map<Key, nat>)

  datatype Event = Begin(id: nat, call: Call) | Step(id: nat, env: Env)

  const INIT: State := State(map[], map[], map[])

  ghost function Next(sha: Hasher, loads: Json -> bool, s: State, e: Event): State {
    match e
    case Begin(id, call) =>
      if id in s.procs then s else s.(procs := s.procs[id := Proc(call, Start(loads, call))])
    case Step(id, env) =>
      if id !in s.procs || !Running(s.procs[id].phase) then s
      else
        var c := s.procs[id].call;
        var (store, p) := StepCall(sha, s.store, c, s.procs[id].phase, env);
        State(store, s.procs[id := Proc(c, p)],
              if p.Published? then s.authors[VersionSlot(PkOf(c), p.published.version) := id] else s.authors)
  }

  ghost function Run(sha: Hasher, loads: Json -> bool, s: State, es: seq<Event>): State
    decreases |es|
  {
    if es == [] then s else Next(sha, loads, Run(sha, loads, s, es[..|es| - 1]), es[|es| - 1])
  }

  ghost predicate Told(s: State, id: nat, k: Key) {
    && id in s.procs && s.procs[id].phase.Published?
    && k == VersionSlot(PkOf(s.procs[id].call), s.procs[id].phase.published.version)
  }

  ghost predicate ProcOk(sha: Hasher, s: State, id: nat)
    requires id in s.procs
  {
    && PhaseOk(sha, s.store, s.procs[id].call, s.procs[id].phase)
    && (forall k | Told(s, id, k) :: k in s.authors && s.authors[k] == id)
  }

  ghost predicate Inv(sha: Hasher, s: State) {
    && AllOk(s.store)
    && (forall id | id in s.procs :: ProcOk(sha, s, id))
    && (forall k | k in s.authors :: k in s.store && s.store[k].VersionItem?)
    && (forall k | k in s.store && s.store[k].VersionItem? :: k in s.authors && Told(s, s.authors[k], k))
  }

  lemma NextKeepsInv(sha: Hasher, loads: Json -> bool, s: State, e: Event)
    requires Inv(sha, s)
    ensures Inv(sha, Next(sha, loads, s, e)) && Frozen(s.store, Next(sha, loads, s, e).store)
  {
    if e.Step? && e.id in s.procs && Running(s.procs[e.id].phase) {
      StepKeepsInv(sha, loads, s, e.id, e.env);
    } else {
      BeginKeepsInv(sha, loads, s, e);
    }
  }

  lemma BeginKeepsInv(sha: Hasher, loads: Json -> bool, s: State, e: Event)
    requires Inv(sha, s)
    requires e.Step? ==> e.id !in s.procs || !Running(s.procs[e.id].phase)
    ensures Inv(sha, Next(sha, loads, s, e)) && Next(sha, loads, s, e).store == s.store
  {
    hide AllOk, PhaseOk, PkOf, ToItem, VersionSlot;
    var s' := Next(sha, loads, s, e);
    if s' != s {
      NewProcOk(sha, s', e.id, loads);
      forall id | id in s'.procs ensures ProcOk(sha, s', id) {
        if id in s.procs {
          SameProcOk(sha, s, s', id);
        }
      }
      hide ProcOk;
      forall k | k in s'.store && s'.store[k].VersionItem? ensures k in s'.authors && Told(s', s'.authors[k], k) {
        assert Told(s, s.authors[k], k);
      }
    }
  }

  lemma NewProcOk(sha: Hasher, s: State, id: nat, loads: Json -> bool)
    requires id in s.procs && s.procs[id].phase == Start(loads, s.procs[id].call)
    ensures ProcOk(sha, s, id)
  {
  }

  lemma SameProcOk(sha: Hasher, s: State, s': State, id: nat)
    requires id in s.procs && ProcOk(sha, s, id) && id in s'.procs && s'.procs[id] == s.procs[id]
    requires s'.store == s.store && s'.authors == s.authors
    ensures ProcOk(sha, s', id)
  {
    hide PhaseOk, PkOf, VersionSlot;
    forall k | Told(s', id, k) ensures k in s'.authors && s'.authors[k] == id {
      assert Told(s, id, k);
    }
  }

  /** Histories after a step. */
  lemma EffectKeepsAuthors(s: State, id: nat, c: Call, p: Phase, s': State, p': Phase)
    requires id in s.procs && s.procs[id] == Proc(c, p) && Running(p) && Effect(s.store, c, p, s'.store, p')
    requires s'.procs == s.procs[id := Proc(c, p')]
    requires s'.authors == if p'.Published? then s.authors[VersionSlot(PkOf(c), p'.published.version) := id] else s.authors
    requires forall k | k in s.authors :: k in s.store && s.store[k].VersionItem?
    requires forall k | k in s.store && s.store[k].VersionItem? :: k in s.authors && Told(s, s.authors[k], k)
    ensures forall k | k in s'.authors :: k in s'.store && s'.store[k].VersionItem?
    ensures forall k | k in s'.store && s'.store[k].VersionItem? :: k in s'.authors && Told(s', s'.authors[k], k)
    ensures forall other, k | other != id && Told(s, other, k) && k in s.authors ::
              k in s'.authors && s'.authors[k] == s.authors[k]
  {
    hide AllOk, Count, PkOf, VersionSlot;
    forall k | k in s'.store && s'.store[k].VersionItem? ensures k in s'.authors && Told(s', s'.authors[k], k) {
      if k in s.store && s.store[k].VersionItem? {
        assert Told(s, s.authors[k], k);
      }
    }
  }

  lemma OtherKeepsProcOk(sha: Hasher, s: State, s': State, other: nat)
    requires other in s.procs && ProcOk(sha, s, other) && other in s'.procs && s'.procs[other] == s.procs[other]
    requires Frozen(s.store, s'.store) && forall pk :: Count(s.store, pk) <= Count(s'.store, pk)
    requires forall k | Told(s, other, k) && k in s.authors :: k in s'.authors && s'.authors[k] == s.authors[k]
    ensures ProcOk(sha, s', other)
  {
    hide Count, PhaseOk, Frozen, VersionSlot;
    PhaseOkGrows(sha, s.store, s'.store, s.procs[other].call, s.procs[other].phase);
    forall k | Told(s', other, k) ensures k in s'.authors && s'.authors[k] == other {
      assert Told(s, other, k);
    }
  }

  lemma StepKeepsInv(sha: Hasher, loads: Json -> bool, s: State, id: nat, env: Env)
    requires Inv(sha, s) && id in s.procs && Running(s.procs[id].phase)
    ensures Inv(sha, Next(sha, loads, s, Step(id, env)))
    ensures Frozen(s.store, Next(sha, loads, s, Step(id, env)).store)
  {
    hide AllOk, Count, PkOf, StepCall, VersionSlot, PhaseOk, Frozen;
    var s' := Next(sha, loads, s, Step(id, env));
    var c := s.procs[id].call;
    assert ProcOk(sha, s, id);
    StepKeeps(sha, s.store, c, s.procs[id].phase, env);
    EffectKeepsAuthors(s, id, c, s.procs[id].phase, s', s'.procs[id].phase);
    forall other | other in s'.procs ensures ProcOk(sha, s', other) {
      if other != id {
        OtherKeepsProcOk(sha, s, s', other);
      }
    }
  }

  lemma {:induction false} RunKeepsInv(sha: Hasher, loads: Json -> bool, s: State, es: seq<Event>)
    requires Inv(sha, s)
    ensures Inv(sha, Run(sha, loads, s, es)) && Frozen(s.store, Run(sha, loads, s, es).store)
    decreases |es|
  {
    hide Inv, Next;
    if es != [] {
      RunKeepsInv(sha, loads, s, es[..|es| - 1]);
      NextKeepsInv(sha, loads, Run(sha, loads, s, es[..|es| - 1]), es[|es| - 1]);
    }
  }

  lemma InitInv(sha: Hasher)
    ensures Inv(sha, INIT)
  {
    forall pk ensures BundleOk(INIT.store, pk) {
      assert VersionKeys(INIT.store, pk) == {};
      assert SlotKeys(VERSION_PREFIX, 0) == {};
    }
  }

  /** What the publisher is told is what it submitted, with the number and the hash that were stored. */
  predicate ToldTruly(c: Call, b: PublishedBundle, item: Item)
    requires c.Publish? && item.VersionItem?
  {
    && b.tenant == c.tenant && b.bundleId == c.bundleId && b.document == c.document && b.publishedBy == c.actor
    && b.description == c.description && b.version == item.version && b.contentHash == item.contentHash
  }

  /** In every interleaving of any number of publish and activate calls: versions are exactly 1 to n, the active
      pointer names one of them, every version is the one some call was told of and no two calls were told of the
      same, and each reads back as the document that call submitted. */
  lemma {:induction false} StoreSafety(sha: Hasher, loads: Json -> bool, es: seq<Event>)
    ensures var s := Run(sha, loads, INIT, es);
            && AllOk(s.store)
            && (forall k | k in s.store && s.store[k].VersionItem? :: exists id :: Told(s, id, k))
            && (forall i, j, k | Told(s, i, k) && Told(s, j, k) :: i == j)
            && (forall id, k | Told(s, id, k) ::
                  && k in s.store && s.store[k].VersionItem?
                  && s.procs[id].call.Publish?
                  && Loads(s.store[k].bundleJson) == Some(Canonical(s.procs[id].call.document))
                  && s.store[k].contentHash == sha(s.store[k].bundleJson)
                  && s.store[k].publishedBy == s.procs[id].call.actor
                  && s.store[k].description == s.procs[id].call.description
                  && s.store[k].publishedAt == s.procs[id].phase.published.publishedAt
                  && ToldTruly(s.procs[id].call, s.procs[id].phase.published, s.store[k]))
  {
    hide AllOk, Canonical, CanonicalJson, PkOf, Count, Loads;
    InitInv(sha);
    RunKeepsInv(sha, loads, INIT, es);
    var s := Run(sha, loads, INIT, es);
    forall i, j, k | Told(s, i, k) && Told(s, j, k) ensures i == j {
      assert ProcOk(sha, s, i) && ProcOk(sha, s, j);
    }
    forall id, k | Told(s, id, k)
      ensures k in s.store && s.store[k].VersionItem? && s.procs[id].call.Publish?
      ensures Loads(s.store[k].bundleJson) == Some(Canonical(s.procs[id].call.document))
      ensures s.store[k].contentHash == sha(s.store[k].bundleJson)
      ensures s.store[k].publishedBy == s.procs[id].call.actor && s.store[k].description == s.procs[id].call.description
      ensures s.store[k].publishedAt == s.procs[id].phase.published.publishedAt
      ensures ToldTruly(s.procs[id].call, s.procs[id].phase.published, s.store[k])
    {
      assert ProcOk(sha, s, id);
      CanonicalRoundTrip(s.procs[id].call.document);
    }
  }

  /** Published versions never change, whatever else runs. */
  lemma {:induction false} VersionsImmutable(sha: Hasher, loads: Json -> bool, es: seq<Event>, fs: seq<Event>)
    ensures Frozen(Run(sha, loads, INIT, es).store, Run(sha, loads, INIT, es + fs).store)
  {
    InitInv(sha);
    RunKeepsInv(sha, loads, INIT, es);
    RunKeepsInv(sha, loads, Run(sha, loads, INIT, es), fs);
    RunConcat(sha, loads, INIT, es, fs);
  }

  lemma {:induction false} RunConcat(sha: Hasher, loads: Json -> bool, s: State, es: seq<Event>, fs: seq<Event>)
    ensures Run(sha, loads, s, es + fs) == Run(sha, loads, Run(sha, loads, s, es), fs)
    decreases |fs|
  {
    hide Next;
    if fs == [] {
      assert es + fs == es;
    } else {
      assert (es + fs)[..|es + fs| - 1] == es + fs[..|fs| - 1];
      RunConcat(sha, loads, s, es, fs[..|fs| - 1]);
    }
  }

  // --- progress --------------------------------------------------------------------------

  function StepsOf(es: seq<Event>, id: nat): nat {
    if es == [] then 0
    else StepsOf(es[..|es| - 1], id) + if es[|es| - 1].Step? && es[|es| - 1].id == id then 1 else 0
  }

  /** No step of this call met an error of the service. */
  predicate Healthy(es: seq<Event>, id: nat) { forall e | e in es && e.Step? && e.id == id :: e.env.healthy }

  /** How far a publish has come that began on `base` versions and has taken so many steps: below capacity every attempt
      behind it is charged to a version published since. */
  ghost predicate PublishOk(store: Store, c: Call, p: Phase, base: nat, steps: nat) {
    var now := Count(store, PkOf(c));
    match p
    case Reading(attempt) =>
      attempt < MAX_PUBLISH_ATTEMPTS && steps == 2 * attempt && (now < CAPACITY ==> base + attempt <= now)
    case Putting(attempt, version) =>
      attempt < MAX_PUBLISH_ATTEMPTS && steps == 2 * attempt + 1 && (now < CAPACITY ==> base + attempt + 1 <= version)
    case Published(b) => now < CAPACITY ==> base + 1 <= b.version
    case Contended => now < CAPACITY ==> base + MAX_PUBLISH_ATTEMPTS <= now
    case Raised => true
    case _ => false
  }

  lemma PublishStays(store: Store, after: Store, c: Call, p: Phase, base: nat, steps: nat)
    requires PublishOk(store, c, p, base, steps) && Count(store, PkOf(c)) <= Count(after, PkOf(c))
    ensures PublishOk(after, c, p, base, steps)
    ensures !Running(p) ==> PublishOk(after, c, p, base, steps + 1)
  {
    hide Count;
  }

  lemma PublishStep(sha: Hasher, store: Store, c: Call, p: Phase, env: Env, base: nat, steps: nat)
    requires AllOk(store) && c.Publish? && PhaseOk(sha, store, c, p) && Running(p)
    requires PublishOk(store, c, p, base, steps)
    ensures var (after, p') := StepCall(sha, store, c, p, env);
            PublishOk(after, c, p', base, steps + 1) && (p'.Raised? <==> !env.healthy)
  {
    hide VersionKeys, VersionAt, CanonicalJson, Partition, VersionSlot, ToItem, PointerOk;
    StepKeeps(sha, store, c, p, env);
    BundlePart(store, PkOf(c));
    hide AllOk, BundleOk;
    if p.Reading? {
      LatestIsLast(store, PkOf(c));
    } else {
      VersionTaken(store, PkOf(c), p.version);
    }
  }

  lemma BundlePart(store: Store, pk: string)
    requires AllOk(store)
    ensures BundleOk(store, pk)
  {
  }

  lemma HealthyFront(es: seq<Event>, id: nat)
    requires es != [] && Healthy(es, id)
    ensures Healthy(es[..|es| - 1], id)
    ensures var e := es[|es| - 1]; e.Step? && e.id == id ==> e.env.healthy
  {
    assert forall f | f in es[..|es| - 1] :: f in es;
    assert es[|es| - 1] in es;
  }

  lemma {:induction false} PublishRuns(sha: Hasher, loads: Json -> bool, s: State, es: seq<Event>, id: nat)
    requires Inv(sha, s) && id in s.procs && s.procs[id].call.Publish? && s.procs[id].phase == Reading(0)
    ensures var s' := Run(sha, loads, s, es);
            var c := s.procs[id].call;
            && id in s'.procs && s'.procs[id].call == c
            && PublishOk(s'.store, c, s'.procs[id].phase, Count(s.store, PkOf(c)), StepsOf(es, id))
            && (Healthy(es, id) ==> !s'.procs[id].phase.Raised?)
    decreases |es|
  {
    if es != [] {
      hide Inv, Next, PublishOk, Count, Healthy, PkOf;
      var front, e := es[..|es| - 1], es[|es| - 1];
      var v := Run(sha, loads, s, front);
      PublishRuns(sha, loads, s, front, id);
      if Healthy(es, id) {
        HealthyFront(es, id);
      }
      RunKeepsInv(sha, loads, s, front);
      PublishNext(sha, loads, v, e, id, Count(s.store, PkOf(s.procs[id].call)), StepsOf(front, id));
    }
  }

  lemma PublishNext(sha: Hasher, loads: Json -> bool, s: State, e: Event, id: nat, base: nat, steps: nat)
    requires Inv(sha, s) && id in s.procs && s.procs[id].call.Publish?
    requires PublishOk(s.store, s.procs[id].call, s.procs[id].phase, base, steps)
    ensures var s' := Next(sha, loads, s, e);
            && id in s'.procs && s'.procs[id].call == s.procs[id].call
            && PublishOk(s'.store, s.procs[id].call, s'.procs[id].phase, base,
                         if e.Step? && e.id == id then steps + 1 else steps)
            && (!s.procs[id].phase.Raised? && s'.procs[id].phase.Raised? ==> e.Step? && e.id == id && !e.env.healthy)
  {
    hide AllOk, PublishOk, Count, StepCall, PhaseOk, Effect, VersionSlot;
    var c, p := s.procs[id].call, s.procs[id].phase;
    var s' := Next(sha, loads, s, e);
    if e.Step? && e.id in s.procs && Running(s.procs[e.id].phase) {
      assert ProcOk(sha, s, e.id);
      if e.id == id {
        PublishStep(sha, s.store, c, p, e.env, base, steps);
      } else {
        StepGrows(sha, s.store, s.procs[e.id].call, s.procs[e.id].phase, e.env, PkOf(c));
        PublishStays(s.store, s'.store, c, p, base, steps);
      }
    } else {
      PublishStays(s.store, s'.store, c, p, base, steps);
    }
  }

  lemma StepGrows(sha: Hasher, store: Store, c: Call, p: Phase, env: Env, pk: string)
    requires AllOk(store) && PhaseOk(sha, store, c, p) && Running(p)
    ensures Count(store, pk) <= Count(StepCall(sha, store, c, p, env).0, pk)
  {
    hide AllOk, Count, StepCall, PhaseOk, VersionSlot;
    StepKeeps(sha, store, c, p, env);
  }

  /** A publish of a document that loads ends within 10 of its own steps; unless the service errs it gets a number past
      all that were there when it began, or, below capacity, fails only because five others did while it ran. A
      document that does not load is rejected at once. */
  lemma {:induction false} PublishProgress(sha: Hasher, loads: Json -> bool, es: seq<Event>, id: nat, c: Call, fs: seq<Event>)
    requires id !in Run(sha, loads, INIT, es).procs && c.Publish? && StepsOf(fs, id) >= 10
    ensures var s := Run(sha, loads, INIT, es);
            var begun := Next(sha, loads, s, Begin(id, c));
            var later := Run(sha, loads, begun, fs);
            var before, now := Count(s.store, PkOf(c)), Count(later.store, PkOf(c));
            && id in begun.procs && id in later.procs
            && (!loads(c.document) ==> begun.procs[id].phase == Rejected)
            && (loads(c.document) ==>
                  var p := later.procs[id].phase;
                  && (p.Published? || p.Contended? || p.Raised?) && (Healthy(fs, id) ==> !p.Raised?)
                  && (p.Published? && now < CAPACITY ==> p.published.version > before)
                  && (p.Contended? && now < CAPACITY ==> now >= before + 5))
  {
    hide Inv, Count, Healthy;
    InitInv(sha);
    RunKeepsInv(sha, loads, INIT, es);
    var s := Run(sha, loads, INIT, es);
    NextKeepsInv(sha, loads, s, Begin(id, c));
    var begun := Next(sha, loads, s, Begin(id, c));
    if loads(c.document) {
      PublishRuns(sha, loads, begun, fs, id);
    } else {
      StaysThere(sha, loads, begun, fs, id);
    }
    hide Run, StepsOf;
  }

  lemma {:induction false} StaysThere(sha: Hasher, loads: Json -> bool, s: State, es: seq<Event>, id: nat)
    requires id in s.procs
    ensures id in Run(sha, loads, s, es).procs
    decreases |es|
  {
    hide StepCall;
    if es != [] {
      StaysThere(sha, loads, s, es[..|es| - 1], id);
    }
  }

  /** Undisturbed, an activation takes effect exactly when the version exists, older or newer alike,
      and otherwise changes nothing; either way the history stays as it was. */
  lemma {:induction false} ActivateExact(sha: Hasher, store: Store, c: Call, now: string)
    requires AllOk(store) && c.Activate?
    ensures var env := Env(now, true, true);
            var (a, p) := StepCall(sha, store, c, Checking, env);
            var (b, q) := StepCall(sha, a, c, p, env);
            if 1 <= c.target <= Count(store, PkOf(c)) then
              q.Activated? && b == store[Key(PkOf(c), ACTIVE_SK) := PointerItem(c.target, now, c.actor)]
            else q.NotFound? && b == store
  {
    assert BundleOk(store, PkOf(c));
    VersionTaken(store, PkOf(c), c.target);
  }

  // ---------------------------------------------------------------------------------------
  // The in-memory repository
  // ---------------------------------------------------------------------------------------

  predicate Numbered(chain: seq<PublishedBundle>) { forall i | 0 <= i < |chain| :: chain[i].version == i + 1 }

  class InMemoryPolicyRepository {
    var versions: map<(string, string), seq<PublishedBundle>>
    var active: map<(string, string), PublishedBundle>

    function Chain(k: (string, string)): seq<PublishedBundle>
      reads this
    {
      if k in versions then versions[k] else []
    }

    /** Versions are numbered 1 to n, and what is active is one of them. */
    ghost predicate Valid()
      reads this
    {
      && (forall k | k in versions :: Numbered(versions[k]))
      && (forall k | k in active :: k in versions && active[k] in versions[k])
    }

    constructor ()
      ensures Valid() && versions == map[] && active == map[]
    {
      versions, active := map[], map[];
    }

    /** The one version with that number; None where the original raises PolicyNotFound. */
    method GetVersion(tenant: string, bundleId: string, version: int) returns (r: Option<PublishedBundle>)
      requires Valid()
      ensures var chain := Chain((tenant, bundleId));
              r == if 1 <= version <= |chain| then Some(chain[version - 1]) else None
    {
      var chain := Chain((tenant, bundleId));
      for n := 0 to |chain|
        invariant !(1 <= version <= n)
      {
        assert chain[n].version == n + 1;
        if chain[n].version == version {
          return Some(chain[n]);
        }
      }
      return None;
    }

    /** The next number; every version before it, and what is active, stays as it was. */
    method Publish(sha: Hasher, loads: Json -> bool, c: Call, now: string) returns (r: Option<PublishedBundle>)
      requires Valid() && c.Publish?
      modifies this`versions
      ensures Valid()
      ensures r == if loads(c.document) then Some(NewVersion(sha, c, |old(Chain((c.tenant, c.bundleId)))| + 1, now)) else None
      ensures versions == if r.None? then old(versions) else
                old(versions)[(c.tenant, c.bundleId) := old(Chain((c.tenant, c.bundleId))) + [r.value]]
    {
      if !loads(c.document) {
        return None;
      }
      var k := (c.tenant, c.bundleId);
      var published := NewVersion(sha, c, |Chain(k)| + 1, now);
      versions := versions[k := Chain(k) + [published]];
      return Some(published);
    }

    /** Takes effect exactly when the version exists. */
    method SetActive(tenant: string, bundleId: string, version: int) returns (ok: bool)
      requires Valid()
      modifies this`active
      ensures Valid()
      ensures ok <==> 1 <= version <= |Chain((tenant, bundleId))|
      ensures active == if ok then old(active)[(tenant, bundleId) := Chain((tenant, bundleId))[version - 1]] else old(active)
    {
      var published := GetVersion(tenant, bundleId, version);
      if published == None {
        return false;
      }
      active := active[(tenant, bundleId) := published.value];
      return true;
    }
  }
}
