/** The audit repository over its table: `_latest`, one attempt of `append`, and what every attempt keeps.
    The table is an atomic map; a put either happens or is refused, and the caller is told which. */
module AuditLog {
  import opened Order
  import opened Json
  import opened Slots
  import opened HashChain

  const MAX_WRITE_ATTEMPTS: nat := 6

  datatype Key = Key(pk: string, sk: string)
  type Log = map<Key, AuditItem>

  function SlotOf(tenant: string, n: nat): Key { Key(TenantKey(tenant), SlotKey(SEQ_PREFIX, n)) }

  /** The sort keys a query with `begins_with(sk, "SEQ#")` sees in the tenant's partition. */
  ghost function SeqKeys(log: Log, tenant: string): set<string> {
    set k | k in log && k.pk == TenantKey(tenant) && HasPrefix(k.sk, SEQ_PREFIX) :: k.sk
  }

  /** `_latest`: the descending query with Limit=1. */
  ghost function Latest(log: Log, tenant: string): Option<AuditItem> {
    match Newest(SeqKeys(log, tenant))
    case None => None
    case Some(sk) => if Key(TenantKey(tenant), sk) in log then Some(log[Key(TenantKey(tenant), sk)]) else None
  }

  ghost function Length(log: Log, tenant: string): nat { |SeqKeys(log, tenant)| }

  // ---------------------------------------------------------------------------------------
  // What is appended
  // ---------------------------------------------------------------------------------------

  /** One record to append. Its builder is called again on every attempt, each time with a new timestamp. */
  datatype RawRequest = Request(tenant: string, decisionId: string, fields: seq<Member>)

  predicate ValidRequest(r: RawRequest) {
    DistinctKeysOf(r.fields)
    && forall m | m in r.fields ::
         m.key != "decision_id" && m.key != "timestamp" && m.key != "tenant_id" && WellFormed(m.value)
  }

  type Request = r: RawRequest | ValidRequest(r) witness Request("", "", [])

  function PayloadMembers(r: Request, timestamp: string): seq<Member> {
    [Member("decision_id", Str(r.decisionId)), Member("timestamp", Str(timestamp)), Member("tenant_id", Str(r.tenant))]
    + r.fields
  }

  function Payload(r: Request, timestamp: string): Json { Obj(PayloadMembers(r, timestamp)) }

  lemma PayloadWellFormed(r: Request, timestamp: string)
    ensures WellFormed(Payload(r, timestamp))
  {
    var ms := PayloadMembers(r, timestamp);
    forall i, j | 0 <= i < j < |ms| ensures ms[i].key != ms[j].key {
      if j >= 3 {
        assert ms[j] == r.fields[j - 3] && r.fields[j - 3] in r.fields;
        if i >= 3 {
          assert ms[i] == r.fields[i - 3];
        }
      }
    }
    forall m | m in ms ensures WellFormed(m.value) {
      var i :| 0 <= i < |ms| && ms[i] == m;
      if i >= 3 {
        assert m == r.fields[i - 3];
      }
    }
  }

  /** The stored record's payload has this entry. */
  ghost predicate RecordSays(item: AuditItem, key: string, value: Json) {
    exists v :: Loads(item.payloadJson) == Some(v) && v.Obj? && Get(v.members, key) == Some(value)
  }

  /** The stored record is the record of this decision. */
  ghost predicate RecordsDecision(item: AuditItem, decisionId: string) { RecordSays(item, "decision_id", Str(decisionId)) }

  /** Every entry of the payload is read back as it was written, dictionaries in key order. */
  lemma StoredField(r: Request, timestamp: string, item: AuditItem, m: Member)
    requires item.payloadJson == CanonicalJson(Payload(r, timestamp))
    requires m in PayloadMembers(r, timestamp)
    ensures Loads(item.payloadJson) == Some(Canonical(Payload(r, timestamp)))
    ensures RecordSays(item, m.key, Canonical(m.value))
  {
    var p := Payload(r, timestamp);
    var ms := PayloadMembers(r, timestamp);
    PayloadWellFormed(r, timestamp);
    CanonicalRoundTrip(p);
    hide CanonicalJson, Loads, WellFormed;
    CanonicalEntry(ms, m);
  }

  lemma CanonicalEntry(ms: seq<Member>, m: Member)
    requires DistinctKeysOf(ms) && m in ms
    ensures Canonical(Obj(ms)).Obj? && Get(Canonical(Obj(ms)).members, m.key) == Some(Canonical(m.value))
  {
    CanonicalDistinct(ms);
    CanonicalMembership(ms, Member(m.key, Canonical(m.value)));
    GetMember(Canonical(Obj(ms)).members, m.key, Canonical(m.value));
  }

  /** The stored record says whose it is, and when it was made, the same outside and inside its payload. */
  ghost predicate RecordsOrigin(item: AuditItem, tenant: string) {
    RecordSays(item, "tenant_id", Str(tenant)) && RecordSays(item, "timestamp", Str(item.timestamp))
  }

  lemma StoredOrigin(r: Request, item: AuditItem)
    requires item.payloadJson == CanonicalJson(Payload(r, item.timestamp))
    ensures RecordsOrigin(item, r.tenant)
  {
    hide RecordSays, CanonicalJson, Loads, Payload;
    var ms := PayloadMembers(r, item.timestamp);
    assert ms[1] == Member("timestamp", Str(item.timestamp)) && ms[2] == Member("tenant_id", Str(r.tenant));
    StoredField(r, item.timestamp, item, ms[1]);
    StoredField(r, item.timestamp, item, ms[2]);
  }

  /** A record says one thing of each entry. */
  lemma SaysOnce(item: AuditItem, key: string, v: Json, w: Json)
    requires RecordSays(item, key, v) && RecordSays(item, key, w)
    ensures v == w
  {
  }

  lemma StoredDecision(r: Request, timestamp: string, item: AuditItem)
    requires item.payloadJson == CanonicalJson(Payload(r, timestamp))
    ensures Loads(item.payloadJson) == Some(Canonical(Payload(r, timestamp)))
    ensures RecordsDecision(item, r.decisionId)
  {
    StoredField(r, timestamp, item, PayloadMembers(r, timestamp)[0]);
  }

  // ---------------------------------------------------------------------------------------
  // One attempt of `append`
  // ---------------------------------------------------------------------------------------

  datatype Writer =
    | Reading(attempt: nat, contended: bool, throttled: bool)
    | Putting(attempt: nat, contended: bool, throttled: bool, latest: Option<AuditItem>)
    | Appended(record: AuditRecord)
    | WriteFailed(contended: bool, throttled: bool)   // AuditWriteError
    | Raised                                          // any other client error

  const START: Writer := Reading(0, false, false)

  predicate Running(w: Writer) { w.Reading? || w.Putting? }

  /** How the table service answers one call. */
  datatype Net = Up | Throttled | Broken

  /** What the surroundings decide: the clock reading used in the payload, the service's answer,
      and whether the deadline has passed when a failed attempt looks at the clock. */
  datatype Env = Env(timestamp: string, net: Net, late: bool)

  function Retry(attempt: nat, contended: bool, throttled: bool, late: bool): Writer {
    if late || attempt + 1 >= MAX_WRITE_ATTEMPTS then WriteFailed(contended, throttled)
    else Reading(attempt + 1, contended, throttled)
  }

  function NextSeq(latest: Option<AuditItem>): nat {
    if latest.Some? then latest.value.seqNo + 1 else 1
  }

  function RecordFor(sha: Hasher, r: Request, latest: Option<AuditItem>, timestamp: string): AuditRecord {
    BuildRecord(sha, r.tenant, NextSeq(latest), if latest.Some? then latest.value.hash else GENESIS_HASH,
                Payload(r, timestamp), timestamp)
  }

  /** The next table operation of a running append. A failed read is not retried. */
  ghost function StepWriter(sha: Hasher, log: Log, r: Request, w: Writer, env: Env): (Log, Writer) {
    match w
    case Reading(attempt, contended, throttled) =>
      if env.net != Up then (log, Raised)
      else (log, Putting(attempt, contended, throttled, Latest(log, r.tenant)))
    case Putting(attempt, contended, throttled, latest) =>
      var record := RecordFor(sha, r, latest, env.timestamp);
      var key := SlotOf(r.tenant, record.seqNo);
      if env.net == Broken then (log, Raised)
      else if env.net == Throttled then (log, Retry(attempt, contended, true, env.late))
      else if key in log then (log, Retry(attempt, true, throttled, env.late))
      else (log[key := ToItem(record)], Appended(record))
    case _ => (log, w)
  }

  // ---------------------------------------------------------------------------------------
  // The chain invariant, and that every step keeps it
  // ---------------------------------------------------------------------------------------

  ghost predicate LinkedItem(sha: Hasher, log: Log, tenant: string, n: nat)
    requires n >= 1
  {
    && SlotOf(tenant, n) in log
    && var item := log[SlotOf(tenant, n)];
    && item.pk == TenantKey(tenant) && item.sk == SlotKey(SEQ_PREFIX, n) && item.seqNo == n
    && item.hash == sha(item.prevHash + item.payloadJson)
    && Loads(item.payloadJson).Some? && CanonicalJson(Loads(item.payloadJson).value) == item.payloadJson
    && if n == 1 then item.prevHash == GENESIS_HASH
       else SlotOf(tenant, n - 1) in log && item.prevHash == log[SlotOf(tenant, n - 1)].hash
  }

  /** The tenant's records are numbered 1 to n without a gap and each is linked to the one before. */
  ghost predicate ChainOk(sha: Hasher, log: Log, tenant: string) {
    && Length(log, tenant) <= CAPACITY
    && SeqKeys(log, tenant) == SlotKeys(SEQ_PREFIX, Length(log, tenant))
    && forall n: nat | 1 <= n <= Length(log, tenant) :: LinkedItem(sha, log, tenant, n)
  }

  /** What a writer between its read and its put has read is still in the table. */
  ghost predicate ReadOk(log: Log, tenant: string, latest: Option<AuditItem>) {
    latest.Some? ==>
      && 1 <= latest.value.seqNo < CAPACITY
      && SlotOf(tenant, latest.value.seqNo) in log
      && log[SlotOf(tenant, latest.value.seqNo)] == latest.value
  }

  function KeyOfRecord(record: AuditRecord): Key {
    SlotOf(record.tenantId, if record.seqNo >= 0 then record.seqNo else 0)
  }

  /** The table holds this record, in its place. */
  ghost predicate Stored(log: Log, record: AuditRecord) {
    record.seqNo >= 1 && KeyOfRecord(record) in log && log[KeyOfRecord(record)] == ToItem(record)
  }

  ghost predicate WriterOk(sha: Hasher, log: Log, r: Request, w: Writer) {
    match w
    case Putting(_, _, _, latest) => ReadOk(log, r.tenant, latest)
    case Appended(record) =>
      && record.tenantId == r.tenant && Stored(log, record)
      && record.payload == Payload(r, record.timestamp)
      && RecordsDecision(ToItem(record), r.decisionId)
    case _ => true
  }

  /** No stored record changes. */
  ghost predicate Grows(before: Log, after: Log) {
    forall k | k in before :: k in after && after[k] == before[k]
  }

  lemma SlotPrefix(n: nat)
    ensures HasPrefix(SlotKey(SEQ_PREFIX, n), SEQ_PREFIX)
  {
  }

  lemma TenantKeyInjective(a: string, b: string)
    requires TenantKey(a) == TenantKey(b)
    ensures a == b
  {
    assert TenantKey(a)[|TENANT_PREFIX|..] == a && TenantKey(b)[|TENANT_PREFIX|..] == b;
  }

  /** In a chain, slot m is taken exactly when m is a number of the chain. */
  lemma SlotTaken(sha: Hasher, log: Log, tenant: string, m: nat)
    requires ChainOk(sha, log, tenant) && 1 <= m <= CAPACITY
    ensures SlotOf(tenant, m) in log <==> m <= Length(log, tenant)
  {
    var n := Length(log, tenant);
    SlotPrefix(m);
    if SlotOf(tenant, m) in log {
      assert SlotOf(tenant, m).sk in SeqKeys(log, tenant);
      var i: nat :| 1 <= i <= n && SlotKey(SEQ_PREFIX, m) == SlotKey(SEQ_PREFIX, i);
      SlotKeyInjective(SEQ_PREFIX, m, i);
    }
    assert m <= n ==> LinkedItem(sha, log, tenant, m);
  }

  /** `_latest` returns the last record, except that a chain at capacity hides it behind the one before. */
  lemma LatestIsLast(sha: Hasher, log: Log, tenant: string)
    requires ChainOk(sha, log, tenant)
    ensures var n := Length(log, tenant);
            if n == 0 then Latest(log, tenant) == None
            else var m := if n < CAPACITY then n else n - 1;
                 SlotOf(tenant, m) in log && Latest(log, tenant) == Some(log[SlotOf(tenant, m)])
                 && log[SlotOf(tenant, m)].seqNo == m
    ensures ReadOk(log, tenant, Latest(log, tenant))
  {
    var n := Length(log, tenant);
    NewestSlot(SEQ_PREFIX, n);
    if n > 0 {
      var m := if n < CAPACITY then n else n - 1;
      assert LinkedItem(sha, log, tenant, m);
    }
  }

  /** Adding an item under a key that was free leaves every other partition's keys as they were. */
  lemma PutKeys(log: Log, r: Request, n: nat, item: AuditItem, tenant: string)
    requires SlotOf(r.tenant, n) !in log
    ensures SeqKeys(log[SlotOf(r.tenant, n) := item], tenant)
         == SeqKeys(log, tenant) + if tenant == r.tenant then {SlotKey(SEQ_PREFIX, n)} else {}
  {
    SlotPrefix(n);
    var key := SlotOf(r.tenant, n);
    var after := log[key := item];
    if TenantKey(tenant) == TenantKey(r.tenant) {
      TenantKeyInjective(tenant, r.tenant);
    }
    forall sk ensures sk in SeqKeys(after, tenant)
                 <==> sk in SeqKeys(log, tenant) + if tenant == r.tenant then {SlotKey(SEQ_PREFIX, n)} else {}
    {
      if sk in SeqKeys(after, tenant) {
        var k :| k in after && k.pk == TenantKey(tenant) && HasPrefix(k.sk, SEQ_PREFIX) && k.sk == sk;
        assert k == key || k in log;
      }
      if sk in SeqKeys(log, tenant) {
        var k :| k in log && k.pk == TenantKey(tenant) && HasPrefix(k.sk, SEQ_PREFIX) && k.sk == sk;
        assert k in after;
      }
      if tenant == r.tenant && sk == SlotKey(SEQ_PREFIX, n) {
        assert key in after;
      }
    }
  }

  lemma LinkedItemGrows(sha: Hasher, before: Log, after: Log, tenant: string, n: nat)
    requires n >= 1 && LinkedItem(sha, before, tenant, n) && Grows(before, after)
    ensures LinkedItem(sha, after, tenant, n)
  {
  }

  lemma ReadOkGrows(before: Log, after: Log, tenant: string, latest: Option<AuditItem>)
    requires ReadOk(before, tenant, latest) && Grows(before, after)
    ensures ReadOk(after, tenant, latest)
  {
  }

  lemma WriterOkGrows(sha: Hasher, before: Log, after: Log, r: Request, w: Writer)
    requires WriterOk(sha, before, r, w) && Grows(before, after)
    ensures WriterOk(sha, after, r, w)
  {
    if w.Putting? {
      ReadOkGrows(before, after, r.tenant, w.latest);
    }
  }

  /** A free slot right behind a record of the chain is the slot right behind its last record. */
  lemma FreeSlotIsNext(sha: Hasher, log: Log, tenant: string, latest: Option<AuditItem>)
    requires ChainOk(sha, log, tenant) && ReadOk(log, tenant, latest)
    requires SlotOf(tenant, NextSeq(latest)) !in log
    ensures NextSeq(latest) == Length(log, tenant) + 1 <= CAPACITY
  {
    SlotTaken(sha, log, tenant, NextSeq(latest));
    if latest.Some? {
      SlotTaken(sha, log, tenant, latest.value.seqNo);
    }
  }

  /** On a full chain no append succeeds any more, whatever its writer has read and however the service answers. */
  lemma FullChainRefuses(sha: Hasher, log: Log, r: Request, w: Writer, env: Env)
    requires ChainOk(sha, log, r.tenant) && WriterOk(sha, log, r, w) && Length(log, r.tenant) == CAPACITY
    ensures !w.Appended? ==> !StepWriter(sha, log, r, w, env).1.Appended? && StepWriter(sha, log, r, w, env).0 == log
  {
    hide ChainOk, Payload, ToItem, RecordsDecision;
    if w.Putting? && SlotOf(r.tenant, NextSeq(w.latest)) !in log {
      FreeSlotIsNext(sha, log, r.tenant, w.latest);
    }
  }

  /** The record built on what was read is correctly linked where it is put. */
  lemma NewItemLinked(sha: Hasher, log: Log, r: Request, latest: Option<AuditItem>, timestamp: string)
    requires ReadOk(log, r.tenant, latest) && SlotOf(r.tenant, NextSeq(latest)) !in log
    ensures var record := RecordFor(sha, r, latest, timestamp);
            LinkedItem(sha, log[SlotOf(r.tenant, record.seqNo) := ToItem(record)], r.tenant, record.seqNo)
            && RecordsDecision(ToItem(record), r.decisionId)
  {
    hide RecordsDecision, Loads, CanonicalJson, Canonical, WellFormed, PayloadMembers, Payload;
    var payload := Payload(r, timestamp);
    PayloadWellFormed(r, timestamp);
    CanonicalRoundTrip(payload);
    StoredDecision(r, timestamp, ToItem(RecordFor(sha, r, latest, timestamp)));
  }

  /** A put into a free slot extends the chain by exactly the next number, correctly linked,
      however many records others appended since the read. */
  lemma PutExtends(sha: Hasher, log: Log, r: Request, latest: Option<AuditItem>, timestamp: string)
    requires ChainOk(sha, log, r.tenant) && ReadOk(log, r.tenant, latest)
    requires SlotOf(r.tenant, NextSeq(latest)) !in log
    ensures var record := RecordFor(sha, r, latest, timestamp);
            var after := log[SlotOf(r.tenant, record.seqNo) := ToItem(record)];
            ChainOk(sha, after, r.tenant)
            && Length(log, r.tenant) + 1 == Length(after, r.tenant) == record.seqNo
            && RecordsDecision(ToItem(record), r.decisionId)
  {
    var m := NextSeq(latest);
    var item := ToItem(RecordFor(sha, r, latest, timestamp));
    FreeSlotIsNext(sha, log, r.tenant, latest);
    NewItemLinked(sha, log, r, latest, timestamp);
    ChainGrowsByOne(sha, log, r, item, m);
  }

  lemma ChainGrowsByOne(sha: Hasher, log: Log, r: Request, item: AuditItem, m: nat)
    requires ChainOk(sha, log, r.tenant) && m == Length(log, r.tenant) + 1 <= CAPACITY
    requires SlotOf(r.tenant, m) !in log
    requires LinkedItem(sha, log[SlotOf(r.tenant, m) := item], r.tenant, m)
    ensures ChainOk(sha, log[SlotOf(r.tenant, m) := item], r.tenant)
    ensures Length(log[SlotOf(r.tenant, m) := item], r.tenant) == m
  {
    var after := log[SlotOf(r.tenant, m) := item];
    PutKeys(log, r, m, item, r.tenant);
    SlotKeysNext(SEQ_PREFIX, m);
    SlotKeysCount(SEQ_PREFIX, m);
    hide LinkedItem;
    LinksGrow(sha, log, after, r.tenant, m - 1);
    assert Length(after, r.tenant) == m;
    assert SeqKeys(after, r.tenant) == SlotKeys(SEQ_PREFIX, m);
    forall i: nat | 1 <= i <= m ensures LinkedItem(sha, after, r.tenant, i) {
      assert i == m || i <= m - 1;
    }
  }

  lemma LinksGrow(sha: Hasher, before: Log, after: Log, tenant: string, n: nat)
    requires (forall i: nat | 1 <= i <= n :: LinkedItem(sha, before, tenant, i)) && Grows(before, after)
    ensures forall i: nat | 1 <= i <= n :: LinkedItem(sha, after, tenant, i)
  {
    forall i: nat | 1 <= i <= n ensures LinkedItem(sha, after, tenant, i) {
      LinkedItemGrows(sha, before, after, tenant, i);
    }
  }

  /** A put elsewhere leaves a tenant's chain alone. */
  lemma PutElsewhere(sha: Hasher, log: Log, r: Request, n: nat, item: AuditItem, tenant: string)
    requires ChainOk(sha, log, tenant) && tenant != r.tenant && SlotOf(r.tenant, n) !in log
    ensures ChainOk(sha, log[SlotOf(r.tenant, n) := item], tenant)
    ensures Length(log[SlotOf(r.tenant, n) := item], tenant) == Length(log, tenant)
  {
    var after := log[SlotOf(r.tenant, n) := item];
    PutKeys(log, r, n, item, tenant);
    LinksGrow(sha, log, after, tenant, Length(log, tenant));
  }

  ghost predicate AllChainsOk(sha: Hasher, log: Log) { forall tenant :: ChainOk(sha, log, tenant) }

  /** The table gained exactly this record, at the end of its tenant's chain. */
  ghost predicate Gained(before: Log, after: Log, record: AuditRecord) {
    && record.seqNo >= 1
    && KeyOfRecord(record) !in before
    && after == before[KeyOfRecord(record) := ToItem(record)]
    && Length(before, record.tenantId) + 1 == Length(after, record.tenantId) == record.seqNo
    && forall tenant | tenant != record.tenantId :: Length(after, tenant) == Length(before, tenant)
  }

  lemma PutGains(sha: Hasher, log: Log, r: Request, latest: Option<AuditItem>, timestamp: string)
    requires AllChainsOk(sha, log) && ReadOk(log, r.tenant, latest)
    requires SlotOf(r.tenant, NextSeq(latest)) !in log
    ensures var record := RecordFor(sha, r, latest, timestamp);
            var after := log[SlotOf(r.tenant, record.seqNo) := ToItem(record)];
            AllChainsOk(sha, after) && Gained(log, after, record) && RecordsDecision(ToItem(record), r.decisionId)
  {
    hide RecordsDecision, LinkedItem;
    var record := RecordFor(sha, r, latest, timestamp);
    var after := log[SlotOf(r.tenant, record.seqNo) := ToItem(record)];
    PutExtends(sha, log, r, latest, timestamp);
    forall tenant ensures ChainOk(sha, after, tenant)
                       && (tenant != r.tenant ==> Length(after, tenant) == Length(log, tenant))
    {
      if tenant != r.tenant {
        PutElsewhere(sha, log, r, record.seqNo, ToItem(record), tenant);
      }
    }
  }

  /** One step of one writer keeps every tenant's chain, changes no stored record, and either leaves the
      table as it was or completes the append with the one record it added. */
  lemma StepKeepsChain(sha: Hasher, log: Log, r: Request, w: Writer, env: Env)
    requires AllChainsOk(sha, log) && WriterOk(sha, log, r, w)
    ensures var (after, next) := StepWriter(sha, log, r, w, env);
            && AllChainsOk(sha, after) && WriterOk(sha, after, r, next) && Grows(log, after)
            && if next.Appended? && !w.Appended? then Gained(log, after, next.record) else after == log
  {
    hide ChainOk, RecordsDecision, Payload, ToItem, SlotKey;
    if w.Reading? && env.net == Up {
      assert ChainOk(sha, log, r.tenant);
      LatestIsLast(sha, log, r.tenant);
    } else if w.Putting? && StepWriter(sha, log, r, w, env).1.Appended? {
      PutGains(sha, log, r, w.latest, env.timestamp);
    }
  }
}
