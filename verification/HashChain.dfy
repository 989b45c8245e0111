/** Audit records, their hash links, and the verifier that walks them. */
module HashChain {
  import opened Order
  import opened Json
  import opened Slots

  const DIGEST_LENGTH: nat := 64

  /** `c * n` */
  function Repeat(c: char, n: nat): (s: string)
    ensures |s| == n
  {
    if n == 0 then "" else [c] + Repeat(c, n - 1)
  }

  /** What `sha256(...).hexdigest()` returns: a text of fixed length. Nothing else is known of the hash. */
  type Digest = s: string | |s| == DIGEST_LENGTH
    witness Repeat('0', DIGEST_LENGTH)
  type Hasher = string -> Digest

  const GENESIS_HASH: Digest := Repeat('0', DIGEST_LENGTH)

  datatype AuditRecord = AuditRecord(
    tenantId: string, seqNo: int, timestamp: string, payload: Json, prevHash: string, hash: string)

  lemma {:induction false} RepeatAt(c: char, n: nat)
    ensures forall i | 0 <= i < n :: Repeat(c, n)[i] == c
  {
    if n > 0 {
      RepeatAt(c, n - 1);
    }
  }

  /** The hash before the first: 64 zeros. */
  lemma Genesis()
    ensures |GENESIS_HASH| == 64 && forall i | 0 <= i < 64 :: GENESIS_HASH[i] == '0'
  {
    RepeatAt('0', 64);
  }

  function Material(prevHash: string, payload: Json): string { prevHash + CanonicalJson(payload) }

  function ComputeHash(sha: Hasher, prevHash: string, payload: Json): Digest { sha(Material(prevHash, payload)) }

  /** `AuditRecord.build`, for a payload already assembled. */
  function BuildRecord(sha: Hasher, tenant: string, seqNo: nat, prevHash: string, payload: Json, timestamp: string): AuditRecord {
    AuditRecord(tenant, seqNo, timestamp, payload, prevHash, ComputeHash(sha, prevHash, payload))
  }

  // ---------------------------------------------------------------------------------------
  // Storage form
  // ---------------------------------------------------------------------------------------

  /** The attributes of a stored record; the payload is kept as the text that was hashed. */
  datatype AuditItem = AuditItem(pk: string, sk: string, seqNo: nat, timestamp: string,
                                 prevHash: string, hash: string, payloadJson: string)

  const TENANT_PREFIX := "TENANT#"
  const SEQ_PREFIX := "SEQ#"

  function TenantKey(tenant: string): string { TENANT_PREFIX + tenant }

  function ToItem(r: AuditRecord): AuditItem
    requires r.seqNo >= 0
  {
    AuditItem(TenantKey(r.tenantId), SlotKey(SEQ_PREFIX, r.seqNo), r.seqNo, r.timestamp,
              r.prevHash, r.hash, CanonicalJson(r.payload))
  }

  /** Where a record is stored, and what of it: under its tenant and its number in twelve digits, with the text that
      was hashed behind the hash before it. */
  lemma StoredUnder(sha: Hasher, tenant: string, seqNo: nat, prevHash: string, payload: Json, timestamp: string)
    requires seqNo < 1_000_000_000_000
    ensures var item := ToItem(BuildRecord(sha, tenant, seqNo, prevHash, payload, timestamp));
            && item.pk == "TENANT#" + tenant && |item.sk| == 4 + 12 && item.sk[..4] == "SEQ#"
            && (forall i | 4 <= i < 16 :: '0' <= item.sk[i] <= '9') && ValueOf(item.sk[4..]) == seqNo
            && item.seqNo == seqNo && item.timestamp == timestamp && item.prevHash == prevHash
            && item.payloadJson == CanonicalJson(payload) && item.hash == sha(prevHash + item.payloadJson)
  {
    hide CanonicalJson;
    KeyDigits(SEQ_PREFIX, seqNo);
  }

  function RemovePrefix(s: string, prefix: string): string {
    if HasPrefix(s, prefix) then s[|prefix|..] else s
  }

  /** None where json.loads raises. */
  function FromItem(item: AuditItem): Option<AuditRecord> {
    match Loads(item.payloadJson)
    case None => None
    case Some(payload) =>
      Some(AuditRecord(RemovePrefix(item.pk, TENANT_PREFIX), item.seqNo, item.timestamp, payload, item.prevHash, item.hash))
  }

  /** A record read back differs from the one stored in nothing but the entry order of its payload,
      so its hash is recomputed exactly: storage raises no false alarm. */
  lemma ItemRoundTrip(sha: Hasher, r: AuditRecord)
    requires r.seqNo >= 0 && WellFormed(r.payload)
    ensures FromItem(ToItem(r)) == Some(r.(payload := Canonical(r.payload)))
    ensures SameDocument(Canonical(r.payload), r.payload)
    ensures ComputeHash(sha, r.prevHash, Canonical(r.payload)) == ComputeHash(sha, r.prevHash, r.payload)
  {
    CanonicalRoundTrip(r.payload);
    assert TenantKey(r.tenantId)[|TENANT_PREFIX|..] == r.tenantId;
  }

  // ---------------------------------------------------------------------------------------
  // The verifier
  // ---------------------------------------------------------------------------------------

  datatype Reason = SequenceGap(previous: int) | BrokenLink | ContentMismatch

  datatype ChainVerification = ChainVerification(
    chainValid: bool, recordsChecked: nat, tenantId: string, brokenAtSeq: Option<int>, reason: Option<Reason>)

  /** The hash the record at position i has to name as its predecessor's. A window that does not
      start at seq 1 is taken at its word. */
  function ExpectedPrev(records: seq<AuditRecord>, i: nat): string
    requires i < |records|
  {
    if i > 0 then records[i - 1].hash
    else if records[0].seqNo == 1 then GENESIS_HASH
    else records[0].prevHash
  }

  predicate GapAt(records: seq<AuditRecord>, i: nat)
    requires i < |records|
  {
    i > 0 && records[i].seqNo != records[i - 1].seqNo + 1
  }

  predicate LinkedAt(records: seq<AuditRecord>, i: nat)
    requires i < |records|
  {
    records[i].prevHash == ExpectedPrev(records, i)
  }

  predicate IntactAt(sha: Hasher, records: seq<AuditRecord>, i: nat)
    requires i < |records|
  {
    ComputeHash(sha, records[i].prevHash, records[i].payload) == records[i].hash
  }

  predicate SoundAt(sha: Hasher, records: seq<AuditRecord>, i: nat)
    requires i < |records|
  {
    !GapAt(records, i) && LinkedAt(records, i) && IntactAt(sha, records, i)
  }

  /** Every record follows its predecessor in number, names its hash, and hashes to its own. */
  predicate Accepted(sha: Hasher, records: seq<AuditRecord>) {
    forall i | 0 <= i < |records| :: SoundAt(sha, records, i)
  }

  /** Why the record at position i is not sound: a gap before a broken link before a changed content. */
  predicate Explains(sha: Hasher, records: seq<AuditRecord>, i: nat, reason: Reason)
    requires i < |records|
  {
    match reason
    case SequenceGap(previous) => GapAt(records, i) && previous == records[i - 1].seqNo
    case BrokenLink => !GapAt(records, i) && !LinkedAt(records, i)
    case ContentMismatch => !GapAt(records, i) && LinkedAt(records, i) && !IntactAt(sha, records, i)
  }

  /** The record at position i is the first unsound one, and `reason` says why. */
  predicate FirstFault(sha: Hasher, records: seq<AuditRecord>, i: nat, reason: Reason) {
    i < |records| && Accepted(sha, records[..i]) && !SoundAt(sha, records, i) && Explains(sha, records, i, reason)
  }

  lemma FaultRejects(sha: Hasher, records: seq<AuditRecord>, i: nat, reason: Reason)
    requires i < |records| && Explains(sha, records, i, reason)
    requires forall j | 0 <= j < i :: SoundAt(sha, records, j)
    ensures FirstFault(sha, records, i, reason) && !Accepted(sha, records)
  {
    PrefixAccepted(sha, records, i);
    assert !SoundAt(sha, records, i);
  }

  /** `verify_records`: accepts exactly the sound runs, and otherwise reports the first unsound record and why. */
  method VerifyRecords(sha: Hasher, records: seq<AuditRecord>) returns (v: ChainVerification)
    ensures v.chainValid <==> Accepted(sha, records)
    ensures v.recordsChecked == |records|
    ensures v.tenantId == if records == [] then "unknown" else records[0].tenantId
    ensures v.chainValid ==> v.brokenAtSeq == None && v.reason == None
    ensures !v.chainValid ==>
      v.reason.Some?
      && exists i: nat :: FirstFault(sha, records, i, v.reason.value) && v.brokenAtSeq == Some(records[i].seqNo)
  {
    hide CanonicalJson, ComputeHash, FirstFault;
    var tenant := if records == [] then "unknown" else records[0].tenantId;
    if records == [] {
      return ChainVerification(true, 0, tenant, None, None);
    }
    var expectedPrev := if records[0].seqNo == 1 then GENESIS_HASH else records[0].prevHash;
    var previousSeq: Option<int> := None;
    for n := 0 to |records|
      invariant forall j | 0 <= j < n :: SoundAt(sha, records, j)
      invariant expectedPrev == if n < |records| then ExpectedPrev(records, n) else records[n - 1].hash
      invariant previousSeq == if n == 0 then None else Some(records[n - 1].seqNo)
    {
      var record := records[n];
      if previousSeq.Some? && record.seqNo != previousSeq.value + 1 {
        FaultRejects(sha, records, n, SequenceGap(previousSeq.value));
        return ChainVerification(false, |records|, tenant, Some(record.seqNo), Some(SequenceGap(previousSeq.value)));
      }
      if record.prevHash != expectedPrev {
        FaultRejects(sha, records, n, BrokenLink);
        return ChainVerification(false, |records|, tenant, Some(record.seqNo), Some(BrokenLink));
      }
      if ComputeHash(sha, record.prevHash, record.payload) != record.hash {
        FaultRejects(sha, records, n, ContentMismatch);
        return ChainVerification(false, |records|, tenant, Some(record.seqNo), Some(ContentMismatch));
      }
      expectedPrev := record.hash;
      previousSeq := Some(record.seqNo);
    }
    return ChainVerification(true, |records|, tenant, None, None);
  }

  /** A run cut short at its end is still accepted: only a known head hash shows the cut. */
  lemma PrefixAccepted(sha: Hasher, records: seq<AuditRecord>, n: nat)
    requires n <= |records|
    requires forall j | 0 <= j < n :: SoundAt(sha, records, j)
    ensures Accepted(sha, records[..n])
  {
    forall j | 0 <= j < n ensures SoundAt(sha, records[..n], j) {
      assert SoundAt(sha, records, j);
    }
  }

  // ---------------------------------------------------------------------------------------
  // Tamper evidence, as a reduction to breaking the hash
  // ---------------------------------------------------------------------------------------

  datatype Break = Collision(x: string, y: string) | GenesisPreimage(x: string)

  predicate Exhibits(sha: Hasher, b: Break) {
    match b
    case Collision(x, y) => x != y && sha(x) == sha(y)
    case GenesisPreimage(x) => sha(x) == GENESIS_HASH
  }

  /** A whole chain, as opposed to a window into one. */
  predicate FromGenesis(records: seq<AuditRecord>) { records != [] ==> records[0].seqNo == 1 }

  /** The hash an outsider has to know to notice that records were dropped from the end. */
  function HeadHash(records: seq<AuditRecord>): string {
    if records == [] then GENESIS_HASH else records[|records| - 1].hash
  }

  function MaterialOf(r: AuditRecord): string { Material(r.prevHash, r.payload) }

  /** Compares two chains from their ends; the first difference in what was hashed breaks the hash. */
  function FindBreak(a: seq<AuditRecord>, b: seq<AuditRecord>): Option<Break>
    decreases |a| + |b|
  {
    if a == [] && b == [] then None
    else if a == [] then Some(GenesisPreimage(MaterialOf(b[|b| - 1])))
    else if b == [] then Some(GenesisPreimage(MaterialOf(a[|a| - 1])))
    else
      var x, y := MaterialOf(a[|a| - 1]), MaterialOf(b[|b| - 1]);
      if x != y then Some(Collision(x, y)) else FindBreak(a[..|a| - 1], b[..|b| - 1])
  }

  /** Equal in everything the hash covers, and in number. */
  ghost predicate Agree(a: AuditRecord, b: AuditRecord) {
    a.seqNo == b.seqNo && a.prevHash == b.prevHash && a.hash == b.hash
    && CanonicalJson(a.payload) == CanonicalJson(b.payload)
  }

  lemma AcceptedPrevLength(sha: Hasher, records: seq<AuditRecord>, i: nat)
    requires Accepted(sha, records) && i < |records|
    requires i > 0 || FromGenesis(records)
    ensures |records[i].prevHash| == DIGEST_LENGTH
  {
    assert SoundAt(sha, records, i);
    if i > 0 {
      assert SoundAt(sha, records, i - 1);
    }
  }

  lemma {:induction false} AcceptedNumbers(sha: Hasher, records: seq<AuditRecord>, i: nat)
    requires Accepted(sha, records) && i < |records|
    ensures records[i].seqNo == records[0].seqNo + i
  {
    if i > 0 {
      AcceptedNumbers(sha, records, i - 1);
      assert SoundAt(sha, records, i);
    }
  }

  /** The head hash before the last record is the last record's `prev_hash`. */
  lemma HeadBeforeLast(sha: Hasher, records: seq<AuditRecord>)
    requires Accepted(sha, records) && FromGenesis(records) && records != []
    ensures HeadHash(records[..|records| - 1]) == records[|records| - 1].prevHash
    ensures HeadHash(records) == sha(MaterialOf(records[|records| - 1]))
    ensures Accepted(sha, records[..|records| - 1]) && FromGenesis(records[..|records| - 1])
  {
    assert SoundAt(sha, records, |records| - 1);
    PrefixAccepted(sha, records, |records| - 1);
  }

  /** Equal hashed texts split equally when the predecessor hashes are equally long. */
  lemma MaterialSplits(p: string, q: string, x: string, y: string)
    requires p + x == q + y && |p| == |q|
    ensures p == q && x == y
  {
    assert p == (p + x)[..|p|] && q == (q + y)[..|q|];
    assert x == (p + x)[|p|..] && y == (q + y)[|q|..];
  }

  /** Two accepted chains with one head are the same chain, record for record, unless they exhibit a break of the hash. */
  lemma {:induction false} TamperEvidence(sha: Hasher, a: seq<AuditRecord>, b: seq<AuditRecord>)
    requires Accepted(sha, a) && Accepted(sha, b) && FromGenesis(a) && FromGenesis(b)
    requires HeadHash(a) == HeadHash(b)
    ensures match FindBreak(a, b)
            case Some(break_) => Exhibits(sha, break_)
            case None => |a| == |b| && forall i | 0 <= i < |a| :: Agree(a[i], b[i])
    decreases |a| + |b|
  {
    if a != [] {
      HeadBeforeLast(sha, a);
    }
    if b != [] {
      HeadBeforeLast(sha, b);
    }
    if a != [] && b != [] {
      var m, n := |a| - 1, |b| - 1;
      if MaterialOf(a[m]) == MaterialOf(b[n]) {
        AcceptedPrevLength(sha, a, m);
        AcceptedPrevLength(sha, b, n);
        MaterialSplits(a[m].prevHash, b[n].prevHash, CanonicalJson(a[m].payload), CanonicalJson(b[n].payload));
        TamperEvidence(sha, a[..m], b[..n]);
        if FindBreak(a, b) == None {
          AcceptedNumbers(sha, a, m);
          AcceptedNumbers(sha, b, n);
          forall i | 0 <= i < |a| ensures Agree(a[i], b[i]) {
            if i < m {
              assert Agree(a[..m][i], b[..n][i]);
            }
          }
        }
      }
    }
  }

  /** The same with payloads: chains that read back well formed carry the same documents. */
  lemma {:induction false} TamperEvidenceDocuments(sha: Hasher, a: seq<AuditRecord>, b: seq<AuditRecord>)
    requires Accepted(sha, a) && Accepted(sha, b) && FromGenesis(a) && FromGenesis(b)
    requires HeadHash(a) == HeadHash(b)
    requires forall r | r in a + b :: WellFormed(r.payload)
    requires FindBreak(a, b) == None
    ensures |a| == |b| && forall i | 0 <= i < |a| :: SameDocument(a[i].payload, b[i].payload)
  {
    TamperEvidence(sha, a, b);
    forall i | 0 <= i < |a| ensures SameDocument(a[i].payload, b[i].payload) {
      assert Agree(a[i], b[i]);
      assert a[i] in a + b && b[i] in a + b;
      CanonicalTextIdentifies(a[i].payload, b[i].payload);
    }
  }

  /** What the hash does not cover: the outer timestamp and tenant of any record, and the position of a window
      that does not reach back to seq 1 (before and after it is moved). */
  lemma VerifierBlindSpots(sha: Hasher, records: seq<AuditRecord>, moved: seq<AuditRecord>, shift: int)
    requires Accepted(sha, records) && |moved| == |records|
    requires forall i | 0 <= i < |records| ::
               moved[i] == records[i].(timestamp := moved[i].timestamp, tenantId := moved[i].tenantId,
                                       seqNo := records[i].seqNo + shift)
    requires shift != 0 && records != [] ==> records[0].seqNo + shift != 1
    ensures Accepted(sha, moved)
  {
    forall i | 0 <= i < |moved| ensures SoundAt(sha, moved, i) {
      assert SoundAt(sha, records, i);
      if i > 0 {
        assert moved[i - 1].hash == records[i - 1].hash;
      }
    }
  }

  // ---------------------------------------------------------------------------------------
  // Honest chains
  // ---------------------------------------------------------------------------------------

  /** Records as `append` lays them down: numbered from 1, each built on its predecessor's hash. */
  ghost predicate Honest(sha: Hasher, tenant: string, records: seq<AuditRecord>) {
    forall i | 0 <= i < |records| ::
      && WellFormed(records[i].payload)
      && records[i] == BuildRecord(sha, tenant, i + 1, HeadHash(records[..i]), records[i].payload, records[i].timestamp)
  }

  /** What a query returns of an honest chain. */
  function ReadBack(r: AuditRecord): AuditRecord { r.(payload := Canonical(r.payload)) }

  lemma {:induction false} HonestAccepted(sha: Hasher, tenant: string, records: seq<AuditRecord>, read: seq<AuditRecord>)
    requires Honest(sha, tenant, records)
    requires |read| <= |records| && forall i | 0 <= i < |read| :: read[i] == records[i] || read[i] == ReadBack(records[i])
    ensures Accepted(sha, read)
  {
    forall i | 0 <= i < |read| ensures SoundAt(sha, read, i) {
      CanonicalRoundTrip(records[i].payload);
      if i > 0 {
        assert records[..i][i - 1] == records[i - 1];
        assert read[i - 1].hash == records[i - 1].hash;
      }
    }
  }

  lemma {:induction false} HonestExtends(sha: Hasher, tenant: string, records: seq<AuditRecord>, payload: Json, timestamp: string)
    requires Honest(sha, tenant, records) && WellFormed(payload)
    ensures Honest(sha, tenant, records + [BuildRecord(sha, tenant, |records| + 1, HeadHash(records), payload, timestamp)])
  {
    var next := records + [BuildRecord(sha, tenant, |records| + 1, HeadHash(records), payload, timestamp)];
    forall i | 0 <= i < |next|
      ensures WellFormed(next[i].payload)
      ensures next[i] == BuildRecord(sha, tenant, i + 1, HeadHash(next[..i]), next[i].payload, next[i].timestamp)
    {
      if i < |records| {
        assert next[..i] == records[..i];
      } else {
        assert next[..i] == records;
      }
    }
  }
}
