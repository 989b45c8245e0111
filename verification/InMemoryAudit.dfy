/** The in-memory audit repository: what the table-backed one must agree with. */
module InMemoryAudit {
  import opened Order
  import opened HashChain
  import opened AuditLog

  class InMemoryAuditRepository<R> {
    const sha: Hasher
    var records: map<string, seq<AuditRecord>>
    var idempotent: map<(string, string), R>

    function Chain(tenant: string): seq<AuditRecord>
      reads this
    {
      if tenant in records then records[tenant] else []
    }

    /** Every chain is as honest appends lay it down. */
    ghost predicate Valid()
      reads this
    {
      forall tenant | tenant in records :: Honest(sha, tenant, records[tenant])
    }

    constructor (sha: Hasher)
      ensures Valid() && this.sha == sha && records == map[] && idempotent == map[]
    {
      this.sha := sha;
      records, idempotent := map[], map[];
    }

    /** The record is the one the table-backed append builds on the same last record. */
    method Append(r: Request, timestamp: string) returns (record: AuditRecord)
      requires Valid()
      modifies this`records
      ensures Valid()
      ensures var chain := old(Chain(r.tenant));
              && record == RecordFor(sha, r, LastItem(chain), timestamp)
              && record.seqNo == |chain| + 1 && record.prevHash == HeadHash(chain)
              && records == old(records)[r.tenant := chain + [record]]
    {
      hide Payload;
      var chain := Chain(r.tenant);
      var seqNo := |chain| + 1;
      var prevHash := if chain != [] then chain[|chain| - 1].hash else GENESIS_HASH;
      record := BuildRecord(sha, r.tenant, seqNo, prevHash, Payload(r, timestamp), timestamp);
      LastNumbered(sha, r.tenant, chain);
      PayloadWellFormed(r, timestamp);
      HonestExtends(sha, r.tenant, chain, Payload(r, timestamp), timestamp);
      records := records[r.tenant := chain + [record]];
    }

    /** No false alarm, for any limit. */
    method VerifyChain(tenant: string, limit: nat) returns (v: ChainVerification)
      requires Valid()
      ensures v.chainValid && v.recordsChecked == if limit < |Chain(tenant)| then limit else |Chain(tenant)|
    {
      var chain := Chain(tenant);
      var window := if limit < |chain| then chain[..limit] else chain;
      HonestAccepted(sha, tenant, chain, window);
      v := VerifyRecords(sha, window);
    }

    method FindIdempotent(tenant: string, key: string) returns (r: Option<R>)
      ensures r == if (tenant, key) in idempotent then Some(idempotent[(tenant, key)]) else None
    {
      return if (tenant, key) in idempotent then Some(idempotent[(tenant, key)]) else None;
    }

    /** The first response stands. */
    method StoreIdempotent(tenant: string, key: string, response: R)
      modifies this`idempotent
      ensures idempotent == if (tenant, key) in old(idempotent) then old(idempotent)
                            else old(idempotent)[(tenant, key) := response]
    {
      if (tenant, key) !in idempotent {
        idempotent := idempotent[(tenant, key) := response];
      }
    }
  }

  /** The last record of a chain, as `_latest` would find it. */
  function LastItem(chain: seq<AuditRecord>): Option<AuditItem> {
    if chain == [] || chain[|chain| - 1].seqNo < 0 then None else Some(ToItem(chain[|chain| - 1]))
  }

  lemma LastNumbered(sha: Hasher, tenant: string, chain: seq<AuditRecord>)
    requires Honest(sha, tenant, chain)
    ensures chain != [] ==> chain[|chain| - 1].seqNo == |chain|
  {
  }
}
