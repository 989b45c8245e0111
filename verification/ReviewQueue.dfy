/** The review queue: the paged walk over the sparse index, and the filter, sort and limit it stands for. */
module ReviewQueue {
  import opened Order
  import opened Decisions
  import Json
  import RP = ReviewProtocol
  import Slots

  const QUEUE_PAGE_SIZE: nat := 100
  const MAX_QUEUE_PAGES: nat := 10

  /** Length of `isoformat(timespec="milliseconds")` in UTC. */
  const TIMESTAMP_LENGTH: nat := 29

  function Take<T>(xs: seq<T>, n: nat): seq<T> { if n < |xs| then xs[..n] else xs }

  function Filter(ds: seq<Decision>, keep: Decision -> bool): seq<Decision> {
    if ds == [] then []
    else (if keep(ds[0]) then [ds[0]] else []) + Filter(ds[1..], keep)
  }

  const CreatedAt: Decision -> string := (d: Decision) => d.createdAt
  const IndexSort: Decision -> string := (d: Decision) => if d.indexKeys.Some? then d.indexKeys.value.gsi1sk else ""

  /** The filter of the query: whole seconds, on the stored expiry. */
  function Unexpired(now: int): Decision -> bool { (d: Decision) => d.expiresAt > now }

  /** The filter of the in-memory list, and of the re-check behind the query. */
  function NotExpired(t: real): Decision -> bool { (d: Decision) => !IsExpired(d, t) }

  function Queued(tenant: string): Decision -> bool {
    (d: Decision) => d.indexKeys.Some? && d.indexKeys.value.gsi1pk == QueuePartition(tenant)
  }

  function Waiting(tenant: string, t: real): Decision -> bool {
    (d: Decision) => d.tenant == tenant && d.status == Pending && !IsExpired(d, t)
  }

  /** The index partition the query walks, oldest first. */
  function Index(items: seq<Decision>, tenant: string): seq<Decision> {
    SortOn(Filter(items, Queued(tenant)), IndexSort)
  }

  // ---------------------------------------------------------------------------------------
  // The paged walk
  // ---------------------------------------------------------------------------------------

  datatype Page = Page(items: seq<Decision>, lastEvaluated: Option<nat>)

  /** One query page: reads up to a page of entries from `start`, returns those that pass the filter,
      and names where to go on while the page was full. */
  function QueryPage(index: seq<Decision>, start: nat, now: int): Page
    requires start <= |index|
  {
    var end := if start + QUEUE_PAGE_SIZE <= |index| then start + QUEUE_PAGE_SIZE else |index|;
    Page(Filter(index[start..end], Unexpired(now)),
         if start + QUEUE_PAGE_SIZE <= |index| then Some(end) else None)
  }

  /** The part of the index the walk may reach. */
  function Window(index: seq<Decision>): seq<Decision> { Take(index, QUEUE_PAGE_SIZE * MAX_QUEUE_PAGES) }

  /** `list_pending` over the index, at one clock reading: the first `limit` live entries
      among the first 1000 of the index, in index order. */
  method ListPending(index: seq<Decision>, t: real, limit: nat) returns (r: seq<Decision>)
    requires forall d | d in index :: d.status == Pending
    ensures r == Take(Filter(Take(index, 1000), NotExpired(t)), limit)
  {
    var now := t.Floor;
    var collected: seq<Decision> := [];
    var start: nat := 0;
    ghost var reached: nat := 0;
    for page := 0 to MAX_QUEUE_PAGES
      invariant start == reached == page * QUEUE_PAGE_SIZE <= |index|
      invariant collected == Filter(index[..reached], Unexpired(now))
    {
      var response := QueryPage(index, start, now);
      ghost var end := if start + QUEUE_PAGE_SIZE <= |index| then start + QUEUE_PAGE_SIZE else |index|;
      FilterConcat(index[..start], index[start..end], Unexpired(now));
      assert index[..start] + index[start..end] == index[..end];
      collected := collected + response.items;
      reached := end;
      if response.lastEvaluated == None || |collected| >= limit {
        break;
      }
      start := response.lastEvaluated.value;
    }
    LiveFilters(index[..reached], t);
    EnoughCollected(index, reached, NotExpired(t), limit);
    r := Take(Filter(collected, NotExpired(t)), limit);
  }

  lemma FilterHead(ds: seq<Decision>, keep: Decision -> bool)
    requires ds != []
    ensures Filter(ds, keep) == if keep(ds[0]) then [ds[0]] + Filter(ds[1..], keep) else Filter(ds[1..], keep)
  {
  }

  lemma {:induction false} FilterConcat(a: seq<Decision>, b: seq<Decision>, keep: Decision -> bool)
    ensures Filter(a + b, keep) == Filter(a, keep) + Filter(b, keep)
  {
    if a == [] {
      assert a + b == b;
    } else {
      assert (a + b)[0] == a[0] && (a + b)[1..] == a[1..] + b;
      FilterConcat(a[1..], b, keep);
      FilterHead(a + b, keep);
      FilterHead(a, keep);
    }
  }

  /** On pending entries the query's filter and the re-check keep the same, once or twice. */
  lemma {:induction false} LiveFilters(ds: seq<Decision>, t: real)
    requires forall d | d in ds :: d.status == Pending
    ensures Filter(ds, Unexpired(t.Floor)) == Filter(ds, NotExpired(t))
    ensures Filter(Filter(ds, Unexpired(t.Floor)), NotExpired(t)) == Filter(ds, NotExpired(t))
  {
    if ds != [] {
      LiveFilters(ds[1..], t);
      WholeSeconds(ds[0].expiresAt, t);
      assert ds[0] in ds;
      var first := if NotExpired(t)(ds[0]) then [ds[0]] else [];
      FilterConcat(first, Filter(ds[1..], NotExpired(t)), NotExpired(t));
      assert Filter(first, NotExpired(t)) == first;
    }
  }

  /** Stopping early loses nothing once `limit` entries are found. */
  lemma EnoughCollected(index: seq<Decision>, reached: nat, keep: Decision -> bool, limit: nat)
    requires reached <= |Window(index)|
    requires reached == |Window(index)| || |Filter(index[..reached], keep)| >= limit
    ensures Take(Filter(index[..reached], keep), limit) == Take(Filter(Window(index), keep), limit)
  {
    var w := Window(index);
    assert index[..reached] + w[reached..] == w;
    FilterConcat(index[..reached], w[reached..], keep);
  }

  // ---------------------------------------------------------------------------------------
  // What the walk stands for
  // ---------------------------------------------------------------------------------------

  /** In-memory `list_pending`. */
  function ReferenceList(items: seq<Decision>, tenant: string, t: real, limit: nat): seq<Decision> {
    Take(SortOn(Filter(items, Waiting(tenant, t)), CreatedAt), limit)
  }

  /** A decision carries the index keys exactly while it is pending. */
  predicate Indexed(d: Decision) {
    d.indexKeys == if d.status == Pending
                   then Some(IndexKeys(QueuePartition(d.tenant), QueueSortKey(d.createdAt, d.id))) else None
  }

  /** The sparse-index invariant, with timestamps of one length and no two decisions of a tenant created in the same
      millisecond. */
  ghost predicate QueueOk(items: seq<Decision>) {
    && (forall d | d in items :: |d.createdAt| == TIMESTAMP_LENGTH && Indexed(d))
    && (forall i, j | 0 <= i < j < |items| :: items[i].tenant == items[j].tenant ==> items[i].createdAt != items[j].createdAt)
  }

  /** Every table that reviewers and creators can reach keeps the sparse-index invariant. */
  lemma {:induction false} ReachableIndexed(es: seq<RP.Event>)
    ensures var table := RP.Run(RP.INIT, es).table; forall k | k in table :: Indexed(table[k])
  {
    RP.RunKeepsInv(RP.INIT, es);
    var s := RP.Run(RP.INIT, es);
    forall k | k in s.table ensures Indexed(s.table[k]) {
      assert RP.DecisionOk(k, s.table[k]);
    }
  }

  lemma QueuePartitionInjective(a: string, b: string)
    requires QueuePartition(a) == QueuePartition(b)
    ensures a == b
  {
    var x, y := QueuePartition(a), QueuePartition(b);
    assert a == x[7..|x| - 8] && b == y[7..|y| - 8];
  }

  lemma {:induction false} FilterMember(ds: seq<Decision>, keep: Decision -> bool, d: Decision)
    ensures d in Filter(ds, keep) <==> d in ds && keep(d)
  {
    if ds != [] {
      FilterMember(ds[1..], keep, d);
      assert ds == [ds[0]] + ds[1..];
    }
  }

  lemma {:induction false} FilterDistinct(ds: seq<Decision>, keep: Decision -> bool, key: Decision -> string)
    requires forall i, j | 0 <= i < j < |ds| :: keep(ds[i]) && keep(ds[j]) ==> key(ds[i]) != key(ds[j])
    ensures DistinctKeys(Filter(ds, keep), key)
  {
    if ds != [] {
      FilterDistinct(ds[1..], keep, key);
      var rest := Filter(ds[1..], keep);
      forall j | 0 <= j < |rest| ensures keep(ds[0]) ==> key(ds[0]) != key(rest[j]) {
        FilterMember(ds[1..], keep, rest[j]);
        assert rest[j] in rest;
        var i :| 0 <= i < |ds[1..]| && ds[1..][i] == rest[j];
        assert ds[i + 1] == rest[j];
      }
    }
  }

  lemma {:induction false} FilterSorted(ds: seq<Decision>, keep: Decision -> bool, key: Decision -> string)
    requires StrictlySorted(ds, key)
    ensures StrictlySorted(Filter(ds, keep), key)
  {
    if ds != [] {
      FilterSorted(ds[1..], keep, key);
      var rest := Filter(ds[1..], keep);
      forall j | 0 <= j < |rest| ensures Before(key(ds[0]), key(rest[j])) {
        FilterMember(ds[1..], keep, rest[j]);
        assert rest[j] in rest;
        var i :| 0 <= i < |ds[1..]| && ds[1..][i] == rest[j];
        assert ds[i + 1] == rest[j];
      }
    }
  }

  /** The queue partition's entries: the tenant's pending decisions, no others. */
  lemma QueuedIsPending(items: seq<Decision>, tenant: string, d: Decision)
    requires QueueOk(items) && d in items
    ensures Queued(tenant)(d) <==> d.tenant == tenant && d.status == Pending
  {
    if Queued(tenant)(d) {
      QueuePartitionInjective(d.tenant, tenant);
    }
  }

  /** Index order is creation order. */
  lemma IndexOrder(items: seq<Decision>, tenant: string)
    requires QueueOk(items)
    ensures StrictlySorted(Index(items, tenant), CreatedAt)
    ensures forall d :: d in Index(items, tenant) <==> d in items && d.tenant == tenant && d.status == Pending
  {
    var queued := Filter(items, Queued(tenant));
    var index := Index(items, tenant);
    SortMembers(queued, IndexSort);
    forall d ensures d in index <==> d in items && d.tenant == tenant && d.status == Pending {
      FilterMember(items, Queued(tenant), d);
      if d in items {
        QueuedIsPending(items, tenant, d);
      }
    }
    forall i, j | 0 <= i < j < |items| && Queued(tenant)(items[i]) && Queued(tenant)(items[j])
      ensures IndexSort(items[i]) != IndexSort(items[j]) && items[i].createdAt != items[j].createdAt
    {
      QueuedIsPending(items, tenant, items[i]);
      QueuedIsPending(items, tenant, items[j]);
      SortKeyOrder(items[i], items[j]);
    }
    FilterDistinct(items, Queued(tenant), IndexSort);
    FilterDistinct(items, Queued(tenant), CreatedAt);
    SortSorts(queued, IndexSort);
    forall i, j | 0 <= i < j < |index| ensures Before(CreatedAt(index[i]), CreatedAt(index[j])) {
      assert index[i] in index && index[j] in index;
      SortKeyOrder(index[i], index[j]);
      if index[i].createdAt == index[j].createdAt {
        DistinctDetermines(items, index[i], index[j]);
        BeforeIrreflexive(IndexSort(index[i]));
      }
    }
  }

  lemma DistinctDetermines(items: seq<Decision>, a: Decision, b: Decision)
    requires QueueOk(items) && a in items && b in items && a.tenant == b.tenant && a.createdAt == b.createdAt
    ensures a == b
  {
  }

  /** With timestamps of one length the sort key compares by time first. */
  lemma SortKeyOrder(a: Decision, b: Decision)
    requires |a.createdAt| == |b.createdAt|
    requires a.indexKeys.Some? && a.indexKeys.value.gsi1sk == QueueSortKey(a.createdAt, a.id)
    requires b.indexKeys.Some? && b.indexKeys.value.gsi1sk == QueueSortKey(b.createdAt, b.id)
    ensures Before(IndexSort(a), IndexSort(b)) ==> Before(a.createdAt, b.createdAt) || a.createdAt == b.createdAt
    ensures a.createdAt != b.createdAt ==> IndexSort(a) != IndexSort(b)
  {
    assert QueueSortKey(a.createdAt, a.id) == a.createdAt + ("#" + a.id);
    assert QueueSortKey(b.createdAt, b.id) == b.createdAt + ("#" + b.id);
    BeforeEqualLength(a.createdAt, b.createdAt, "#" + a.id, "#" + b.id);
    assert IndexSort(a)[..|a.createdAt|] == a.createdAt && IndexSort(b)[..|b.createdAt|] == b.createdAt;
  }

  /** All live entries of the index, in order: what the reference filters and sorts. */
  lemma LiveIndexIsSortedWaiting(items: seq<Decision>, tenant: string, t: real)
    requires QueueOk(items)
    ensures Filter(Index(items, tenant), NotExpired(t)) == SortOn(Filter(items, Waiting(tenant, t)), CreatedAt)
  {
    var live := Filter(Index(items, tenant), NotExpired(t));
    var waiting := Filter(items, Waiting(tenant, t));
    IndexOrder(items, tenant);
    FilterSorted(Index(items, tenant), NotExpired(t), CreatedAt);
    FilterDistinct(items, Waiting(tenant, t), CreatedAt);
    SortSorts(waiting, CreatedAt);
    SortMembers(waiting, CreatedAt);
    forall d ensures d in live <==> d in SortOn(waiting, CreatedAt) {
      FilterMember(Index(items, tenant), NotExpired(t), d);
      FilterMember(items, Waiting(tenant, t), d);
    }
    SortedUnique(live, SortOn(waiting, CreatedAt), CreatedAt);
  }

  function Min(a: nat, b: nat): nat { if a < b then a else b }

  /** The walk sees what the reference lists exactly when its window holds as many live entries as were asked for,
      or all there are. */
  lemma {:induction false} EnoughLive(items: seq<Decision>, tenant: string, t: real, limit: nat)
    requires QueueOk(items)
    ensures var index := Index(items, tenant);
            Take(Filter(Window(index), NotExpired(t)), limit) == ReferenceList(items, tenant, t, limit)
            <==> |Filter(Window(index), NotExpired(t))| >= Min(limit, |Filter(index, NotExpired(t))|)
  {
    var index := Index(items, tenant);
    var w := Window(index);
    LiveIndexIsSortedWaiting(items, tenant, t);
    assert index == w + index[|w|..];
    FilterConcat(w, index[|w|..], NotExpired(t));
  }

  /** Each of the first `limit` live entries has its place among the first 1000 entries of the index, stale or not. */
  ghost predicate WindowReaches(index: seq<Decision>, t: real, limit: nat) {
    forall p | 0 <= p < |index| && NotExpired(t)(index[p]) && |Filter(index[..p], NotExpired(t))| < limit ::
      p < 1000
  }

  lemma {:induction false} FirstLive(ds: seq<Decision>, keep: Decision -> bool) returns (q: nat)
    requires Filter(ds, keep) != []
    ensures q < |ds| && keep(ds[q]) && Filter(ds[..q], keep) == []
  {
    if keep(ds[0]) {
      q := 0;
    } else {
      FilterHead(ds, keep);
      var r := FirstLive(ds[1..], keep);
      q := r + 1;
      assert ds[..q][1..] == ds[1..][..r];
      FilterHead(ds[..q], keep);
    }
  }

  lemma PlacesCount(index: seq<Decision>, t: real, limit: nat)
    ensures WindowReaches(index, t, limit)
       <==> |Filter(Window(index), NotExpired(t))| >= Min(limit, |Filter(index, NotExpired(t))|)
  {
    var n := QUEUE_PAGE_SIZE * MAX_QUEUE_PAGES;
    var keep := NotExpired(t);
    if |index| > n {
      var w, rest := index[..n], index[n..];
      assert index == w + rest;
      FilterConcat(w, rest, keep);
      if |Filter(w, keep)| < Min(limit, |Filter(index, keep)|) {
        var q := FirstLive(rest, keep);
        assert index[..n + q] == w + rest[..q] && index[n + q] == rest[q];
        FilterConcat(w, rest[..q], keep);
      } else {
        forall p | n <= p < |index| && keep(index[p]) ensures |Filter(index[..p], keep)| >= limit {
          PlaceBehind(index, n, p, keep);
        }
      }
    }
  }

  /** A live entry behind the window comes after all of the window's live entries and adds one to them. */
  lemma PlaceBehind(index: seq<Decision>, n: nat, p: nat, keep: Decision -> bool)
    requires n <= p < |index| && keep(index[p])
    ensures |Filter(index[..n], keep)| <= |Filter(index[..p], keep)| < |Filter(index, keep)|
  {
    assert index[..p] == index[..n] + index[n..p];
    FilterConcat(index[..n], index[n..p], keep);
    assert index == index[..p] + index[p..];
    FilterConcat(index[..p], index[p..], keep);
    FilterHead(index[p..], keep);
  }

  /** The walk and the reference agree exactly when each of the first `limit` live entries has its place among the first
      1000 entries of the index. */
  lemma {:induction false} QueueEquivalence(items: seq<Decision>, tenant: string, t: real, limit: nat)
    requires QueueOk(items)
    ensures var index := Index(items, tenant);
            Take(Filter(Window(index), NotExpired(t)), limit) == ReferenceList(items, tenant, t, limit)
            <==> WindowReaches(index, t, limit)
  {
    hide QueueOk, WindowReaches, ReferenceList, Index;
    EnoughLive(items, tenant, t, limit);
    PlacesCount(Index(items, tenant), t, limit);
  }

  // ---------------------------------------------------------------------------------------
  // A queue that shows nothing while a decision waits
  // ---------------------------------------------------------------------------------------

  function CreatedText(n: nat): string { "00000000000000000" + Slots.Fixed(n, Slots.WIDTH) }

  /** The n-th of a tenant's pending decisions; the first `stale` of them have expired at time 1. */
  function Entry(tenant: string, stale: nat, n: nat): Decision {
    NewPending("", tenant, CreatedText(n), if n < stale then 0 else 2, TimeoutDeny, Json.Null, 0)
  }

  function Entries(tenant: string, stale: nat, n: nat): (r: seq<Decision>)
    ensures |r| == n && forall i | 0 <= i < n :: r[i] == Entry(tenant, stale, i)
  {
    if n == 0 then [] else Entries(tenant, stale, n - 1) + [Entry(tenant, stale, n - 1)]
  }

  lemma CreatedOrder(a: nat, b: nat)
    requires a < b < Slots.CAPACITY
    ensures Before(CreatedText(a), CreatedText(b)) && CreatedText(a) != CreatedText(b)
  {
    assert Slots.Pow10(12) == Slots.CAPACITY;
    Slots.FixedOrder(a, b, Slots.WIDTH);
    BeforePrefix("00000000000000000", Slots.Fixed(a, Slots.WIDTH), Slots.Fixed(b, Slots.WIDTH));
    BeforeAsymmetric(CreatedText(a), CreatedText(b));
  }

  lemma EntryOrder(tenant: string, stale: nat, a: nat, b: nat)
    requires a < b < Slots.CAPACITY
    ensures Before(IndexSort(Entry(tenant, stale, a)), IndexSort(Entry(tenant, stale, b)))
  {
    CreatedOrder(a, b);
    BeforeEqualLength(CreatedText(a), CreatedText(b), "#", "#");
    assert QueueSortKey(CreatedText(a), "") == CreatedText(a) + "#" && QueueSortKey(CreatedText(b), "") == CreatedText(b) + "#";
  }

  lemma EntriesOk(tenant: string, stale: nat, n: nat)
    requires n <= Slots.CAPACITY
    ensures QueueOk(Entries(tenant, stale, n)) && StrictlySorted(Entries(tenant, stale, n), IndexSort)
  {
    hide Entries, CreatedText;
    var es := Entries(tenant, stale, n);
    forall d | d in es ensures |d.createdAt| == TIMESTAMP_LENGTH && Indexed(d) {
      var i :| 0 <= i < |es| && es[i] == d;
      CreatedLength(i);
    }
    forall i, j | 0 <= i < j < |es| ensures es[i].createdAt != es[j].createdAt {
      CreatedOrder(i, j);
    }
    forall i, j | 0 <= i < j < |es| ensures Before(IndexSort(es[i]), IndexSort(es[j])) {
      EntryOrder(tenant, stale, i, j);
    }
  }

  lemma CreatedLength(n: nat)
    ensures |CreatedText(n)| == TIMESTAMP_LENGTH
  {
  }

  lemma {:induction false} FilterAll(ds: seq<Decision>, keep: Decision -> bool)
    requires forall d | d in ds :: keep(d)
    ensures Filter(ds, keep) == ds
  {
    if ds != [] {
      FilterAll(ds[1..], keep);
    }
  }

  lemma {:induction false} FilterNone(ds: seq<Decision>, keep: Decision -> bool)
    requires forall d | d in ds :: !keep(d)
    ensures Filter(ds, keep) == []
  {
    if ds != [] {
      FilterNone(ds[1..], keep);
    }
  }

  lemma StaleThenLive(tenant: string, n: nat)
    requires n < Slots.CAPACITY
    ensures var items := Entries(tenant, n, n + 1);
            && QueueOk(items) && Index(items, tenant) == items
            && NotExpired(1.0)(items[n]) && Filter(items[..n], NotExpired(1.0)) == []
  {
    hide Entries, CreatedText, StrictlySorted, QueueOk;
    var items := Entries(tenant, n, n + 1);
    EntriesOk(tenant, n, n + 1);
    forall d | d in items ensures Queued(tenant)(d) {
    }
    FilterAll(items, Queued(tenant));
    SortFixpoint(items, IndexSort);
    forall d | d in items[..n] ensures !NotExpired(1.0)(d) {
    }
    FilterNone(items[..n], NotExpired(1.0));
  }

  lemma OutOfReach(items: seq<Decision>, t: real, limit: nat)
    requires limit > 0 && |items| == QUEUE_PAGE_SIZE * MAX_QUEUE_PAGES + 1
    requires NotExpired(t)(items[|items| - 1]) && Filter(items[..|items| - 1], NotExpired(t)) == []
    ensures Window(items) == items[..|items| - 1] && !WindowReaches(items, t, limit)
  {
  }

  /** A thousand expired entries hide the one live decision behind them, whatever limit is asked for. */
  lemma {:induction false} StaleEntriesHide(tenant: string, limit: nat)
    requires limit > 0
    ensures exists items, t ::
              && QueueOk(items) && Take(Filter(Window(Index(items, tenant)), NotExpired(t)), limit) == []
              && ReferenceList(items, tenant, t, limit) != []
  {
    hide QueueOk, ReferenceList, Index, Window, WindowReaches, Entries, Filter;
    var n := QUEUE_PAGE_SIZE * MAX_QUEUE_PAGES;
    var items := Entries(tenant, n, n + 1);
    StaleThenLive(tenant, n);
    OutOfReach(items, 1.0, limit);
    QueueEquivalence(items, tenant, 1.0, limit);
  }

  // ---------------------------------------------------------------------------------------
  // The in-memory repository
  // ---------------------------------------------------------------------------------------

  class InMemoryDecisionRepository {
    /** A dictionary: its keys in insertion order, and what they map to. */
    var order: seq<(string, string)>
    var items: DecisionTable

    ghost predicate Valid()
      reads this
    {
      && (forall k | k in order :: k in items)
      && (forall k | k in items :: k in order && k == (items[k].tenant, items[k].id))
      && (forall i, j | 0 <= i < j < |order| :: order[i] != order[j])
    }

    constructor ()
      ensures Valid() && items == map[]
    {
      order, items := [], map[];
    }

    method Create(d: Decision)
      requires Valid()
      modifies this
      ensures Valid() && items == old(items)[(d.tenant, d.id) := d]
      ensures order == if (d.tenant, d.id) in old(items) then old(order) else old(order) + [(d.tenant, d.id)]
    {
      var k := (d.tenant, d.id);
      if k !in items {
        order := order + [k];
      }
      items := items[k := d];
    }

    /** Both repositories give a lone reviewer the same answer and the same stored decision. */
    method Resolve(r: Ruling, t: real, resolvedAt: string) returns (outcome: Outcome)
      requires Valid()
      modifies this`items
      ensures Valid()
      ensures Settles(old(items), r, t, resolvedAt, items, outcome)
    {
      var k := (r.tenant, r.id);
      if k !in items {
        return Missing;
      }
      var current := items[k];
      if current.status != Pending {
        return AlreadyResolved(EffectiveStatus(current, t), current.reviewer);
      }
      if IsExpired(current, t) {
        return AlreadyResolved(ShownExpired, None);
      }
      var resolved := Rule(current, r, resolvedAt);
      items := items[k := resolved];
      return Settled(resolved);
    }
  }
}
