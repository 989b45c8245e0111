/** The token bucket and the per-tenant limiter with its least-recently-used cap. Reals stand for floats. */
module RateLimit {
  import opened Order
  import opened Reals

  datatype Amount = Finite(r: real) | Infinite

  datatype Verdict = Verdict(allowed: bool, remaining: Amount, retryAfter: Amount)

  // ---------------------------------------------------------------------------------------
  // One bucket
  // ---------------------------------------------------------------------------------------

  datatype Bucket = Bucket(capacity: real, rate: real, tokens: real, updatedAt: real)

  /** What the bucket holds when looked at; a clock that ran backwards adds nothing. */
  function Level(b: Bucket, now: real): real { Min(b.capacity, b.tokens + Max(0.0, now - b.updatedAt) * b.rate) }

  function Take(b: Bucket, request: real, now: real): (Bucket, Verdict) {
    var level := Level(b, now);
    if level >= request then
      (b.(tokens := level - request, updatedAt := now), Verdict(true, Finite(level - request), Finite(0.0)))
    else
      (b.(tokens := level, updatedAt := now),
       Verdict(false, Finite(level), if b.rate > 0.0 then Finite((request - level) / b.rate) else Infinite))
  }

  /** A look refills the bucket for the time that passed, never beyond its capacity and never for time that ran backwards;
      a request is granted exactly when there is enough, and only then taken; the caller is told what is left. */
  lemma TakeSays(b: Bucket, request: real, now: real)
    ensures var (after, v) := Take(b, request, now);
            var elapsed := if now >= b.updatedAt then now - b.updatedAt else 0.0;
            var refilled := b.tokens + elapsed * b.rate;
            var level := if refilled <= b.capacity then refilled else b.capacity;
            && (v.allowed <==> request <= level)
            && after.tokens == (if v.allowed then level - request else level) && v.remaining == Finite(after.tokens)
            && after.updatedAt == now && after.capacity == b.capacity && after.rate == b.rate
            && (v.allowed ==> v.retryAfter == Finite(0.0))
            && (!v.allowed && b.rate <= 0.0 ==> v.retryAfter == Infinite)
  {
  }

  class TokenBucket {
    const capacity: real
    const rate: real
    var tokens: real
    var updatedAt: real

    constructor (capacity: real, rate: real, now: real)
      ensures Value() == Bucket(capacity, rate, capacity, now)
    {
      this.capacity, this.rate := capacity, rate;
      tokens, updatedAt := capacity, now;
    }

    function Value(): Bucket
      reads this
    {
      Bucket(capacity, rate, tokens, updatedAt)
    }

    method Consume(request: real, now: real) returns (v: Verdict)
      modifies this
      ensures (Value(), v) == Take(old(Value()), request, now)
    {
      var elapsed := Max(0.0, now - updatedAt);
      tokens := Min(capacity, tokens + elapsed * rate);
      updatedAt := now;
      if tokens >= request {
        tokens := tokens - request;
        return Verdict(true, Finite(tokens), Finite(0.0));
      }
      var deficit := request - tokens;
      return Verdict(false, Finite(tokens), if rate > 0.0 then Finite(deficit / rate) else Infinite);
    }
  }

  predicate Sane(b: Bucket) { b.rate >= 0.0 && 0.0 <= b.tokens <= b.capacity }

  lemma TakeSane(b: Bucket, request: real, now: real)
    requires Sane(b) && request >= 0.0
    ensures Sane(Take(b, request, now).0)
  {
    Product(Max(0.0, now - b.updatedAt), b.rate);
  }

  datatype Use = Use(request: real, now: real)

  predicate NonNegative(uses: seq<Use>) { forall u | u in uses :: u.request >= 0.0 }

  lemma NonNegativePart(uses: seq<Use>, i: nat, j: nat)
    requires NonNegative(uses) && i <= j <= |uses|
    ensures NonNegative(uses[i..j]) && NonNegative(uses[..j])
    ensures i < |uses| ==> uses[i].request >= 0.0
  {
    assert i < |uses| ==> uses[i] in uses;
    assert forall u | u in uses[i..j] :: u in uses;
    assert forall u | u in uses[..j] :: u in uses;
  }

  function After(b: Bucket, uses: seq<Use>): Bucket
    decreases |uses|
  {
    if uses == [] then b else Take(After(b, uses[..|uses| - 1]), uses[|uses| - 1].request, uses[|uses| - 1].now).0
  }

  /** The tokens granted over a sequence of calls. */
  function Granted(b: Bucket, uses: seq<Use>): real
    decreases |uses|
  {
    if uses == [] then 0.0
    else
      var last := uses[|uses| - 1];
      Granted(b, uses[..|uses| - 1]) + Took(After(b, uses[..|uses| - 1]), last)
  }

  /** How far the clock moved forward from call to call. */
  function Forward(uses: seq<Use>): real {
    if |uses| < 2 then 0.0
    else Forward(uses[..|uses| - 1]) + Max(0.0, uses[|uses| - 1].now - uses[|uses| - 2].now)
  }

  predicate Nondecreasing(uses: seq<Use>) { forall i | 0 < i < |uses| :: uses[i - 1].now <= uses[i].now }

  function Span(uses: seq<Use>): real { if uses == [] then 0.0 else uses[|uses| - 1].now - uses[0].now }

  lemma {:induction false} ForwardIsSpan(uses: seq<Use>)
    ensures Forward(uses) >= Span(uses)
    ensures Forward(uses) == Span(uses) <==> Nondecreasing(uses)
  {
    if |uses| >= 2 {
      var front := uses[..|uses| - 1];
      ForwardIsSpan(front);
      assert Nondecreasing(uses) <==> Nondecreasing(front) && uses[|uses| - 2].now <= uses[|uses| - 1].now;
    }
  }

  lemma {:induction false} Bounded(b: Bucket, uses: seq<Use>)
    requires Sane(b) && NonNegative(uses)
    ensures Sane(After(b, uses)) && After(b, uses).capacity == b.capacity && After(b, uses).rate == b.rate
    ensures uses != [] ==> After(b, uses).updatedAt == uses[|uses| - 1].now
    decreases |uses|
  {
    if uses != [] {
      var front, last := uses[..|uses| - 1], uses[|uses| - 1];
      hide NonNegative, Take;
      NonNegativePart(uses, |front|, |front|);
      Bounded(b, front);
      TakeSane(After(b, front), last.request, last.now);
    }
  }

  /** The tokens one call takes. */
  function Took(b: Bucket, u: Use): real { if Take(b, u.request, u.now).1.allowed then u.request else 0.0 }

  lemma TookConserves(b: Bucket, u: Use)
    requires Sane(b) && u.request >= 0.0
    ensures Took(b, u) + Take(b, u.request, u.now).0.tokens <= b.capacity
    ensures Took(b, u) + Take(b, u.request, u.now).0.tokens <= b.tokens + Max(0.0, u.now - b.updatedAt) * b.rate
  {
  }

  lemma Distribute(rate: real, a: real, b: real)
    ensures rate * (a + b) == rate * a + b * rate
  {
  }

  /** Conservation: what was granted and what is left never exceed a full bucket and what flowed in since. */
  lemma {:induction false} Conservation(b: Bucket, uses: seq<Use>)
    requires Sane(b) && uses != [] && NonNegative(uses)
    ensures Granted(b, uses) + After(b, uses).tokens <= b.capacity + b.rate * Forward(uses)
    decreases |uses|
  {
    hide Take, Sane, Max, NonNegative, Took;
    var front, last := uses[..|uses| - 1], uses[|uses| - 1];
    NonNegativePart(uses, |front|, |front|);
    Bounded(b, front);
    TookConserves(After(b, front), last);
    if front == [] {
      Distribute(b.rate, 0.0, 0.0);
    } else {
      Conservation(b, front);
      Distribute(b.rate, Forward(front), Max(0.0, last.now - After(b, front).updatedAt));
    }
  }

  /** In any window of calls on a clock that does not run backwards, the tokens granted are at most the capacity
      and the refill of the window, whatever happened before it. */
  lemma {:induction false} RateBound(b: Bucket, uses: seq<Use>, i: nat, j: nat)
    requires Sane(b) && NonNegative(uses)
    requires i < j <= |uses| && Nondecreasing(uses[i..j])
    ensures Granted(After(b, uses[..i]), uses[i..j]) <= b.capacity + b.rate * (uses[j - 1].now - uses[i].now)
    ensures 0.0 <= After(b, uses[..j]).tokens <= b.capacity
  {
    hide Granted, After, Forward, Nondecreasing, NonNegative;
    NonNegativePart(uses, i, j);
    NonNegativePart(uses, i, i);
    Bounded(b, uses[..i]);
    Bounded(b, uses[..j]);
    Bounded(After(b, uses[..i]), uses[i..j]);
    Conservation(After(b, uses[..i]), uses[i..j]);
    ForwardIsSpan(uses[i..j]);
  }

  lemma AppendUse(b: Bucket, uses: seq<Use>, u: Use)
    ensures After(b, uses + [u]) == Take(After(b, uses), u.request, u.now).0
    ensures Granted(b, uses + [u]) == Granted(b, uses) + Took(After(b, uses), u)
  {
    hide Take;
    assert (uses + [u])[..|uses|] == uses;
  }

  lemma UnitRate(cap: real, tokens: real, updatedAt: real, now: real)
    ensures Level(Bucket(cap, 1.0, tokens, updatedAt), now) == Min(cap, tokens + Max(0.0, now - updatedAt))
  {
  }

  /** Calls at these times. */
  predicate AtTimes(uses: seq<Use>, times: seq<real>) {
    |uses| == |times| && forall i | 0 <= i < |uses| :: uses[i].now == times[i]
  }

  predicate Rising(times: seq<real>) { forall i | 0 < i < |times| :: times[i - 1] <= times[i] }

  /** At these times the bound holds for every bucket and every sequence of requests. */
  ghost predicate BoundHolds(times: seq<real>)
    requires times != []
  {
    forall b, uses | Sane(b) && NonNegative(uses) && AtTimes(uses, times) ::
      Granted(b, uses) <= b.capacity + b.rate * Length(times)
  }

  function Length(times: seq<real>): real
    requires times != []
  {
    times[|times| - 1] - times[0]
  }

  /** The longest step forward. */
  function LongestStep(times: seq<real>): (r: real)
    ensures r >= 0.0
  {
    if |times| < 2 then 0.0
    else Max(LongestStep(times[..|times| - 1]), times[|times| - 1] - times[|times| - 2])
  }

  /** A full bucket emptied at every call. */
  function Emptying(capacity: real, times: seq<real>): seq<Use> {
    if times == [] then []
    else
      var n := |times| - 1;
      Emptying(capacity, times[..n])
      + [Use(if n == 0 then capacity else Max(0.0, times[n] - times[n - 1]), times[n])]
  }

  lemma {:induction false} EmptyingTimes(capacity: real, times: seq<real>)
    requires capacity >= 0.0
    ensures AtTimes(Emptying(capacity, times), times) && NonNegative(Emptying(capacity, times))
  {
    if times != [] {
      EmptyingTimes(capacity, times[..|times| - 1]);
    }
  }

  lemma EmptyTake(capacity: real, tokens: real, updatedAt: real, u: Use)
    requires u.request == Min(capacity, tokens + Max(0.0, u.now - updatedAt))
    ensures Take(Bucket(capacity, 1.0, tokens, updatedAt), u.request, u.now).0 == Bucket(capacity, 1.0, 0.0, u.now)
    ensures Took(Bucket(capacity, 1.0, tokens, updatedAt), u) == u.request
  {
    UnitRate(capacity, tokens, updatedAt, u.now);
    hide Level;
  }

  /** Emptied at every call, a bucket that no step overfills grants its capacity and all that flowed in: the most that
      conservation allows. */
  lemma {:induction false} EmptyingGrants(capacity: real, times: seq<real>)
    requires times != [] && capacity >= LongestStep(times)
    ensures var b := Bucket(capacity, 1.0, capacity, times[0]);
            var uses := Emptying(capacity, times);
            && After(b, uses) == Bucket(capacity, 1.0, 0.0, times[|times| - 1])
            && Granted(b, uses) == capacity + Forward(uses)
  {
    hide Take, Took, After, Granted, NonNegative;
    var n := |times| - 1;
    var b := Bucket(capacity, 1.0, capacity, times[0]);
    var front := Emptying(capacity, times[..n]);
    var last := Use(if n == 0 then capacity else Max(0.0, times[n] - times[n - 1]), times[n]);
    AppendUse(b, front, last);
    EmptyingTimes(capacity, times[..n]);
    if n == 0 {
      NoUse(b);
      EmptyTake(capacity, capacity, times[0], last);
    } else {
      EmptyingGrants(capacity, times[..n]);
      EmptyTake(capacity, 0.0, times[n - 1], last);
      assert (front + [last])[..|front|] == front;
    }
  }

  /** At times that run backwards emptying a bucket breaks the bound. */
  lemma BoundBroken(times: seq<real>) returns (b: Bucket, uses: seq<Use>)
    requires times != [] && !Rising(times)
    ensures Sane(b) && NonNegative(uses) && AtTimes(uses, times)
    ensures Granted(b, uses) > b.capacity + b.rate * Length(times)
  {
    var c := LongestStep(times);
    b := Bucket(c, 1.0, c, times[0]);
    uses := Emptying(c, times);
    EmptyingTimes(c, times);
    EmptyingGrants(c, times);
    ForwardIsSpan(uses);
    NotNondecreasing(uses, times);
    hide Granted, Forward, LongestStep, Emptying, Nondecreasing, Rising, NonNegative;
  }

  lemma NotNondecreasing(uses: seq<Use>, times: seq<real>)
    requires AtTimes(uses, times) && !Rising(times)
    ensures !Nondecreasing(uses)
  {
    var i :| 0 < i < |times| && times[i - 1] > times[i];
    assert uses[i - 1].now > uses[i].now;
  }

  /** The rate bound holds at these times, for every bucket and all requests, exactly when they never run backwards. */
  lemma {:induction false} BoundIff(times: seq<real>)
    requires times != []
    ensures BoundHolds(times) <==> Rising(times)
  {
    hide Granted, Rising, Sane, NonNegative, AtTimes;
    if Rising(times) {
      forall b, uses | Sane(b) && NonNegative(uses) && AtTimes(uses, times)
        ensures Granted(b, uses) <= b.capacity + b.rate * Length(times)
      {
        WholeWindow(b, uses, times);
      }
    } else {
      var b, uses := BoundBroken(times);
    }
  }

  lemma SpanIsLength(uses: seq<Use>, times: seq<real>)
    requires times != [] && AtTimes(uses, times)
    ensures Span(uses) == Length(times) && (Rising(times) ==> Nondecreasing(uses))
  {
  }

  lemma WholeWindow(b: Bucket, uses: seq<Use>, times: seq<real>)
    requires times != [] && Rising(times) && Sane(b) && NonNegative(uses) && AtTimes(uses, times)
    ensures Granted(b, uses) <= b.capacity + b.rate * Length(times)
  {
    hide Granted, After, Forward, Span, Length, Rising, NonNegative, Nondecreasing;
    SpanIsLength(uses, times);
    ForwardIsSpan(uses);
    Bounded(b, uses);
    Conservation(b, uses);
  }

  lemma NoUse(b: Bucket)
    ensures After(b, []) == b && Granted(b, []) == 0.0
  {
  }

  /** After a refusal, with no other call: waiting the announced time succeeds, waiting any less does not. A request
      larger than the capacity succeeds after no wait at all. */
  lemma RetryAfterExact(b: Bucket, request: real, now: real, wait: real)
    requires Sane(b) && b.rate > 0.0 && wait >= 0.0
    requires !Take(b, request, now).1.allowed
    ensures var (after, v) := Take(b, request, now);
            v.retryAfter.Finite?
            && (Take(after, request, now + wait).1.allowed <==> request <= b.capacity && wait >= v.retryAfter.r)
  {
    var (after, v) := Take(b, request, now);
    var level := after.tokens;
    Quotient(wait, request - level, b.rate);
  }

  // ---------------------------------------------------------------------------------------
  // The limiter
  // ---------------------------------------------------------------------------------------

  datatype Limits = Limits(perMinute: real, burst: Option<real>, maxTenants: int) {
    function Rate(): real { perMinute / 60.0 }

    function Burst(): real { if burst.Some? then burst.value else Max(10.0, Rate() * 5.0) }

    function Cap(): nat { if maxTenants > 0 then maxTenants else 0 }
  }

  /** What the settings mean: so many tokens a minute, and a burst of five seconds' worth but at least ten where none
      is named. */
  lemma LimitsSay(limits: Limits)
    ensures limits.Rate() * 60.0 == limits.perMinute
    ensures limits.burst.Some? ==> limits.Burst() == limits.burst.value
    ensures limits.burst == None ==>
              && limits.Burst() >= 10.0 && limits.Burst() >= limits.Rate() * 5.0
              && (limits.Burst() == 10.0 || limits.Burst() == limits.Rate() * 5.0)
    ensures limits.Cap() == if limits.maxTenants < 0 then 0 else limits.maxTenants
  {
  }

  /** A limit that is not positive is no limit; otherwise a tenant not seen before starts with a full burst. */
  lemma FirstCheck(limits: Limits, s: Table, t: string, now: real)
    ensures limits.perMinute <= 0.0 ==> CheckOne(limits, s, t, now) == (s, Verdict(true, Infinite, Finite(0.0)))
    ensures limits.perMinute > 0.0 && t !in s.levels ==>
              && (CheckOne(limits, s, t, now).1.allowed <==> limits.Burst() >= 1.0)
              && (limits.Burst() >= 1.0 ==> CheckOne(limits, s, t, now).1.remaining == Finite(limits.Burst() - 1.0))
  {
    if limits.perMinute > 0.0 && t !in s.levels {
      TakeSays(BucketFor(limits, s.levels, t, now), 1.0, now);
    }
  }

  /** The tenants in dictionary order, and their buckets. */
  datatype Table = Table(order: seq<string>, levels: map<string, Bucket>)

  function Without(ts: seq<string>, t: string): seq<string> {
    if ts == [] then [] else (if ts[0] == t then [] else [ts[0]]) + Without(ts[1..], t)
  }

  /** The dictionary order after a check: the tenant goes last, and the first goes when there are too many. */
  function Touch(order: seq<string>, t: string, cap: nat): seq<string> {
    if t in order then Without(order, t) + [t]
    else if |order| + 1 > cap then (order + [t])[1..]
    else order + [t]
  }

  /** The entries that stay. */
  function Kept<V>(m: map<string, V>, order: seq<string>): map<string, V> { map k | k in order && k in m :: m[k] }

  function BucketFor(limits: Limits, levels: map<string, Bucket>, t: string, now: real): Bucket {
    if t in levels then levels[t] else Bucket(limits.Burst(), limits.Rate(), limits.Burst(), now)
  }

  function CheckOne(limits: Limits, s: Table, t: string, now: real): (Table, Verdict) {
    if limits.perMinute <= 0.0 then (s, Verdict(true, Infinite, Finite(0.0)))
    else
      var (b, v) := Take(BucketFor(limits, s.levels, t, now), 1.0, now);
      var order := Touch(s.order, t, limits.Cap());
      (Table(order, Kept(s.levels[t := b], order)), v)
  }

  predicate NoRepeats(ts: seq<string>) { forall i, j | 0 <= i < j < |ts| :: ts[i] != ts[j] }

  lemma {:induction false} WithoutMembers(ts: seq<string>, t: string)
    ensures forall u :: u in Without(ts, t) <==> u in ts && u != t
    ensures |Without(ts, t)| <= |ts| && (t !in ts ==> Without(ts, t) == ts)
    ensures t in ts ==> |Without(ts, t)| < |ts|
  {
    if ts != [] {
      WithoutMembers(ts[1..], t);
      assert ts == [ts[0]] + ts[1..];
    }
  }

  lemma {:induction false} WithoutNoRepeats(ts: seq<string>, t: string)
    requires NoRepeats(ts)
    ensures NoRepeats(Without(ts, t))
    ensures t in ts ==> |Without(ts, t)| == |ts| - 1
  {
    if ts != [] {
      WithoutNoRepeats(ts[1..], t);
      WithoutMembers(ts[1..], t);
      var rest := Without(ts[1..], t);
      forall j | 0 <= j < |rest| ensures rest[j] != ts[0] {
        assert rest[j] in rest && rest[j] in ts[1..];
      }
      assert ts[0] !in ts[1..];
      assert ts == [ts[0]] + ts[1..];
    }
  }

  lemma AppendNew(ts: seq<string>, t: string)
    requires NoRepeats(ts) && t !in ts
    ensures var more := ts + [t];
            NoRepeats(more) && forall u :: u in more[1..] <==> u in more && u != more[0]
  {
    var more := ts + [t];
    assert more == [more[0]] + more[1..];
    assert more[0] !in more[1..];
  }

  predicate Evicts(order: seq<string>, t: string, cap: nat) { t !in order && |order| + 1 > cap }

  lemma TouchMembers(order: seq<string>, t: string, cap: nat, k: string)
    requires NoRepeats(order)
    ensures NoRepeats(Touch(order, t, cap))
    ensures k in Touch(order, t, cap)
       <==> (k == t || k in order) && !(Evicts(order, t, cap) && k == (order + [t])[0])
  {
    WithoutNoRepeats(order, t);
    WithoutMembers(order, t);
    if t !in order {
      AppendNew(order, t);
    }
  }

  /** What becomes of the entries when one is touched. */
  lemma TouchedEntries<V>(order: seq<string>, m: map<string, V>, t: string, v: V, cap: nat)
    requires NoRepeats(order) && forall k :: k in order <==> k in m
    ensures var after := Touch(order, t, cap);
            && NoRepeats(after)
            && (forall k :: k in after <==> k in Kept(m[t := v], after))
            && Kept(m[t := v], after) == if Evicts(order, t, cap) then m[t := v] - {(order + [t])[0]} else m[t := v]
  {
    TouchMembers(order, t, cap, t);
    hide Touch, NoRepeats, Evicts;
    forall k ensures k in Touch(order, t, cap)
                <==> (k == t || k in order) && !(Evicts(order, t, cap) && k == (order + [t])[0])
    {
      TouchMembers(order, t, cap, k);
    }
  }

  lemma KeptTwice(m: map<string, Bucket>, t: string, b: Bucket, c: Bucket, order: seq<string>)
    ensures var kept := Kept(m[t := b], order);
            (if t in kept then kept[t := c] else kept) == Kept(m[t := c], order)
  {
  }

  /** A new bucket is full, whichever clock reading it starts from. */
  lemma FullWhateverTheClock(limits: Limits, levels: map<string, Bucket>, t: string, created: real, now: real)
    requires created <= now && limits.perMinute > 0.0
    ensures Take(BucketFor(limits, levels, t, created), 1.0, now) == Take(BucketFor(limits, levels, t, now), 1.0, now)
  {
    if t !in levels {
      Product(now - created, limits.Rate());
    }
  }

  class InProcessRateLimiter {
    const limits: Limits
    var order: seq<string>
    var buckets: map<string, TokenBucket>

    ghost predicate Valid()
      reads this
    {
      && NoRepeats(order)
      && (forall t :: t in order <==> t in buckets)
      && (forall t, u | t in buckets && u in buckets && t != u :: buckets[t] != buckets[u])
      && (forall t | t in buckets :: buckets[t].capacity == limits.Burst() && buckets[t].rate == limits.Rate())
    }

    ghost function View(): Table
      reads this, buckets.Values
    {
      Table(order, map t | t in buckets :: buckets[t].Value())
    }

    constructor (limits: Limits)
      ensures Valid() && this.limits == limits && View() == Table([], map[])
    {
      this.limits := limits;
      order, buckets := [], map[];
    }

    /** This bucket is the tenant's, if any is, and no other tenant's. */
    ghost predicate Alone(bucket: TokenBucket, tenant: string)
      reads this
    {
      (tenant in buckets ==> buckets[tenant] == bucket) && forall t | t in buckets && t != tenant :: buckets[t] != bucket
    }

    /** `move_to_end` */
    method Reuse(tenant: string) returns (bucket: TokenBucket)
      requires Valid() && tenant in buckets
      modifies this`order
      ensures Valid() && Alone(bucket, tenant) && order == Touch(old(order), tenant, limits.Cap())
      ensures bucket == buckets[tenant] && buckets == Kept(buckets[tenant := bucket], order)
    {
      hide NoRepeats, Without;
      bucket := buckets[tenant];
      TouchedEntries(order, buckets, tenant, bucket, limits.Cap());
      assert buckets == buckets[tenant := bucket];
      order := Without(order, tenant) + [tenant];
    }

    /** A new bucket, at the end; the first entry goes when there are too many. */
    method Insert(tenant: string, created: real) returns (bucket: TokenBucket)
      requires Valid() && tenant !in buckets
      modifies this
      ensures Valid() && Alone(bucket, tenant) && order == Touch(old(order), tenant, limits.Cap())
      ensures buckets == Kept(old(buckets)[tenant := bucket], order) && fresh(bucket)
      ensures bucket.Value() == Bucket(limits.Burst(), limits.Rate(), limits.Burst(), created)
    {
      hide NoRepeats, Without, Limits.Burst, Limits.Rate;
      bucket := new TokenBucket(limits.Burst(), limits.Rate(), created);
      TouchedEntries(order, buckets, tenant, bucket, limits.Cap());
      buckets := buckets[tenant := bucket];
      order := order + [tenant];
      if |order| > limits.maxTenants {
        buckets := buckets - {order[0]};
        order := order[1..];
      }
    }

    /** The locked section of `check`: finds or makes the tenant's bucket, and evicts. */
    method Admit(tenant: string, created: real) returns (bucket: TokenBucket)
      requires Valid()
      modifies this
      ensures Valid() && Alone(bucket, tenant) && order == Touch(old(order), tenant, limits.Cap())
      ensures buckets == Kept(old(buckets)[tenant := bucket], order)
      ensures if tenant in old(buckets) then bucket == old(buckets)[tenant] else fresh(bucket)
      ensures bucket.Value() == BucketFor(limits, old(View()).levels, tenant, created)
    {
      hide Valid, Touch, Kept;
      if tenant in buckets {
        bucket := Reuse(tenant);
      } else {
        bucket := Insert(tenant, created);
      }
    }

    /** The same, on what the buckets hold. */
    method AdmitLevel(tenant: string, created: real) returns (bucket: TokenBucket)
      requires Valid()
      modifies this
      ensures Valid() && Alone(bucket, tenant)
      ensures tenant in old(buckets) ==> bucket == old(buckets)[tenant]
      ensures tenant !in old(buckets) ==> fresh(bucket)
      ensures bucket.Value() == BucketFor(limits, old(View()).levels, tenant, created)
      ensures View() == Table(Touch(old(order), tenant, limits.Cap()),
                              Kept(old(View()).levels[tenant := bucket.Value()], Touch(old(order), tenant, limits.Cap())))
    {
      hide Touch, NoRepeats, Valid;
      bucket := Admit(tenant, created);
    }

    method Charge(bucket: TokenBucket, tenant: string, now: real) returns (v: Verdict)
      requires Valid() && Alone(bucket, tenant)
      modifies bucket
      ensures Valid()
      ensures v == Take(old(bucket.Value()), 1.0, now).1
      ensures View().order == old(View()).order
      ensures View().levels == if tenant in old(View()).levels
                               then old(View()).levels[tenant := Take(old(bucket.Value()), 1.0, now).0] else old(View()).levels
    {
      hide Take, NoRepeats;
      v := bucket.Consume(1.0, now);
    }

    /** `created` and `now` are the two clock readings; a new bucket is full, so only the second matters. */
    method Check(tenant: string, created: real, now: real) returns (v: Verdict)
      requires Valid() && created <= now
      modifies this, buckets.Values
      ensures Valid()
      ensures (View(), v) == CheckOne(limits, old(View()), tenant, now)
    {
      if limits.perMinute <= 0.0 {
        return Verdict(true, Infinite, Finite(0.0));
      }
      hide Take, Touch, Alone, Kept;
      ghost var before := View();
      var bucket := AdmitLevel(tenant, created);
      FullWhateverTheClock(limits, before.levels, tenant, created, now);
      KeptTwice(before.levels, tenant, bucket.Value(), Take(bucket.Value(), 1.0, now).0, View().order);
      v := Charge(bucket, tenant, now);
    }
  }

  // ---------------------------------------------------------------------------------------
  // Runs of the limiter: who is in it
  // ---------------------------------------------------------------------------------------

  datatype Arrival = Arrival(tenant: string, now: real)

  function Served(limits: Limits, run: seq<Arrival>): Table
    decreases |run|
  {
    if run == [] then Table([], map[])
    else CheckOne(limits, Served(limits, run[..|run| - 1]), run[|run| - 1].tenant, run[|run| - 1].now).0
  }

  /** All tenants ever checked, the one checked last at the end. */
  function Recency(run: seq<Arrival>): seq<string>
    decreases |run|
  {
    if run == [] then [] else Without(Recency(run[..|run| - 1]), run[|run| - 1].tenant) + [run[|run| - 1].tenant]
  }

  /** The distinct tenants checked since this one was. */
  function Since(run: seq<Arrival>, t: string): set<string>
    decreases |run|
  {
    if run == [] || run[|run| - 1].tenant == t then {} else Since(run[..|run| - 1], t) + {run[|run| - 1].tenant}
  }

  function Tenants(run: seq<Arrival>): set<string> { set a | a in run :: a.tenant }

  function LastMany(ts: seq<string>, n: nat): seq<string> { if |ts| <= n then ts else ts[|ts| - n..] }

  lemma {:induction false} WithoutConcat(a: seq<string>, b: seq<string>, t: string)
    ensures Without(a + b, t) == Without(a, t) + Without(b, t)
  {
    if a == [] {
      assert a + b == b;
    } else {
      assert (a + b)[1..] == a[1..] + b;
      WithoutConcat(a[1..], b, t);
    }
  }

  lemma NoRepeatsParts(a: seq<string>, b: seq<string>)
    requires NoRepeats(a + b)
    ensures NoRepeats(a) && NoRepeats(b) && forall t :: !(t in a && t in b)
  {
    var ts := a + b;
    forall i, j | 0 <= i < j < |a| ensures a[i] != a[j] {
      assert ts[i] != ts[j];
    }
    forall i, j | 0 <= i < j < |b| ensures b[i] != b[j] {
      assert ts[|a| + i] != ts[|a| + j];
    }
    forall t | t in a ensures t !in b {
      var i :| 0 <= i < |a| && a[i] == t;
      forall j | 0 <= j < |b| ensures b[j] != t {
        assert ts[i] != ts[|a| + j];
      }
    }
  }

  lemma LastManyConcat(a: seq<string>, b: seq<string>)
    ensures LastMany(a + b, |b|) == b
  {
    if a == [] {
      assert a + b == b;
    }
  }

  lemma TouchPresent(front: seq<string>, s: seq<string>, t: string)
    requires NoRepeats(front + s) && t in s
    ensures Touch(s, t, |s|) == LastMany(Without(front + s, t) + [t], |s|)
  {
    NoRepeatsParts(front, s);
    WithoutConcat(front, s, t);
    WithoutNoRepeats(s, t);
    WithoutMembers(front, t);
    hide Without, NoRepeats, LastMany;
    LastManyConcat(front, Without(s, t) + [t]);
    assert Without(front + s, t) + [t] == front + (Without(s, t) + [t]);
  }

  lemma TouchAbsent(front: seq<string>, s: seq<string>, t: string)
    requires t !in s
    ensures Touch(s, t, |s|) == LastMany(Without(front + s, t) + [t], |s|)
  {
    WithoutConcat(front, s, t);
    WithoutMembers(s, t);
    hide Without, LastMany;
    var more := s + [t];
    LastManyConcat(Without(front, t) + more[..1], more[1..]);
    assert Without(front + s, t) + [t] == (Without(front, t) + more[..1]) + more[1..];
  }

  /** Touching the last few of a recency list gives the last few of the new recency list. */
  lemma TouchLastMany(ts: seq<string>, t: string, cap: nat)
    requires NoRepeats(ts)
    ensures Touch(LastMany(ts, cap), t, cap) == LastMany(Without(ts, t) + [t], cap)
  {
    WithoutMembers(ts, t);
    hide Without, NoRepeats;
    if |ts| > cap {
      var front, s := ts[..|ts| - cap], ts[|ts| - cap..];
      assert ts == front + s;
      if t in s {
        TouchPresent(front, s, t);
      } else {
        TouchAbsent(front, s, t);
      }
    }
  }

  lemma {:induction false} RecencyList(run: seq<Arrival>)
    ensures NoRepeats(Recency(run))
    ensures forall t :: t in Recency(run) <==> t in Tenants(run)
    decreases |run|
  {
    if run != [] {
      var front, last := run[..|run| - 1], run[|run| - 1];
      assert run == front + [last];
      RecencyList(front);
      WithoutNoRepeats(Recency(front), last.tenant);
      WithoutMembers(Recency(front), last.tenant);
    }
  }

  /** Dictionary order is recency order: the dictionary holds exactly the tenants checked last. */
  lemma {:induction false} OrderIsRecency(limits: Limits, run: seq<Arrival>)
    requires limits.perMinute > 0.0
    ensures Served(limits, run).order == LastMany(Recency(run), limits.Cap())
    ensures forall t :: t in Served(limits, run).order <==> t in Served(limits, run).levels
    decreases |run|
  {
    if run != [] {
      var front, last := run[..|run| - 1], run[|run| - 1];
      var before := Served(limits, front);
      OrderIsRecency(limits, front);
      RecencyList(front);
      TouchLastMany(Recency(front), last.tenant, limits.Cap());
      LastManyNoRepeats(Recency(front), limits.Cap());
      TouchedEntries(before.order, before.levels, last.tenant,
                     Take(BucketFor(limits, before.levels, last.tenant, last.now), 1.0, last.now).0, limits.Cap());
      hide Touch, Take, Recency, LastMany, NoRepeats;
    }
  }

  lemma LastManyNoRepeats(ts: seq<string>, n: nat)
    requires NoRepeats(ts)
    ensures NoRepeats(LastMany(ts, n))
  {
    if |ts| > n {
      assert ts == ts[..|ts| - n] + ts[|ts| - n..];
      NoRepeatsParts(ts[..|ts| - n], ts[|ts| - n..]);
    }
  }

  /** What stands behind a tenant in a list. */
  function Behind(ts: seq<string>, t: string): seq<string> {
    if ts == [] then [] else if ts[0] == t then ts[1..] else Behind(ts[1..], t)
  }

  lemma {:induction false} BehindTouched(ts: seq<string>, u: string, t: string)
    requires u in ts && t != u
    ensures Behind(Without(ts, t) + [t], u) == Without(Behind(ts, u), t) + [t]
  {
    var rest := Without(ts[1..], t);
    if ts[0] == u {
      assert (Without(ts, t) + [t])[1..] == rest + [t];
    } else {
      BehindTouched(ts[1..], u, t);
      if ts[0] != t {
        assert (Without(ts, t) + [t])[1..] == rest + [t];
      } else {
        assert Without(ts, t) == rest;
      }
    }
  }

  lemma {:induction false} BehindLast(ts: seq<string>, t: string)
    requires t !in ts
    ensures Behind(ts + [t], t) == []
  {
    if ts != [] {
      assert (ts + [t])[1..] == ts[1..] + [t];
      BehindLast(ts[1..], t);
    }
  }

  lemma {:induction false} BehindIsSince(run: seq<Arrival>, u: string)
    requires u in Recency(run)
    ensures forall t :: t in Behind(Recency(run), u) <==> t in Since(run, u)
    decreases |run|
  {
    var front, last := run[..|run| - 1], run[|run| - 1];
    WithoutMembers(Recency(front), last.tenant);
    if last.tenant == u {
      BehindLast(Without(Recency(front), u), u);
    } else {
      BehindIsSince(front, u);
      BehindTouched(Recency(front), u, last.tenant);
      WithoutMembers(Behind(Recency(front), u), last.tenant);
    }
  }

  lemma {:induction false} BehindCounts(ts: seq<string>, t: string, n: nat)
    requires NoRepeats(ts) && t in ts
    ensures NoRepeats(Behind(ts, t))
    ensures t in LastMany(ts, n) <==> |Behind(ts, t)| < n
  {
    assert ts == [ts[0]] + ts[1..];
    NoRepeatsParts([ts[0]], ts[1..]);
    if ts[0] != t {
      BehindCounts(ts[1..], t, n);
      if |ts| == n + 1 {
        assert LastMany(ts, n) == ts[1..];
      } else if |ts| > n {
        assert LastMany(ts, n) == LastMany(ts[1..], n);
      }
    } else if |ts| > n {
      assert LastMany(ts, n) == ts[1..][|ts| - n - 1..];
    }
  }

  lemma {:induction false} CountDistinct(ts: seq<string>, s: set<string>)
    requires NoRepeats(ts) && forall t :: t in ts <==> t in s
    ensures |ts| == |s|
  {
    if ts == [] {
      assert s == {};
    } else {
      assert ts == [ts[0]] + ts[1..];
      NoRepeatsParts([ts[0]], ts[1..]);
      CountDistinct(ts[1..], s - {ts[0]});
    }
  }

  /** A tenant that was checked is still in the limiter exactly while fewer than `max_tenants` distinct others
      have been checked since. */
  lemma EvictedIff(limits: Limits, run: seq<Arrival>, t: string)
    requires limits.perMinute > 0.0
    ensures t in Served(limits, run).levels <==> t in Tenants(run) && |Since(run, t)| < limits.Cap()
  {
    var r := Recency(run);
    OrderIsRecency(limits, run);
    RecencyList(run);
    if t in r {
      BehindIsSince(run, t);
      BehindCounts(r, t, limits.Cap());
      CountDistinct(Behind(r, t), Since(run, t));
    } else {
      assert forall u :: u in LastMany(r, limits.Cap()) ==> u in r;
    }
  }

  // ---------------------------------------------------------------------------------------
  // Against a limiter that never evicts
  // ---------------------------------------------------------------------------------------

  function Unbounded(limits: Limits, run: seq<Arrival>): map<string, Bucket>
    decreases |run|
  {
    if run == [] then map[]
    else
      var before, last := Unbounded(limits, run[..|run| - 1]), run[|run| - 1];
      before[last.tenant := Take(BucketFor(limits, before, last.tenant, last.now), 1.0, last.now).0]
  }

  /** The verdict on an arrival after a run, with and without the cap. */
  function VerdictAfter(limits: Limits, run: seq<Arrival>, a: Arrival): Verdict {
    CheckOne(limits, Served(limits, run), a.tenant, a.now).1
  }

  function UnboundedVerdict(limits: Limits, run: seq<Arrival>, a: Arrival): Verdict {
    Take(BucketFor(limits, Unbounded(limits, run), a.tenant, a.now), 1.0, a.now).1
  }

  lemma {:induction false} NothingEvicted(limits: Limits, run: seq<Arrival>)
    requires limits.perMinute > 0.0 && |Tenants(run)| <= limits.Cap()
    ensures Served(limits, run).levels == Unbounded(limits, run)
    decreases |run|
  {
    if run != [] {
      var front, last := run[..|run| - 1], run[|run| - 1];
      var before := Served(limits, front);
      assert run == front + [last];
      assert Tenants(run) == Tenants(front) + {last.tenant};
      assert Tenants(run) == Tenants(front) + (Tenants(run) - Tenants(front));
      NothingEvicted(limits, front);
      OrderIsRecency(limits, front);
      RecencyList(front);
      CountDistinct(Recency(front), Tenants(front));
      WithoutMembers(before.order, last.tenant);
      assert before.order == Recency(front);
      assert !Evicts(before.order, last.tenant, limits.Cap());
      TouchedEntries(before.order, before.levels, last.tenant,
                     Take(BucketFor(limits, before.levels, last.tenant, last.now), 1.0, last.now).0, limits.Cap());
      hide Touch, Take, Recency, LastMany, NoRepeats, Without;
    }
  }

  /** On a run that touches at most `max_tenants` tenants the cap changes no verdict. */
  lemma CapTransparent(limits: Limits, run: seq<Arrival>, a: Arrival)
    requires limits.perMinute > 0.0 && |Tenants(run)| <= limits.Cap()
    ensures VerdictAfter(limits, run, a) == UnboundedVerdict(limits, run, a)
  {
    hide Take;
    NothingEvicted(limits, run);
  }

  function Count(b: bool): int { if b then 1 else 0 }

  /** How many more of the tenant's calls were allowed than without the cap. */
  function Gain(limits: Limits, run: seq<Arrival>, t: string): int
    decreases |run|
  {
    if run == [] then 0
    else
      var front, last := run[..|run| - 1], run[|run| - 1];
      Gain(limits, front, t)
      + if last.tenant != t then 0
        else Count(VerdictAfter(limits, front, last).allowed) - Count(UnboundedVerdict(limits, front, last).allowed)
  }

  /** One call against two buckets, where the first holds more once its extra grants are counted back in. */
  lemma StepGains(b: Bucket, u: Bucket, gain: int, now: real)
    requires gain >= 0 && Level(b, now) + gain as real >= Level(u, now)
    ensures var (b', vb) := Take(b, 1.0, now);
            var (u', vu) := Take(u, 1.0, now);
            var gain' := gain + Count(vb.allowed) - Count(vu.allowed);
            gain' >= 0 && b'.tokens + gain' as real >= u'.tokens && b'.updatedAt == u'.updatedAt == now
  {
  }

  lemma InflowKeepsGain(cap: real, x: real, y: real, flow: real, gain: real)
    requires flow >= 0.0 && gain >= 0.0 && x + gain >= y
    ensures Min(cap, x + flow) + gain >= Min(cap, y + flow)
  {
  }

  lemma FullStaysFull(b: Bucket, now: real)
    requires Sane(b) && b.tokens == b.capacity
    ensures Level(b, now) == b.capacity
  {
    Product(Max(0.0, now - b.updatedAt), b.rate);
  }

  lemma LevelsGain(b: Bucket, u: Bucket, gain: int, now: real)
    requires Sane(b) && Sane(u) && b.capacity == u.capacity && b.rate == u.rate && gain >= 0
    requires b.tokens == b.capacity || (b.updatedAt == u.updatedAt && b.tokens + gain as real >= u.tokens)
    ensures Level(b, now) + gain as real >= Level(u, now)
  {
    if b.tokens == b.capacity {
      FullStaysFull(b, now);
    } else {
      Product(Max(0.0, now - b.updatedAt), b.rate);
      InflowKeepsGain(b.capacity, b.tokens, u.tokens, Max(0.0, now - b.updatedAt) * b.rate, gain as real);
    }
  }

  predicate Issued(limits: Limits, b: Bucket) { Sane(b) && b.capacity == limits.Burst() && b.rate == limits.Rate() }

  ghost predicate GainOk(limits: Limits, run: seq<Arrival>, t: string) {
    var capped, free := Served(limits, run).levels, Unbounded(limits, run);
    var gain := Gain(limits, run, t);
    && gain >= 0
    && (t in free ==> Issued(limits, free[t]))
    && (t in capped ==>
          && t in free && Issued(limits, capped[t])
          && capped[t].updatedAt == free[t].updatedAt && capped[t].tokens + gain as real >= free[t].tokens)
  }

  lemma TakeIssued(limits: Limits, b: Bucket, now: real)
    requires Issued(limits, b)
    ensures Issued(limits, Take(b, 1.0, now).0)
  {
    TakeSane(b, 1.0, now);
  }

  lemma {:induction false} GainKept(limits: Limits, run: seq<Arrival>, t: string)
    requires limits.perMinute > 0.0 && limits.Burst() >= 0.0
    ensures GainOk(limits, run, t)
    decreases |run|
  {
    if run != [] {
      var front, last := run[..|run| - 1], run[|run| - 1];
      GainKept(limits, front, t);
      var capped, free := Served(limits, front).levels, Unbounded(limits, front);
      if last.tenant == t {
        var b, u := BucketFor(limits, capped, t, last.now), BucketFor(limits, free, t, last.now);
        assert Issued(limits, b) && Issued(limits, u);
        LevelsGain(b, u, Gain(limits, front, t), last.now);
        StepGains(b, u, Gain(limits, front, t), last.now);
        TakeIssued(limits, b, last.now);
        TakeIssued(limits, u, last.now);
        hide Take, Sane, Touch, BucketFor;
      } else {
        hide Take, Sane, Touch, BucketFor;
      }
    }
  }

  /** The cap only ever adds permissions: at every moment each tenant has had at least as many calls allowed as a
      limiter that never evicts would have allowed it. */
  lemma CapNeverCosts(limits: Limits, run: seq<Arrival>, t: string)
    requires limits.perMinute > 0.0 && limits.Burst() >= 0.0
    ensures Gain(limits, run, t) >= 0
  {
    GainKept(limits, run, t);
  }

  lemma AppendArrival(limits: Limits, run: seq<Arrival>, a: Arrival)
    ensures Served(limits, run + [a]) == CheckOne(limits, Served(limits, run), a.tenant, a.now).0
    ensures var free := Unbounded(limits, run);
            Unbounded(limits, run + [a]) == free[a.tenant := Take(BucketFor(limits, free, a.tenant, a.now), 1.0, a.now).0]
  {
    hide CheckOne, Take, BucketFor;
    assert (run + [a])[..|run|] == run;
  }

  // ---------------------------------------------------------------------------------------
  // When a single verdict is harsher for the cap
  // ---------------------------------------------------------------------------------------

  /** Refused, where a limiter that never evicts would have allowed. */
  predicate Harsher(limits: Limits, run: seq<Arrival>, a: Arrival) {
    !VerdictAfter(limits, run, a).allowed && UnboundedVerdict(limits, run, a).allowed
  }

  lemma {:induction false} Capacity(limits: Limits, run: seq<Arrival>)
    ensures forall t | t in Unbounded(limits, run) :: Unbounded(limits, run)[t].capacity == limits.Burst()
    decreases |run|
  {
    if run != [] {
      Capacity(limits, run[..|run| - 1]);
      hide Level, Limits.Burst, Limits.Rate;
    }
  }

  lemma NeedsBurst(limits: Limits, run: seq<Arrival>, a: Arrival)
    ensures UnboundedVerdict(limits, run, a).allowed ==> limits.Burst() >= 1.0
  {
    Capacity(limits, run);
    hide Limits.Burst, Limits.Rate, Unbounded;
  }

  /** A tenant is treated more harshly only after the cap has given it at least one call more. */
  lemma {:induction false} HarsherWasPaid(limits: Limits, run: seq<Arrival>, a: Arrival)
    requires Harsher(limits, run, a)
    ensures Gain(limits, run, a.tenant) >= 1
  {
    NeedsBurst(limits, run, a);
    GainKept(limits, run, a.tenant);
    var capped, free := Served(limits, run).levels, Unbounded(limits, run);
    var b, u := BucketFor(limits, capped, a.tenant, a.now), BucketFor(limits, free, a.tenant, a.now);
    assert Issued(limits, b) && Issued(limits, u);
    LevelsGain(b, u, Gain(limits, run, a.tenant), a.now);
    hide Level, Gain, Served, Unbounded, Sane;
  }

  /** The tenant was never evicted: each time, fewer than `max_tenants` others had been checked since. */
  predicate NeverEvicted(limits: Limits, run: seq<Arrival>, t: string) {
    forall n | 0 <= n <= |run| && t in Tenants(run[..n]) :: |Since(run[..n], t)| < limits.Cap()
  }

  lemma {:induction false} UnboundedTenants(limits: Limits, run: seq<Arrival>)
    ensures forall t :: t in Unbounded(limits, run) <==> t in Tenants(run)
    decreases |run|
  {
    if run != [] {
      assert run == run[..|run| - 1] + [run[|run| - 1]];
      UnboundedTenants(limits, run[..|run| - 1]);
      hide Take, BucketFor;
    }
  }

  lemma NeverEvictedFront(limits: Limits, run: seq<Arrival>, t: string)
    requires run != [] && NeverEvicted(limits, run, t)
    ensures NeverEvicted(limits, run[..|run| - 1], t)
    ensures t in Tenants(run) ==> |Since(run, t)| < limits.Cap()
  {
    var front := run[..|run| - 1];
    assert run[..|run|] == run;
    forall n | 0 <= n <= |front| && t in Tenants(front[..n]) ensures |Since(front[..n], t)| < limits.Cap() {
      assert front[..n] == run[..n];
    }
  }

  /** While a tenant is never evicted its bucket is the one it would have without the cap. */
  lemma {:induction false} SameBucket(limits: Limits, run: seq<Arrival>, t: string)
    requires limits.perMinute > 0.0 && NeverEvicted(limits, run, t)
    ensures var capped, free := Served(limits, run).levels, Unbounded(limits, run);
            (t in capped <==> t in free) && (t in free ==> capped[t] == free[t])
    decreases |run|
  {
    EvictedIff(limits, run, t);
    UnboundedTenants(limits, run);
    if run != [] {
      NeverEvictedFront(limits, run, t);
      SameBucket(limits, run[..|run| - 1], t);
      hide Take, Touch, Since, Tenants, NeverEvicted;
    }
  }

  /** Without an eviction of the tenant itself the cap changes no verdict on it, however many others there are. */
  lemma {:induction false} NeverEvictedSame(limits: Limits, run: seq<Arrival>, a: Arrival)
    requires limits.perMinute > 0.0 && NeverEvicted(limits, run, a.tenant)
    ensures VerdictAfter(limits, run, a) == UnboundedVerdict(limits, run, a)
  {
    SameBucket(limits, run, a.tenant);
    hide Take, NeverEvicted, Served, Unbounded;
  }

  // --- a run that ends in a harsher verdict ----------------------------------------------

  function Calls(t: string, k: nat, now: real): seq<Arrival> { if k == 0 then [] else Calls(t, k - 1, now) + [Arrival(t, now)] }

  function Name(n: nat): string { if n == 0 then "" else Name(n - 1) + "x" }

  lemma {:induction false} NameLength(n: nat)
    ensures |Name(n)| == n
  {
    if n > 0 {
      NameLength(n - 1);
    }
  }

  /** n tenants, none of them the one without a name. */
  function Others(n: nat, now: real): seq<Arrival> { if n == 0 then [] else Others(n - 1, now) + [Arrival(Name(n), now)] }

  /** A bucket after k calls at one time. */
  function Drained(b: Bucket, k: nat, now: real): Bucket { if k == 0 then b else Take(Drained(b, k - 1, now), 1.0, now).0 }

  lemma OneCallMore(run: seq<Arrival>, t: string, k: nat, now: real)
    requires k > 0
    ensures run + Calls(t, k, now) == run + Calls(t, k - 1, now) + [Arrival(t, now)]
    ensures run + Calls(t, 0, now) == run
  {
  }

  lemma OneOtherMore(run: seq<Arrival>, n: nat, now: real)
    requires n > 0
    ensures run + Others(n, now) == run + Others(n - 1, now) + [Arrival(Name(n), now)]
  {
    hide Name;
  }

  lemma {:induction false} UnboundedCalls(limits: Limits, run: seq<Arrival>, t: string, k: nat, now: real)
    requires k > 0
    ensures var after := Unbounded(limits, run + Calls(t, k, now));
            t in after && after[t] == Drained(BucketFor(limits, Unbounded(limits, run), t, now), k, now)
  {
    hide Take, Unbounded, CheckOne, Served, Calls;
    OneCallMore(run, t, k, now);
    AppendArrival(limits, run + Calls(t, k - 1, now), Arrival(t, now));
    if k > 1 {
      UnboundedCalls(limits, run, t, k - 1, now);
    }
  }

  lemma OtherCall(limits: Limits, run: seq<Arrival>, a: Arrival, t: string)
    requires t in Unbounded(limits, run) && a.tenant != t
    ensures var after := Unbounded(limits, run + [a]); t in after && after[t] == Unbounded(limits, run)[t]
  {
    AppendArrival(limits, run, a);
    hide Take, Unbounded, CheckOne, Served, BucketFor;
  }

  lemma {:induction false} UnboundedOthers(limits: Limits, run: seq<Arrival>, n: nat, now: real)
    requires "" in Unbounded(limits, run)
    ensures var after := Unbounded(limits, run + Others(n, now)); "" in after && after[""] == Unbounded(limits, run)[""]
  {
    hide Unbounded, Others, Name;
    if n == 0 {
      NoOthers(run, now);
    } else {
      OneOtherMore(run, n, now);
      UnboundedOthers(limits, run, n - 1, now);
      NameLength(n);
      OtherCall(limits, run + Others(n - 1, now), Arrival(Name(n), now), "");
    }
  }

  lemma NoOthers(run: seq<Arrival>, now: real)
    ensures run + Others(0, now) == run
  {
  }

  function Names(n: nat): set<string> { if n == 0 then {} else Names(n - 1) + {Name(n)} }

  lemma {:induction false} NamesCount(n: nat)
    ensures |Names(n)| == n && forall t | t in Names(n) :: |t| <= n
  {
    if n > 0 {
      NamesCount(n - 1);
      NameLength(n);
      assert Name(n) !in Names(n - 1);
    }
  }

  lemma SinceOne(front: seq<Arrival>, a: Arrival, t: string)
    requires a.tenant != t
    ensures Since(front + [a], t) == Since(front, t) + {a.tenant}
  {
    assert (front + [a])[..|front|] == front;
  }

  lemma {:induction false} SinceOthers(run: seq<Arrival>, n: nat, now: real)
    requires run != [] && run[|run| - 1].tenant == ""
    ensures Since(run + Others(n, now), "") == Names(n)
  {
    if n == 0 {
      assert run + Others(0, now) == run;
    } else {
      var front := run + Others(n - 1, now);
      assert run + Others(n, now) == front + [Arrival(Name(n), now)];
      SinceOthers(run, n - 1, now);
      NameLength(n);
      SinceOne(front, Arrival(Name(n), now), "");
      hide Since, Name;
    }
  }

  /** The tenant just checked is in the limiter, with what its call left it. */
  lemma JustChecked(limits: Limits, run: seq<Arrival>, a: Arrival)
    requires limits.perMinute > 0.0 && limits.Cap() > 0
    ensures var levels := Served(limits, run).levels;
            var after := Served(limits, run + [a]).levels;
            a.tenant in after && after[a.tenant] == Take(BucketFor(limits, levels, a.tenant, a.now), 1.0, a.now).0
  {
    AppendArrival(limits, run, a);
    OrderIsRecency(limits, run);
    RecencyList(run);
    LastManyNoRepeats(Recency(run), limits.Cap());
    TouchMembers(Served(limits, run).order, a.tenant, limits.Cap(), a.tenant);
    hide Take, Touch, Served, Unbounded, Recency, LastMany, NoRepeats;
  }

  lemma {:induction false} ServedCalls(limits: Limits, run: seq<Arrival>, t: string, k: nat, now: real)
    requires k > 0 && limits.perMinute > 0.0 && limits.Cap() > 0
    ensures var after := Served(limits, run + Calls(t, k, now)).levels;
            t in after && after[t] == Drained(BucketFor(limits, Served(limits, run).levels, t, now), k, now)
  {
    hide Take, Served, Calls;
    OneCallMore(run, t, k, now);
    JustChecked(limits, run + Calls(t, k - 1, now), Arrival(t, now));
    if k > 1 {
      ServedCalls(limits, run, t, k - 1, now);
    }
  }

  lemma {:induction false} DrainedFull(b: Bucket, k: nat, now: real)
    requires Sane(b) && b.updatedAt == now && k as real <= b.tokens
    ensures Drained(b, k, now) == b.(tokens := b.tokens - k as real)
  {
    if k > 0 {
      DrainedFull(b, k - 1, now);
    }
  }

  /** Below one token every call is refused and only moves the clock reading. */
  lemma {:induction false} DrainedDry(b: Bucket, k: nat, now: real)
    requires Sane(b) && k > 0 && Level(b, now) < 1.0
    ensures Drained(b, k, now) == b.(tokens := Level(b, now), updatedAt := now)
  {
    TakeSane(b, 1.0, now);
    if k > 1 {
      DrainedDry(b, k - 1, now);
    }
  }

  /** How long it takes to fill up from one level to another. */
  lemma FillTime(rest: real, level: real, rate: real) returns (wait: real)
    requires rate > 0.0 && rest <= level
    ensures wait >= 0.0 && wait * rate == level - rest
  {
    wait := (level - rest) / rate;
    Quotient(0.0, level - rest, rate);
  }

  /** A bucket short of a token refuses every call until the token is there. */
  lemma DryThenOne(b: Bucket, m: nat, wait: real, gap: real, short: real)
    requires Sane(b) && m > 0 && b.tokens <= short < 1.0 <= b.capacity && wait >= 0.0 && gap >= 0.0
    requires wait * b.rate == short - b.tokens && gap * b.rate == 1.0 - short
    ensures Take(Drained(b, m, b.updatedAt + wait), 1.0, b.updatedAt + wait + gap).1.allowed
  {
    LevelAfter(b, wait, short);
    DrainedDry(b, m, b.updatedAt + wait);
    LevelAfter(b.(tokens := short, updatedAt := b.updatedAt + wait), gap, 1.0);
    hide Level, Drained;
  }

  /** A full bucket grants its burst, and the next call finds it short. */
  lemma FullThenShort(b: Bucket, m: nat, gap: real, rest: real, gain: real)
    requires Sane(b) && b.tokens == b.capacity == m as real + rest
    requires 0.0 <= rest && gap >= 0.0 && rest + gain < 1.0 && rest + gain <= b.capacity
    requires gap * b.rate == gain
    ensures !Take(Drained(b, m, b.updatedAt), 1.0, b.updatedAt + gap).1.allowed
  {
    DrainedFull(b, m, b.updatedAt);
    LevelAfter(b.(tokens := rest), gap, rest + gain);
    hide Level, Drained;
  }

  lemma LevelAfter(b: Bucket, wait: real, level: real)
    requires wait >= 0.0 && level <= b.capacity && wait * b.rate == level - b.tokens
    ensures Level(b, b.updatedAt + wait) == level
  {
  }

  lemma FreeAllows(limits: Limits, run: seq<Arrival>, m: nat, b: Bucket, wait: real, gap: real, short: real)
    requires "" in Unbounded(limits, run) && Unbounded(limits, run)[""] == b
    requires Sane(b) && m > 0 && b.tokens <= short < 1.0 <= b.capacity && wait >= 0.0 && gap >= 0.0
    requires wait * b.rate == short - b.tokens && gap * b.rate == 1.0 - short
    ensures var t := b.updatedAt + wait; UnboundedVerdict(limits, run + Calls("", m, t), Arrival("", t + gap)).allowed
  {
    hide Unbounded, Calls, Take, Drained, Sane;
    UnboundedCalls(limits, run, "", m, b.updatedAt + wait);
    DryThenOne(b, m, wait, gap, short);
  }

  lemma CappedRefuses(limits: Limits, run: seq<Arrival>, m: nat, b: Bucket, gap: real, rest: real, gain: real)
    requires "" !in Served(limits, run).levels && limits.perMinute > 0.0 && limits.Cap() > 0 && m > 0
    requires b == Bucket(limits.Burst(), limits.Rate(), limits.Burst(), b.updatedAt)
    requires Sane(b) && b.capacity == m as real + rest
    requires 0.0 <= rest && gap >= 0.0 && rest + gain < 1.0 && rest + gain <= b.capacity
    requires gap * b.rate == gain
    ensures !VerdictAfter(limits, run + Calls("", m, b.updatedAt), Arrival("", b.updatedAt + gap)).allowed
  {
    hide Served, Calls, Take, Drained, Sane, VerdictAfter;
    ServedCalls(limits, run, "", m, b.updatedAt);
    VerdictIs(limits, run + Calls("", m, b.updatedAt), Arrival("", b.updatedAt + gap));
    FullThenShort(b, m, gap, rest, gain);
  }

  lemma VerdictIs(limits: Limits, run: seq<Arrival>, a: Arrival)
    requires limits.perMinute > 0.0
    ensures VerdictAfter(limits, run, a) == Take(BucketFor(limits, Served(limits, run).levels, a.tenant, a.now), 1.0, a.now).1
  {
    hide Take, BucketFor;
  }

  lemma RateSane(limits: Limits)
    requires limits.perMinute > 0.0
    ensures limits.Rate() > 0.0
  {
  }

  /** The run: the tenant uses up its burst, is evicted, comes back a little short of a token, uses up a new burst
      that would have been refused, and is refused the call for which the token would by then have been there. */
  lemma HarsherRun(limits: Limits) returns (run: seq<Arrival>, a: Arrival)
    requires limits.perMinute > 0.0 && limits.Burst() >= 1.0 && limits.Cap() > 0
    ensures Harsher(limits, run, a)
  {
    hide Served, Unbounded, Limits.Burst, Limits.Rate, Limits.Cap, Calls, Others, UnboundedVerdict, VerdictAfter;
    var burst, rate := limits.Burst(), limits.Rate();
    var m: nat := burst.Floor;
    var rest := burst - m as real;
    var short := (1.0 + rest) / 2.0;
    RateSane(limits);
    var wait := FillTime(rest, short, rate);
    var gap := FillTime(short, 1.0, rate);
    var others := [] + Calls("", m, 0.0) + Others(limits.Cap(), 0.0);
    FirstBurst(limits, m);
    UnboundedOthers(limits, [] + Calls("", m, 0.0), limits.Cap(), 0.0);
    Gone(limits, m);
    run, a := others + Calls("", m, wait), Arrival("", wait + gap);
    Diverge(limits, others, m, Bucket(burst, rate, rest, 0.0), Bucket(burst, rate, burst, wait), wait, gap, short);
  }

  lemma Diverge(limits: Limits, run: seq<Arrival>, m: nat, used: Bucket, full: Bucket, wait: real, gap: real, short: real)
    requires limits.perMinute > 0.0 && limits.Cap() > 0 && m > 0 && wait >= 0.0 && gap >= 0.0
    requires "" in Unbounded(limits, run) && Unbounded(limits, run)[""] == used && "" !in Served(limits, run).levels
    requires full == Bucket(limits.Burst(), limits.Rate(), limits.Burst(), wait) && used.updatedAt == 0.0
    requires Sane(used) && Sane(full) && used.capacity == full.capacity == m as real + used.tokens && used.rate == full.rate
    requires used.tokens <= short < 1.0 <= used.capacity && used.tokens + (1.0 - short) < 1.0
    requires wait * used.rate == short - used.tokens && gap * used.rate == 1.0 - short
    ensures Harsher(limits, run + Calls("", m, wait), Arrival("", wait + gap))
  {
    hide Served, Unbounded, Limits.Burst, Limits.Rate, Limits.Cap, Calls, UnboundedVerdict, VerdictAfter;
    FreeAllows(limits, run, m, used, wait, gap, short);
    CappedRefuses(limits, run, m, full, gap, used.tokens, 1.0 - short);
  }

  lemma FirstBurst(limits: Limits, m: nat)
    requires limits.perMinute > 0.0 && limits.Burst() >= 1.0 && m == limits.Burst().Floor
    ensures var free := Unbounded(limits, [] + Calls("", m, 0.0));
            "" in free
            && free[""] == Bucket(limits.Burst(), limits.Rate(), limits.Burst() - m as real, 0.0)
  {
    NoArrivals(limits);
    UnboundedCalls(limits, [], "", m, 0.0);
    hide Unbounded;
    DrainedFull(Bucket(limits.Burst(), limits.Rate(), limits.Burst(), 0.0), m, 0.0);
  }

  /** As many others as the cap holds push the tenant out. */
  lemma Gone(limits: Limits, m: nat)
    requires limits.perMinute > 0.0 && m > 0
    ensures "" !in Served(limits, [] + Calls("", m, 0.0) + Others(limits.Cap(), 0.0)).levels
  {
    SinceOthers([] + Calls("", m, 0.0), limits.Cap(), 0.0);
    NamesCount(limits.Cap());
    hide Served, Since, Names;
    EvictedIff(limits, [] + Calls("", m, 0.0) + Others(limits.Cap(), 0.0), "");
  }

  /** Evicting can turn an allowed call into a refused one exactly in a limiter that is enabled, admits a request at
      all, and holds anyone at all. */
  lemma {:induction false} HarsherIff(limits: Limits)
    ensures (exists run, a :: Harsher(limits, run, a))
       <==> limits.perMinute > 0.0 && limits.Burst() >= 1.0 && limits.maxTenants > 0
  {
    if run, a :| Harsher(limits, run, a) {
      NeedsBurst(limits, run, a);
      if limits.perMinute > 0.0 && limits.Cap() == 0 {
        EmptyLimiter(limits, run, a);
      }
    }
    if limits.perMinute > 0.0 && limits.Burst() >= 1.0 && limits.maxTenants > 0 {
      var run, a := HarsherRun(limits);
    }
  }

  /** A limiter that holds nobody gives every call a full bucket. */
  lemma EmptyLimiter(limits: Limits, run: seq<Arrival>, a: Arrival)
    requires limits.perMinute > 0.0 && limits.Cap() == 0 && limits.Burst() >= 1.0
    ensures VerdictAfter(limits, run, a).allowed
  {
    EvictedIff(limits, run, a.tenant);
  }

  lemma NoArrivals(limits: Limits)
    ensures Served(limits, []) == Table([], map[]) && Unbounded(limits, []) == map[]
  {
  }
}
