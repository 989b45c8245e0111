/** The client in front of the service: circuit breaker, bounded retries, what an unanswered evaluation means,
    and the wait for a human. */
module Sdk {
  import opened Order
  import opened Reals

  // ---------------------------------------------------------------------------------------
  // Circuit breaker
  // ---------------------------------------------------------------------------------------

  datatype Breaker = Breaker(threshold: int, cooldown: real, failures: nat, openedAt: Option<real>)

  /** What happens to a breaker: it is asked whether it is open, or told of a success or a failure. */
  datatype Signal = Ask(now: real) | Success | Failure(now: real)

  predicate OpenAt(b: Breaker, now: real) { b.openedAt.Some? && now - b.openedAt.value < b.cooldown }

  function Note(b: Breaker, s: Signal): Breaker {
    match s
    case Ask(now) => if b.openedAt.Some? && !OpenAt(b, now) then b.(openedAt := None, failures := 0) else b
    case Success => b.(openedAt := None, failures := 0)
    case Failure(now) =>
      b.(failures := b.failures + 1, openedAt := if b.failures + 1 >= b.threshold then Some(now) else b.openedAt)
  }

  class CircuitBreaker {
    const threshold: int
    const cooldown: real
    var failures: nat
    var openedAt: Option<real>

    constructor (threshold: int, cooldown: real)
      ensures Value() == Breaker(threshold, cooldown, 0, None)
    {
      this.threshold, this.cooldown := threshold, cooldown;
      failures, openedAt := 0, None;
    }

    function Value(): Breaker
      reads this
    {
      Breaker(threshold, cooldown, failures, openedAt)
    }

    method IsOpen(now: real) returns (open: bool)
      modifies this
      ensures open == OpenAt(old(Value()), now) && Value() == Note(old(Value()), Ask(now))
    {
      if openedAt == None {
        return false;
      }
      if now - openedAt.value >= cooldown {
        openedAt, failures := None, 0;
        return false;
      }
      return true;
    }

    method RecordSuccess()
      modifies this
      ensures Value() == Note(old(Value()), Success)
    {
      failures, openedAt := 0, None;
    }

    method RecordFailure(now: real)
      modifies this
      ensures Value() == Note(old(Value()), Failure(now))
    {
      failures := failures + 1;
      if failures >= threshold {
        openedAt := Some(now);
      }
    }
  }

  function AfterSignals(threshold: int, cooldown: real, signals: seq<Signal>): Breaker {
    if signals == [] then Breaker(threshold, cooldown, 0, None)
    else Note(AfterSignals(threshold, cooldown, signals[..|signals| - 1]), signals[|signals| - 1])
  }

  /** The streak trips the breaker at this moment. */
  predicate Trips(threshold: int, cooldown: real, streak: seq<real>, now: real) {
    streak != [] && |streak| >= threshold && now - streak[|streak| - 1] < cooldown
  }

  /** The failures in a row, by time: a success ends the streak, and so does being asked once a long enough streak
      has cooled down. */
  function Streak(threshold: int, cooldown: real, signals: seq<Signal>): seq<real> {
    if signals == [] then []
    else
      var before := Streak(threshold, cooldown, signals[..|signals| - 1]);
      match signals[|signals| - 1]
      case Success => []
      case Failure(now) => before + [now]
      case Ask(now) =>
        if before != [] && |before| >= threshold && !Trips(threshold, cooldown, before, now) then [] else before
  }

  lemma {:induction false} CountsStreak(threshold: int, cooldown: real, signals: seq<Signal>)
    ensures var b := AfterSignals(threshold, cooldown, signals);
            var streak := Streak(threshold, cooldown, signals);
            && b.threshold == threshold && b.cooldown == cooldown && b.failures == |streak|
            && b.openedAt == if streak != [] && |streak| >= threshold then Some(streak[|streak| - 1]) else None
  {
    if signals != [] {
      CountsStreak(threshold, cooldown, signals[..|signals| - 1]);
    }
  }

  /** Open exactly while the current streak of failures has reached the threshold and its last failure is more recent
      than the cooldown. */
  lemma OpenIff(threshold: int, cooldown: real, signals: seq<Signal>, now: real)
    ensures OpenAt(AfterSignals(threshold, cooldown, signals), now)
       <==> Trips(threshold, cooldown, Streak(threshold, cooldown, signals), now)
  {
    CountsStreak(threshold, cooldown, signals);
  }

  // ---------------------------------------------------------------------------------------
  // Requests
  // ---------------------------------------------------------------------------------------

  /** One attempt at a request. `body` is the decision the response parses as; None where it does not. */
  datatype Reply<+T> = TransportError | Http(status: int, body: Option<T>)

  predicate Retryable(status: int) { status == 429 || status == 500 || status == 502 || status == 503 || status == 504 }

  predicate Final<T>(r: Reply<T>) { r.Http? && !Retryable(r.status) }

  /** Worth another attempt: no response, or one of five statuses. */
  predicate Transient<T>(r: Reply<T>) { r.TransportError? || r.status in {429, 500, 502, 503, 504} }

  function Attempts(maxRetries: int): nat { if maxRetries >= 0 then maxRetries + 1 else 0 }

  /** `_post_with_retries`: the first reply that is not a transient failure, if it comes within the allowed attempts;
      None where it raises. No attempt follows the one whose reply is returned. */
  method PostWithRetries<T>(maxRetries: int, replies: seq<Reply<T>>) returns (r: Option<Reply<T>>, made: nat)
    requires |replies| >= Attempts(maxRetries)
    ensures 0 <= made <= if maxRetries < 0 then 0 else maxRetries + 1
    ensures r.Some? ==> made > 0 && r.value == replies[made - 1] && !Transient(r.value)
    ensures forall i | 0 <= i < made && (r == None || i < made - 1) :: Transient(replies[i])
    ensures r == None ==> made == if maxRetries < 0 then 0 else maxRetries + 1
  {
    made := 0;
    for attempt := 0 to Attempts(maxRetries)
      invariant made == attempt && forall i | 0 <= i < attempt :: Transient(replies[i])
    {
      var response := replies[attempt];
      made := made + 1;
      if response.Http? && !Retryable(response.status) {
        return Some(response), made;
      }
    }
    return None, made;
  }

  function FirstFinal<T>(replies: seq<Reply<T>>): Option<Reply<T>> {
    if replies == [] then None else if Final(replies[0]) then Some(replies[0]) else FirstFinal(replies[1..])
  }

  /** What `evaluate` gives its caller. The last two are exceptions. */
  datatype Answer<+T> = Answered(decision: T) | FailOpenAllow | Unavailable | Malformed

  function WhenUnavailable<T>(failOpen: bool): Answer<T> { if failOpen then FailOpenAllow else Unavailable }

  /** The answer, and what the breaker is told, if it lets the call through. */
  function Interpret<T>(failOpen: bool, r: Option<Reply<T>>, now: real): (Answer<T>, Option<Signal>) {
    if r == None || r.value.TransportError? || r.value.status >= 500 then (WhenUnavailable(failOpen), Some(Failure(now)))
    else if r.value.status == 401 then (Unavailable, None)
    else if r.value.status >= 400 then (WhenUnavailable(failOpen), Some(Failure(now)))
    else (if r.value.body.Some? then Answered(r.value.body.value) else Malformed, Some(Success))
  }

  /** The reply that counts: the first that is not transient, if there is one. */
  ghost predicate Concludes<T>(replies: seq<Reply<T>>, final: Option<Reply<T>>) {
    match final
    case None => forall r | r in replies :: Transient(r)
    case Some(x) => exists i :: 0 <= i < |replies| && replies[i] == x && !Transient(x)
                                && forall j | 0 <= j < i :: Transient(replies[j])
  }

  /** No answer, or an error that the switch to fail open is for; a rejected key is not. */
  ghost predicate Unanswered<T>(final: Option<Reply<T>>) {
    final == None || final.value.TransportError? || (final.value.status >= 400 && final.value.status != 401)
  }

  /** What the caller gets. */
  ghost predicate Yields<T>(failOpen: bool, final: Option<Reply<T>>, answer: Answer<T>) {
    && (answer.FailOpenAllow? <==> failOpen && Unanswered(final))
    && (answer.Unavailable? <==>
          (!failOpen && Unanswered(final)) || (final.Some? && final.value.Http? && final.value.status == 401))
    && (answer.Answered? <==>
          final.Some? && final.value.Http? && final.value.status < 400 && final.value.body.Some?)
    && (answer.Answered? ==> final.value.body == Some(answer.decision))
  }

  /** What becomes of a breaker that let the call through: an answer resets it, a rejected key leaves it alone, and
      everything else is one failure more. */
  ghost predicate Tallies<T>(b: Breaker, final: Option<Reply<T>>, done: real, after: Breaker) {
    && after.threshold == b.threshold && after.cooldown == b.cooldown
    && if Unanswered(final) then
         && after.failures == b.failures + 1
         && after.openedAt == if b.failures + 1 >= b.threshold then Some(done) else b.openedAt
       else if final.value.status == 401 then after.failures == b.failures && after.openedAt == b.openedAt
       else after.failures == 0 && after.openedAt == None
  }

  lemma InterpretYields<T>(failOpen: bool, final: Option<Reply<T>>, b: Breaker, done: real)
    ensures var (answer, signal) := Interpret(failOpen, final, done);
            && Yields(failOpen, final, answer)
            && Tallies(b, final, done, if signal.Some? then Note(b, signal.value) else b)
  {
  }

  lemma {:induction false} FirstFinalConcludes<T>(replies: seq<Reply<T>>)
    ensures Concludes(replies, FirstFinal(replies))
  {
    if replies != [] && !Final(replies[0]) {
      FirstFinalConcludes(replies[1..]);
      var final := FirstFinal(replies[1..]);
      assert replies == [replies[0]] + replies[1..];
      if final.Some? {
        var i :| 0 <= i < |replies[1..]| && replies[1..][i] == final.value && !Transient(final.value)
                 && forall j | 0 <= j < i :: Transient(replies[1..][j]);
        forall j | 0 <= j < i + 1 ensures Transient(replies[j]) {
          assert j > 0 ==> replies[j] == replies[1..][j - 1];
        }
        assert replies[i + 1] == final.value;
      }
    }
  }

  lemma PostConcludes<T>(replies: seq<Reply<T>>, response: Option<Reply<T>>, made: nat)
    requires made <= |replies| && (response == None ==> made == |replies|)
    requires response.Some? ==> made > 0 && response.value == replies[made - 1] && !Transient(response.value)
    requires forall i | 0 <= i < made && (response == None || i < made - 1) :: Transient(replies[i])
    ensures Concludes(replies, response)
  {
  }

  class GuardrailClient {
    const failOpen: bool
    const maxRetries: int
    const breaker: CircuitBreaker

    constructor (failOpen: bool, maxRetries: int)
      ensures this.failOpen == failOpen && this.maxRetries == maxRetries && fresh(breaker)
      ensures breaker.Value() == Breaker(5, 10.0, 0, None)
    {
      this.failOpen, this.maxRetries := failOpen, maxRetries;
      breaker := new CircuitBreaker(5, 10.0);
    }

    /** `asked` and `done` are the clock readings before and after the request. While the breaker is open nothing is
        sent; otherwise, cooled down if it was open, it is told how the attempts ended. */
    method Evaluate<T>(replies: seq<Reply<T>>, asked: real, done: real) returns (answer: Answer<T>, made: nat)
      requires |replies| >= Attempts(maxRetries)
      modifies breaker
      ensures var b := old(breaker.Value());
              if b.openedAt.Some? && asked - b.openedAt.value < b.cooldown then
                made == 0 && breaker.Value() == b && answer == if failOpen then FailOpenAllow else Unavailable
              else
                var ready := if b.openedAt.Some? then b.(failures := 0, openedAt := None) else b;
                exists final ::
                  && Concludes(replies[..if maxRetries < 0 then 0 else maxRetries + 1], final)
                  && Yields(failOpen, final, answer) && Tallies(ready, final, done, breaker.Value())
      ensures 0 <= made <= if maxRetries < 0 then 0 else maxRetries + 1
    {
      hide Concludes;
      var open := breaker.IsOpen(asked);
      if open {
        return WhenUnavailable(failOpen), 0;
      }
      ghost var ready := breaker.Value();
      var response;
      response, made := PostWithRetries(maxRetries, replies);
      PostConcludes(replies[..Attempts(maxRetries)], response, made);
      if response == None || response.value.status >= 500 {
        breaker.RecordFailure(done);
        answer := WhenUnavailable(failOpen);
      } else if response.value.status == 401 {
        answer := Unavailable;
      } else if response.value.status >= 400 {
        breaker.RecordFailure(done);
        answer := WhenUnavailable(failOpen);
      } else {
        breaker.RecordSuccess();
        answer := if response.value.body.Some? then Answered(response.value.body.value) else Malformed;
      }
      assert Yields(failOpen, response, answer) && Tallies(ready, response, done, breaker.Value());
      assert Concludes(replies[..if maxRetries < 0 then 0 else maxRetries + 1], response);
    }
  }

  /** Fail closed: without `fail_open` a caller gets a decision only from a response the service sent with a status
      below 400, within the attempts made; anything else raises. */
  lemma {:induction false} FailClosed<T>(replies: seq<Reply<T>>, now: real)
    ensures var (a, _) := Interpret(false, FirstFinal(replies), now);
            && !a.FailOpenAllow?
            && (a.Answered? ==> exists r | r in replies :: r.Http? && r.status < 400 && r.body == Some(a.decision))
  {
    FirstFinalMember(replies);
  }

  lemma {:induction false} FirstFinalMember<T>(replies: seq<Reply<T>>)
    ensures FirstFinal(replies).Some? ==> FirstFinal(replies).value in replies
  {
    if replies != [] {
      FirstFinalMember(replies[1..]);
    }
  }

  // ---------------------------------------------------------------------------------------
  // Waiting for a human
  // ---------------------------------------------------------------------------------------

  /** One poll: how long it takes, and what it returns; None where it raises. `S` is the decision's status as served. */
  datatype Poll<+S> = Poll(duration: real, status: Option<S>)

  function Pow15(k: nat): real { if k == 0 then 1.0 else 1.5 * Pow15(k - 1) }

  /** The interval before cutting, after i sleeps. */
  function Interval(initial: real, max: real, i: nat): real {
    if i == 0 then initial else Min(Interval(initial, max, i - 1) * 1.5, max)
  }

  lemma {:induction false} IntervalPositive(initial: real, max: real, i: nat)
    requires initial > 0.0 && max > 0.0
    ensures Interval(initial, max, i) >= Min(initial, max)
  {
    if i > 0 {
      IntervalPositive(initial, max, i - 1);
    }
  }

  lemma {:induction false} IntervalGrows(initial: real, max: real, i: nat)
    requires initial > 0.0 && max > 0.0
    ensures Interval(initial, max, i) >= max || Interval(initial, max, i) == initial * Pow15(i)
  {
    if i > 0 {
      IntervalGrows(initial, max, i - 1);
      assert initial * Pow15(i) == initial * Pow15(i - 1) * 1.5;
    }
  }

  lemma {:induction false} IntervalFull(initial: real, max: real, k: nat, i: nat)
    requires initial > 0.0 && max > 0.0 && initial * Pow15(k) >= max && i >= k
    ensures Interval(initial, max, i) >= max
  {
    if i == k {
      IntervalGrows(initial, max, k);
    } else {
      IntervalFull(initial, max, k, i - 1);
    }
  }

  /** The uncut sleeps before the n-th. */
  function SleptUncut(initial: real, max: real, n: nat): real {
    if n == 0 then 0.0 else SleptUncut(initial, max, n - 1) + Interval(initial, max, n - 1)
  }

  lemma OneMore(x: real, y: real)
    ensures (x + 1.0) * y == x * y + y
  {
  }

  lemma {:induction false} SleptSomething(initial: real, max: real, n: nat)
    requires initial > 0.0 && max > 0.0
    ensures SleptUncut(initial, max, n) >= 0.0
  {
    if n > 0 {
      SleptSomething(initial, max, n - 1);
      IntervalPositive(initial, max, n - 1);
    }
  }

  lemma {:induction false} SleptFull(initial: real, max: real, k: nat, n: nat)
    requires n >= k && SleptUncut(initial, max, k) >= 0.0
    requires forall i: nat | i >= k :: Interval(initial, max, i) >= max
    ensures SleptUncut(initial, max, n) >= (n - k) as real * max
  {
    hide Interval;
    if n > k {
      SleptFull(initial, max, k, n - 1);
      OneMore((n - 1 - k) as real, max);
    }
  }

  lemma SleptAtLeast(initial: real, max: real, k: nat, n: nat)
    requires initial > 0.0 && max > 0.0 && initial * Pow15(k) >= max
    ensures SleptUncut(initial, max, n) >= 0.0
    ensures n >= k ==> SleptUncut(initial, max, n) >= (n - k) as real * max
  {
    SleptSomething(initial, max, n);
    if n >= k {
      SleptSomething(initial, max, k);
      forall i: nat | i >= k ensures Interval(initial, max, i) >= max {
        IntervalFull(initial, max, k, i);
      }
      hide Interval, SleptUncut, Pow15;
      SleptFull(initial, max, k, n);
    }
  }

  /** Sleeps that together stay below the timeout are few. */
  lemma FewSleeps(initial: real, max: real, k: nat, n: nat, timeout: real)
    requires initial > 0.0 && max > 0.0 && initial * Pow15(k) >= max
    requires SleptUncut(initial, max, n) <= timeout
    ensures n as real <= k as real + timeout / max
  {
    SleptAtLeast(initial, max, k, n);
    Quotient(0.0, timeout, max);
    if n >= k {
      Quotient((n - k) as real, timeout, max);
    }
  }

  /** Steps of at least this size that still fit before the deadline. */
  function StepsLeft(deadline: real, clock: real, step: real): nat
    requires step > 0.0
  {
    if clock >= deadline then 0
    else
      var q := (deadline - clock) / step;
      if q >= 0.0 then q.Floor + 1 else 0
  }

  lemma StepTaken(deadline: real, clock: real, later: real, step: real)
    requires step > 0.0 && clock < deadline && (later >= clock + step || later >= deadline)
    ensures StepsLeft(deadline, later, step) < StepsLeft(deadline, clock, step)
  {
    Quotient(0.0, deadline - clock, step);
    if later < deadline {
      var p := (deadline - later) / step;
      Quotient(p + 1.0, deadline - clock, step);
      Quotient(p, deadline - later, step);
      OneMore(p, step);
    }
  }

  /** `wait_for_decision`, from clock reading `start`. Poll i takes and returns what `poll(i)` says; sleep i overshoots
      by `late(i)`. It returns the status of its last poll, which is the first settled one, or else was made when the
      deadline had passed; a failed poll ends the wait only then. It sleeps no longer than the timeout in all, and
      polls a bounded number of times. */
  method WaitForDecision<S>(start: real, timeout: real, initial: real, max: real, poll: nat -> Poll<S>,
                            settled: S -> bool, late: nat -> real, ghost k: nat)
    returns (r: Option<S>, polls: nat, slept: real, clock: real)
    requires initial > 0.0 && max > 0.0 && initial * Pow15(k) >= max
    requires forall i :: poll(i).duration >= 0.0 && late(i) >= 0.0
    ensures polls > 0 && r == poll(polls - 1).status
    ensures forall i | 0 <= i < polls - 1 :: poll(i).status.Some? ==> !settled(poll(i).status.value)
    ensures (r.Some? && settled(r.value)) || clock >= start + timeout
    ensures 0.0 <= slept && (slept <= timeout || slept == 0.0)
    ensures timeout >= 0.0 ==> polls as real <= k as real + timeout / max + 2.0
    ensures timeout < 0.0 ==> polls == 1
  {
    var deadline := start + timeout;
    var interval := initial;
    ghost var step := Min(initial, max);
    clock, polls, slept := start, 0, 0.0;
    SleptAtLeast(initial, max, k, 0);
    while clock < deadline
      invariant interval == Interval(initial, max, polls)
      invariant forall i | 0 <= i < polls :: poll(i).status.Some? ==> !settled(poll(i).status.value)
      invariant 0.0 <= slept <= clock - start && (slept <= timeout || slept == 0.0)
      invariant polls == 0 || clock >= deadline || slept == SleptUncut(initial, max, polls)
      invariant polls > 0 ==> timeout >= 0.0 && SleptUncut(initial, max, polls - 1) <= timeout
      invariant polls == 0 ==> slept == 0.0
      decreases StepsLeft(deadline, clock, step)
    {
      ghost var before := clock;
      var current := poll(polls).status;
      clock := clock + poll(polls).duration;
      polls := polls + 1;
      if current.Some? && settled(current.value) {
        FewSleeps(initial, max, k, polls - 1, timeout);
        return current, polls, slept, clock;
      }
      var remaining := deadline - clock;
      if remaining <= 0.0 {
        break;
      }
      var nap := Min(interval, remaining);
      IntervalPositive(initial, max, polls - 1);
      slept := slept + nap;
      clock := clock + nap + late(polls - 1);
      StepTaken(deadline, before, clock, step);
      interval := Min(interval * 1.5, max);
    }
    if polls > 0 {
      FewSleeps(initial, max, k, polls - 1, timeout);
    } else if timeout >= 0.0 {
      FewSleeps(initial, max, k, 0, timeout);
    }
    r := poll(polls).status;
    clock := clock + poll(polls).duration;
    polls := polls + 1;
  }
}
