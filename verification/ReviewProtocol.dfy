/** Any number of reviewers resolving held decisions, in any interleaving, under one clock that never runs backwards. */
module ReviewProtocol {
  import opened Order
  import opened Json
  import opened Decisions

  type Key = (string, string)

  datatype Review = Review(ruling: Ruling, reviewer: Reviewer)

  /** `winners` is history: which review resolved a decision. */
  datatype State = State(table: DecisionTable, clock: real, reviews: map<nat, Review>, winners: map<Key, nat>)

  datatype Event =
    | Tick(elapsed: real)
    | Create(decision: Decision)     // `create`; decision ids are fresh UUIDs
    | Begin(review: nat, ruling: Ruling)
    | Step(review: nat, resolvedAt: string, healthy: bool)

  const INIT: State := State(map[], 0.0, map[], map[])

  function KeyOf(r: Ruling): Key { (r.tenant, r.id) }

  /** As `build_pending` makes it. */
  predicate FreshPending(d: Decision) {
    d == NewPending(d.id, d.tenant, d.createdAt, d.expiresAt, d.onTimeout, d.details, d.auditSeq)
  }

  function Next(s: State, e: Event): State {
    match e
    case Tick(elapsed) => if elapsed < 0.0 then s else s.(clock := s.clock + elapsed)
    case Create(d) =>
      if FreshPending(d) && (d.tenant, d.id) !in s.table then s.(table := s.table[(d.tenant, d.id) := d]) else s
    case Begin(review, ruling) =>
      if review in s.reviews then s else s.(reviews := s.reviews[review := Review(ruling, ToRead)])
    case Step(review, resolvedAt, healthy) =>
      if review !in s.reviews then s
      else
        var r := s.reviews[review];
        var (table, v) := StepReviewer(s.table, r.ruling, r.reviewer, s.clock, resolvedAt, healthy);
        s.(table := table, reviews := s.reviews[review := Review(r.ruling, v)],
           winners := if v.Resolved? && !r.reviewer.Resolved? then s.winners[KeyOf(r.ruling) := review] else s.winners)
  }

  function Run(s: State, es: seq<Event>): State {
    if es == [] then s else Next(Run(s, es[..|es| - 1]), es[|es| - 1])
  }

  /** In the index exactly while pending, under the keys the queue query looks for. */
  predicate DecisionOk(k: Key, d: Decision) {
    && k == (d.tenant, d.id)
    && (d.status == Pending ==> FreshPending(d))
    && (d.status != Pending ==> d.indexKeys == None && d.reviewer.Some? && d.reason.Some? && d.resolvedAt.Some?)
  }

  predicate ReviewOk(s: State, review: nat)
    requires review in s.reviews
  {
    var k := KeyOf(s.reviews[review].ruling);
    match s.reviews[review].reviewer
    case ToCapture(_) => k in s.table
    case ToUpdate(now) => k in s.table && now as real <= s.clock
    case ToReread => k in s.table && EffectiveStatus(s.table[k], s.clock) != ShownPending
    case Resolved(d, captured) =>
      && k in s.table && s.table[k] == d && d.status != Pending
      && d.status == (if s.reviews[review].ruling.approve then Approved else Denied)
      && d.reviewer == Some(s.reviews[review].ruling.reviewer) && d.reason == Some(s.reviews[review].ruling.reason)
      && captured < d.expiresAt
      && k in s.winners && s.winners[k] == review
    case Conflict(status, winner) =>
      && k in s.table && status != ShownPending
      && (status == ShownExpired ==> winner == None && s.table[k].expiresAt as real <= s.clock)
      && (status == ShownApproved ==> s.table[k].status == Approved && winner == s.table[k].reviewer)
      && (status == ShownDenied ==> s.table[k].status == Denied && winner == s.table[k].reviewer)
    case _ => true
  }

  predicate WinnerOk(s: State, k: Key)
    requires k in s.winners
  {
    && s.winners[k] in s.reviews && s.reviews[s.winners[k]].reviewer.Resolved?
    && KeyOf(s.reviews[s.winners[k]].ruling) == k
  }

  ghost predicate Inv(s: State) {
    && (forall k | k in s.table :: DecisionOk(k, s.table[k]))
    && (forall review | review in s.reviews :: ReviewOk(s, review))
    && (forall k | k in s.winners :: k in s.table && WinnerOk(s, k))
    && (forall k | k in s.table && s.table[k].status != Pending :: k in s.winners)
  }

  /** Time passes; a decision stays, and changes only from pending to resolved. */
  ghost predicate Advances(s: State, s': State) {
    && s.clock <= s'.clock
    && (forall k | k in s.table ::
          && k in s'.table
          && s'.table[k].expiresAt == s.table[k].expiresAt && s'.table[k].onTimeout == s.table[k].onTimeout
          && s'.table[k].auditSeq == s.table[k].auditSeq && s'.table[k].details == s.table[k].details
          && (s'.table[k] == s.table[k] || (s.table[k].status == Pending && s'.table[k].status != Pending)))
  }

  /** What a review's step does to the table and the history. */
  lemma StepEffect(s: State, review: nat, resolvedAt: string, healthy: bool)
    requires review in s.reviews
    ensures var s' := Next(s, Step(review, resolvedAt, healthy));
            var k := KeyOf(s.reviews[review].ruling);
            && s'.reviews == s.reviews[review := s'.reviews[review]]
            && s'.reviews[review].ruling == s.reviews[review].ruling
            && (s.reviews[review].reviewer.Resolved? ==> s'.reviews[review].reviewer.Resolved?)
            && s'.clock == s.clock && s'.reviews.Keys == s.reviews.Keys && Advances(s, s')
            && if s'.reviews[review].reviewer.Resolved? && !s.reviews[review].reviewer.Resolved? then
                 && k in s.table && s.table[k].status == Pending
                 && s'.table == s.table[k := Rule(s.table[k], s.reviews[review].ruling, resolvedAt)]
                 && s'.winners == s.winners[k := review]
               else s'.table == s.table && s'.winners == s.winners
  {
  }

  lemma UntouchedReviewOk(s: State, s': State, review: nat)
    requires review in s.reviews && ReviewOk(s, review) && Advances(s, s')
    requires review in s'.reviews && s'.reviews[review] == s.reviews[review]
    requires s.reviews[review].reviewer.Resolved? ==>
               var k := KeyOf(s.reviews[review].ruling); k in s'.winners && s'.winners[k] == review
    ensures ReviewOk(s', review)
  {
  }

  lemma SteppedReviewOk(s: State, review: nat, resolvedAt: string, healthy: bool)
    requires review in s.reviews && ReviewOk(s, review)
    requires var k := KeyOf(s.reviews[review].ruling); k in s.table ==> DecisionOk(k, s.table[k])
    ensures ReviewOk(Next(s, Step(review, resolvedAt, healthy)), review)
  {
    var k := KeyOf(s.reviews[review].ruling);
    if k in s.table {
      WholeSeconds(s.table[k].expiresAt, s.clock);
    }
  }

  lemma StepKeepsInv(s: State, review: nat, resolvedAt: string, healthy: bool)
    requires Inv(s) && review in s.reviews
    ensures Inv(Next(s, Step(review, resolvedAt, healthy)))
    ensures Advances(s, Next(s, Step(review, resolvedAt, healthy)))
  {
    hide Next, StepReviewer, ReviewOk, DecisionOk, WinnerOk, Rule;
    var s' := Next(s, Step(review, resolvedAt, healthy));
    StepEffect(s, review, resolvedAt, healthy);
    SteppedReviewOk(s, review, resolvedAt, healthy);
    var key := KeyOf(s.reviews[review].ruling);
    forall r | r in s'.reviews ensures ReviewOk(s', r) {
      if r != review {
        KnownWinner(s, r);
        WinnerUntouched(s, r, key);
        UntouchedReviewOk(s, s', r);
      }
    }
    forall k | k in s'.table ensures DecisionOk(k, s'.table[k]) {
      if s'.table[k] != s.table[k] {
        RuledDecisionOk(k, s.table[k], s.reviews[review].ruling, resolvedAt);
      }
    }
    RuledNotPending(s, review, resolvedAt, healthy);
    forall k | k in s'.winners ensures k in s'.table && WinnerOk(s', k) {
      if k in s.winners && s'.winners[k] == s.winners[k] {
        WinnerStays(s, s', review, k);
      } else {
        NewWinner(s', review, key);
      }
    }
  }

  lemma RuledDecisionOk(k: Key, d: Decision, r: Ruling, resolvedAt: string)
    requires DecisionOk(k, d)
    ensures DecisionOk(k, Rule(d, r, resolvedAt))
  {
  }

  lemma RuledNotPending(s: State, review: nat, resolvedAt: string, healthy: bool)
    requires review in s.reviews
    ensures forall d :: Rule(d, s.reviews[review].ruling, resolvedAt).status != Pending
  {
  }

  lemma NewWinner(s: State, review: nat, k: Key)
    requires review in s.reviews && s.reviews[review].reviewer.Resolved? && KeyOf(s.reviews[review].ruling) == k
    requires k in s.winners && s.winners[k] == review
    ensures WinnerOk(s, k)
  {
  }

  lemma WinnerStays(s: State, s': State, review: nat, k: Key)
    requires k in s.winners && WinnerOk(s, k) && k in s'.winners && s'.winners[k] == s.winners[k]
    requires review in s.reviews && review in s'.reviews && s'.reviews == s.reviews[review := s'.reviews[review]]
    requires s'.reviews[review].ruling == s.reviews[review].ruling
    requires s.reviews[review].reviewer.Resolved? ==> s'.reviews[review].reviewer.Resolved?
    ensures WinnerOk(s', k)
  {
  }

  /** A review that resolved a decision did not resolve one that is still pending. */
  lemma WinnerUntouched(s: State, review: nat, k: Key)
    requires review in s.reviews && ReviewOk(s, review)
    ensures s.reviews[review].reviewer.Resolved? && k in s.table && s.table[k].status == Pending ==>
              KeyOf(s.reviews[review].ruling) != k
  {
  }

  lemma OtherKeepsInv(s: State, e: Event)
    requires Inv(s) && !e.Step?
    ensures Inv(Next(s, e)) && Advances(s, Next(s, e))
  {
    hide Next, ReviewOk, DecisionOk, WinnerOk;
    var s' := Next(s, e);
    OtherEffect(s, e);
    forall r | r in s'.reviews ensures ReviewOk(s', r) {
      if r in s.reviews {
        KnownWinner(s, r);
        UntouchedReviewOk(s, s', r);
      }
    }
    forall k | k in s'.winners ensures k in s'.table && WinnerOk(s', k) {
      WinnerKept(s, s', k);
    }
  }

  lemma OtherEffect(s: State, e: Event)
    requires !e.Step?
    ensures var s' := Next(s, e);
            && Advances(s, s') && s'.winners == s.winners
            && (forall r | r in s.reviews :: r in s'.reviews && s'.reviews[r] == s.reviews[r])
            && (forall r | r in s'.reviews && r !in s.reviews :: ReviewOk(s', r))
            && (forall k | k in s'.table ::
                  if k in s.table then s'.table[k] == s.table[k]
                  else s'.table[k].status == Pending && DecisionOk(k, s'.table[k]))
  {
  }

  lemma WinnerKept(s: State, s': State, k: Key)
    requires k in s.winners && WinnerOk(s, k) && s'.winners == s.winners
    requires forall r | r in s.reviews :: r in s'.reviews && s'.reviews[r] == s.reviews[r]
    ensures WinnerOk(s', k)
  {
  }

  lemma KnownWinner(s: State, review: nat)
    requires review in s.reviews && ReviewOk(s, review)
    ensures s.reviews[review].reviewer.Resolved? ==>
              var k := KeyOf(s.reviews[review].ruling); k in s.winners && s.winners[k] == review
  {
  }

  lemma NextKeepsInv(s: State, e: Event)
    requires Inv(s)
    ensures Inv(Next(s, e)) && Advances(s, Next(s, e))
  {
    if e.Step? {
      if e.review in s.reviews {
        StepKeepsInv(s, e.review, e.resolvedAt, e.healthy);
      }
    } else {
      OtherKeepsInv(s, e);
    }
  }

  lemma {:induction false} RunKeepsInv(s: State, es: seq<Event>)
    requires Inv(s)
    ensures Inv(Run(s, es)) && Advances(s, Run(s, es))
  {
    if es != [] {
      var t := Run(s, es[..|es| - 1]);
      RunKeepsInv(s, es[..|es| - 1]);
      NextKeepsInv(t, es[|es| - 1]);
      AdvancesTransitive(s, t, Run(s, es));
    }
  }

  lemma AdvancesTransitive(s: State, t: State, u: State)
    requires Advances(s, t) && Advances(t, u)
    ensures Advances(s, u)
  {
  }

  /** A review that was told it succeeded, for this decision. */
  predicate ToldResolved(s: State, review: nat, k: Key) {
    review in s.reviews && s.reviews[review].reviewer.Resolved? && KeyOf(s.reviews[review].ruling) == k
  }

  /** Such a decision exists, and the conflict names its outcome and who is behind it, or its expiry and nobody. */
  ghost predicate TrueConflict(s: State, k: Key, v: Reviewer)
    requires v.Conflict?
  {
    && k in s.table
    && match v.status
       case ShownApproved => s.table[k].status == Approved && v.winner == s.table[k].reviewer && v.winner.Some?
       case ShownDenied => s.table[k].status == Denied && v.winner == s.table[k].reviewer && v.winner.Some?
       case ShownExpired => v.winner == None && s.table[k].expiresAt as real <= s.clock
       case ShownPending => false
  }

  /** One winner: in every interleaving a resolved decision was resolved by exactly one review, which was told so,
      says what that reviewer said, and captured its clock before the expiry; a pending decision by none;
      and a review told of a conflict is told the truth: who decided what, or that the window had closed. */
  lemma {:induction false} ReviewSafety(es: seq<Event>)
    ensures var s := Run(INIT, es);
            && (forall k | k in s.table :: s.table[k].status != Pending <==> exists review :: ToldResolved(s, review, k))
            && (forall i, j, k | ToldResolved(s, i, k) && ToldResolved(s, j, k) :: i == j)
            && (forall review, k | ToldResolved(s, review, k) ::
                  var r := s.reviews[review];
                  && k in s.table && s.table[k] == r.reviewer.decision
                  && s.table[k].status == (if r.ruling.approve then Approved else Denied)
                  && s.table[k].reviewer == Some(r.ruling.reviewer) && s.table[k].reason == Some(r.ruling.reason)
                  && r.reviewer.captured < s.table[k].expiresAt)
            && (forall review | review in s.reviews && s.reviews[review].reviewer.Conflict? ::
                  TrueConflict(s, KeyOf(s.reviews[review].ruling), s.reviews[review].reviewer))
            && (forall k | k in s.table :: s.table[k].indexKeys.Some? <==> s.table[k].status == Pending)
  {
    RunKeepsInv(INIT, es);
    var s := Run(INIT, es);
    forall k | k in s.table
      ensures s.table[k].status != Pending <==> exists review :: ToldResolved(s, review, k)
    {
      assert DecisionOk(k, s.table[k]);
      if s.table[k].status != Pending {
        assert WinnerOk(s, k);
        assert ToldResolved(s, s.winners[k], k);
      }
      if review :| ToldResolved(s, review, k) {
        assert ReviewOk(s, review);
      }
    }
    forall i, j, k | ToldResolved(s, i, k) && ToldResolved(s, j, k) ensures i == j {
      assert ReviewOk(s, i) && ReviewOk(s, j);
    }
    forall review | review in s.reviews ensures ReviewOk(s, review) {
    }
    forall k | k in s.table ensures s.table[k].indexKeys.Some? <==> s.table[k].status == Pending {
      assert DecisionOk(k, s.table[k]);
    }
  }

  // ---------------------------------------------------------------------------------------
  // Finality
  // ---------------------------------------------------------------------------------------

  /** A review that captured its clock before the expiry and has not yet written. */
  predicate InFlight(s: State, review: nat, k: Key) {
    && review in s.reviews && KeyOf(s.reviews[review].ruling) == k
    && s.reviews[review].reviewer.ToUpdate? && k in s.table
    && s.reviews[review].reviewer.now < s.table[k].expiresAt
  }

  /** Approval and denial are final, reviewer and reason included, for every later read. */
  lemma {:induction false} ResolutionFinal(es: seq<Event>, fs: seq<Event>, k: Key)
    requires k in Run(INIT, es).table && Run(INIT, es).table[k].status != Pending
    ensures var later := Run(Run(INIT, es), fs);
            k in later.table && later.table[k] == Run(INIT, es).table[k]
            && EffectiveStatus(later.table[k], later.clock)
            == EffectiveStatus(Run(INIT, es).table[k], Run(INIT, es).clock)
  {
    RunKeepsInv(INIT, es);
    RunKeepsInv(Run(INIT, es), fs);
  }

  /** A review stepping while the decision is expired does not start a race with the expiry. */
  lemma StepNotInFlight(s: State, review: nat, resolvedAt: string, healthy: bool, k: Key)
    requires review in s.reviews && k in s.table && IsExpired(s.table[k], s.clock)
    requires !InFlight(s, review, k)
    ensures var s' := Next(s, Step(review, resolvedAt, healthy));
            s'.table == s.table || KeyOf(s.reviews[review].ruling) != k
    ensures !InFlight(Next(s, Step(review, resolvedAt, healthy)), review, k)
  {
    WholeSeconds(s.table[k].expiresAt, s.clock);
  }

  lemma NextKeepsExpired(s: State, e: Event, k: Key)
    requires Inv(s) && k in s.table && IsExpired(s.table[k], s.clock)
    requires forall review :: !InFlight(s, review, k)
    ensures var s' := Next(s, e);
            k in s'.table && IsExpired(s'.table[k], s'.clock) && forall review :: !InFlight(s', review, k)
  {
    hide Inv, StepReviewer, EffectiveStatus, Rule;
    var s' := Next(s, e);
    NextKeepsInv(s, e);
    if e.Step? && e.review in s.reviews {
      StepNotInFlight(s, e.review, e.resolvedAt, e.healthy, k);
      StepEffect(s, e.review, e.resolvedAt, e.healthy);
      hide Next;
      assert s'.table[k] == s.table[k];
    } else if !e.Step? {
      OtherEffect(s, e);
    }
    forall review ensures !InFlight(s', review, k) {
      assert !InFlight(s, review, k);
    }
  }

  lemma {:induction false} RunKeepsExpired(s: State, es: seq<Event>, k: Key)
    requires Inv(s) && k in s.table && IsExpired(s.table[k], s.clock)
    requires forall review :: !InFlight(s, review, k)
    ensures var s' := Run(s, es);
            k in s'.table && IsExpired(s'.table[k], s'.clock) && forall review :: !InFlight(s', review, k)
  {
    if es != [] {
      RunKeepsExpired(s, es[..|es| - 1], k);
      RunKeepsInv(s, es[..|es| - 1]);
      NextKeepsExpired(Run(s, es[..|es| - 1]), es[|es| - 1], k);
    }
  }

  /** Expiry is final exactly when no review is in flight whose captured clock precedes it:
      a decision read as expired can be read as resolved later if and only if one is. */
  lemma {:induction false} ExpiryFinalIff(es: seq<Event>, k: Key)
    requires k in Run(INIT, es).table && IsExpired(Run(INIT, es).table[k], Run(INIT, es).clock)
    ensures (exists review :: InFlight(Run(INIT, es), review, k))
       <==> (exists fs :: BecomesResolved(Run(INIT, es), fs, k))
  {
    var s := Run(INIT, es);
    RunKeepsInv(INIT, es);
    if review :| InFlight(s, review, k) {
      var step := Step(review, "", true);
      assert [step][..0] == [];
      assert Run(s, [step]) == Next(s, step);
      assert BecomesResolved(s, [step], k);
    } else {
      forall fs ensures !BecomesResolved(s, fs, k) {
        RunKeepsExpired(s, fs, k);
      }
    }
  }

  /** The race does occur: one reviewer reads a decision in time, captures the clock, and the decision expires. */
  lemma {:induction false} ExpiryRaceOccurs(tenant: string, id: string)
    ensures exists es :: (tenant, id) in Run(INIT, es).table
                      && IsExpired(Run(INIT, es).table[(tenant, id)], Run(INIT, es).clock)
                      && InFlight(Run(INIT, es), 0, (tenant, id))
  {
    var d := NewPending(id, tenant, "", 1, TimeoutDeny, Null, 0);
    var es := [Create(d), Begin(0, Ruling(tenant, id, true, "", "")), Step(0, "", true), Step(0, "", true), Tick(1.0)];
    assert es[..4][..3][..2][..1][..0] == [];
    assert es[..4][..3][..2][..1] == [es[0]] && es[..4][..3][..2][1] == es[1];
    assert es[..4][..3][2] == es[2] && es[..4][3] == es[3];
    var s1 := Next(INIT, es[0]);
    var s2 := Next(s1, es[1]);
    var s3 := Next(s2, es[2]);
    var s4 := Next(s3, es[3]);
    assert Run(INIT, es[..4][..3][..2][..1]) == s1;
    assert Run(INIT, es[..4][..3][..2]) == s2;
    assert Run(INIT, es[..4][..3]) == s3;
    assert Run(INIT, es[..4]) == s4;
    assert Run(INIT, es) == Next(s4, es[4]);
  }

  predicate BecomesResolved(s: State, fs: seq<Event>, k: Key) {
    k in Run(s, fs).table && Run(s, fs).table[k].status != Pending
  }

  /** Silence is not consent: at any time a decision permits the action exactly if a reviewer approved it, or nobody
      resolved it, its window has closed, and its rule allows that. */
  lemma {:induction false} SilenceIsNotConsent(es: seq<Event>, k: Key)
    requires k in Run(INIT, es).table
    ensures var s := Run(INIT, es);
            var approved := exists review :: ToldResolved(s, review, k) && s.reviews[review].ruling.approve;
            var unanswered := forall review :: !ToldResolved(s, review, k);
            var d := s.table[k];
            AllowsExecution(d, s.clock)
            <==> approved || (unanswered && s.clock >= d.expiresAt as real && d.onTimeout == TimeoutAllow)
  {
    ReviewSafety(es);
  }
}
