/** The joint invariant of a package and its payments, and exactly when a step keeps it. */
module SettlementSafety {
  import opened Basics
  import opened Settlement

  // ----- The invariant -----

  predicate Started(s: State) {
    s.payments != [] ==> s.package.status != Queued
  }

  predicate AtMostOneCompleted(s: State) {
    forall i, j | 0 <= i < |s.payments| && 0 <= j < |s.payments| && s.payments[i].completed && s.payments[j].completed :: i == j
  }

  /** Reconciliation's check that a completed payment belongs to a paid package. */
  predicate CompletedIsPaid(s: State) {
    forall i | 0 <= i < |s.payments| && s.payments[i].completed :: s.package.status == Paid
  }

  predicate SomeCompleted(s: State) {
    exists i | 0 <= i < |s.payments| :: s.payments[i].completed
  }

  /** Reconciliation's check that a paid package that is not deleted has a completed payment. */
  predicate PaidIsBacked(s: State) {
    s.package.status == Paid && Live(s.package) ==> SomeCompleted(s)
  }

  predicate Joint(s: State) {
    Started(s) && AtMostOneCompleted(s) && CompletedIsPaid(s) && PaidIsBacked(s)
  }

  // ----- The daily drift checks -----

  datatype Drift = PaidWithoutCompletedPayment | CompletedPaymentOnUnpaidPackage(session: SessionId, status: Status)

  function PaidPackageDrifts(s: State): seq<Drift> {
    if s.package.status == Paid && Live(s.package) && !SomeCompleted(s) then [PaidWithoutCompletedPayment] else []
  }

  function CompletedPaymentDrifts(payments: seq<Payment>, status: Status): seq<Drift> {
    if payments == [] then []
    else
      var last := payments[|payments| - 1];
      CompletedPaymentDrifts(payments[..|payments| - 1], status) +
      (if last.completed && status != Paid then [CompletedPaymentOnUnpaidPackage(last.session, status)] else [])
  }

  lemma {:induction false} NoCompletedDriftMeans(payments: seq<Payment>, status: Status)
    ensures CompletedPaymentDrifts(payments, status) == [] <==> forall p | p in payments && p.completed :: status == Paid
  {
    if payments != [] {
      NoCompletedDriftMeans(payments[..|payments| - 1], status);
      assert payments == payments[..|payments| - 1] + [payments[|payments| - 1]];
    }
  }

  /** Reconciliation reports nothing exactly when both agreement clauses hold, so it can never
      report anything on a state that satisfies the joint invariant. */
  lemma DriftChecksDecideAgreement(s: State)
    ensures PaidPackageDrifts(s) == [] && CompletedPaymentDrifts(s.payments, s.package.status) == []
            <==> PaidIsBacked(s) && CompletedIsPaid(s)
    ensures Joint(s) ==> PaidPackageDrifts(s) == [] && CompletedPaymentDrifts(s.payments, s.package.status) == []
  {
    NoCompletedDriftMeans(s.payments, s.package.status);
    forall i | 0 <= i < |s.payments|
      ensures s.payments[i] in s.payments
    {
    }
  }

  // ----- When a single action keeps the invariant -----

  /** A reversal stops early when a completed payment could not be refunded. */
  predicate RevertProceeds(payment: Payment, refund: bool, o: Oracle) {
    !refund || !payment.completed || Refunds(payment, o.refundAccepted)
  }

  /** What has to hold of the stored rows and the lock before an action runs. */
  predicate Allowed(s: State, action: Action, o: Oracle)
    requires InRange(s, action)
  {
    match action
    case Settle(i, session, _) =>
      AmountMatches(s.payments[i], session) && Live(s.package) && s.package.status == Open ==> o.rowFree
    case FailAsync(i) => s.payments[i].completed ==> !Live(s.package)
    case Revert(i, refund, _) =>
      RevertProceeds(s.payments[i], refund, o) && s.package.status == Paid ==>
        if o.rowFree then s.payments[i].completed || !SomeCompleted(s)
        else s.payments[i].completed ==> !Live(s.package)
    case Restore(i) =>
      if s.package.status == Paid then s.payments[i].completed || !SomeCompleted(s) else o.rowFree
    case _ => true
  }

  /** The same for a whole step: aborting a claim must not delete the payment that backs a live package. */
  predicate StepAllowed(w: World, m: Moment) {
    && (var plan := PlanStep(w, m); plan.Act? ==> Allowed(plan.state, plan.action, m.oracle))
    && (m.step.AbortClaim? ==>
        var at := PendingClaim(w.state, m.step.claim);
        at.Some? && w.state.payments[at.value].completed ==> !Live(w.state.package))
  }

  /** Rows before and after differ at most in the completed flag of row i. */
  predicate OnlyFlag(before: State, after: State, i: nat, flag: bool) {
    && |after.payments| == |before.payments| && i < |before.payments|
    && after.payments[i].completed == flag
    && (forall j | 0 <= j < |before.payments| && j != i :: after.payments[j].completed == before.payments[j].completed)
    && Live(after.package) == Live(before.package)
  }

  /** A refused settlement clears a flag that was clear already, or that of a deleted package. */
  lemma RefusalKeepsJoint(s: State, after: State, i: nat)
    requires Joint(s) && OnlyFlag(s, after, i, false) && after.package.status == s.package.status
    requires Live(s.package) ==> !s.payments[i].completed
    ensures Joint(after)
  {
    CompletedOnly(s, after, i, false);
  }

  lemma CompletionExactly(s: State, i: nat, session: Session, source: Source, o: Oracle)
    requires Joint(s) && i < |s.payments| && Live(s.package)
    requires s.package.status == Paid ==> s.payments[i].completed
    ensures Joint(CompleteAndPay(s, i, session, source, o)) <==> (s.package.status == Open ==> o.rowFree)
  {
    hide RevokedShares, ActiveRecords, PayerCurrency;
    var after := CompleteAndPay(s, i, session, source, o);
    assert OnlyFlag(s, after, i, true);
    assert after.payments[i].completed;
    CompletedOnly(s, after, i, true);
  }

  lemma SettleExactly(s: State, i: nat, session: Session, source: Source, o: Oracle)
    requires Joint(s) && i < |s.payments|
    ensures Joint(ApplyPaidSession(s, i, session, source, o).0) <==> Allowed(s, Settle(i, session, source), o)
  {
    hide Joint, AmountMatches, CompleteAndPay;
    if AmountMatches(s.payments[i], session) {
      if !Live(s.package) || (s.package.status == Paid && !s.payments[i].completed) {
        RefusalKeepsJoint(s, ApplyPaidSession(s, i, session, source, o).0, i);
      } else {
        CompletionExactly(s, i, session, source, o);
      }
    }
  }

  /** How SomeCompleted moves when one flag is written. */
  lemma CompletedOnly(before: State, after: State, i: nat, flag: bool)
    requires OnlyFlag(before, after, i, flag)
    ensures flag ==> SomeCompleted(after)
    ensures !flag && AtMostOneCompleted(before) && before.payments[i].completed ==> !SomeCompleted(after)
    ensures !flag && !before.payments[i].completed ==> (SomeCompleted(after) <==> SomeCompleted(before))
    ensures !flag && AtMostOneCompleted(before) ==> AtMostOneCompleted(after)
  {
    if !flag && !before.payments[i].completed {
      if SomeCompleted(before) {
        var k :| 0 <= k < |before.payments| && before.payments[k].completed;
        assert after.payments[k].completed;
      }
      if SomeCompleted(after) {
        var k :| 0 <= k < |after.payments| && after.payments[k].completed;
        assert before.payments[k].completed;
      }
    }
  }

  lemma FailAsyncExactly(s: State, i: nat, o: Oracle)
    requires Joint(s) && i < |s.payments|
    ensures Joint(Perform(s, FailAsync(i), o)) <==> Allowed(s, FailAsync(i), o)
  {
    CompletedOnly(s, Perform(s, FailAsync(i), o), i, false);
  }

  lemma RevertExactly(s: State, i: nat, refund: bool, trigger: Trigger, o: Oracle)
    requires Joint(s) && i < |s.payments|
    ensures Joint(RevertPayment(s, i, refund, trigger, o)) <==> Allowed(s, Revert(i, refund, trigger), o)
  {
    var after := RevertPayment(s, i, refund, trigger, o);
    if RevertProceeds(s.payments[i], refund, o) {
      assert OnlyFlag(s, after, i, false);
      CompletedOnly(s, after, i, false);
    }
  }

  lemma RestoreExactly(s: State, i: nat, o: Oracle)
    requires Joint(s) && i < |s.payments|
    ensures Joint(RestorePayment(s, i, o)) <==> Allowed(s, Restore(i), o)
  {
    var after := RestorePayment(s, i, o);
    assert OnlyFlag(s, after, i, true);
    CompletedOnly(s, after, i, true);
    assert after.payments[i].completed;
  }

  lemma PerformExactly(s: State, action: Action, o: Oracle)
    requires Joint(s) && InRange(s, action)
    ensures Joint(Perform(s, action, o)) <==> Allowed(s, action, o)
  {
    match action
    case Settle(i, session, source) => SettleExactly(s, i, session, source, o);
    case FailAsync(i) => FailAsyncExactly(s, i, o);
    case Revert(i, refund, trigger) => RevertExactly(s, i, refund, trigger, o);
    case Restore(i) => RestoreExactly(s, i, o);
    case Nothing =>
    case Note(entry) =>
  }

  // ----- The remaining steps -----

  /** Equal but for the clock and for intents newly linked to rows. */
  predicate SameButIntents(before: State, after: State) {
    && after == before.(payments := after.payments, clock := after.clock)
    && |after.payments| == |before.payments|
    && forall i | 0 <= i < |before.payments| :: after.payments[i] == before.payments[i].(intent := after.payments[i].intent)
  }

  /** Finding the row of an event may link it to an intent but changes nothing else. */
  lemma LocateOnlyLinks(s: State, event: StripeEvent)
    ensures Locate(s, event).Located? ==> SameButIntents(s, Locate(s, event).state) && Locate(s, event).state.clock == s.clock
  {
  }

  lemma PlanOnlyLinks(w: World, m: Moment)
    requires PlanStep(w, m).Act?
    ensures SameButIntents(w.state, PlanStep(w, m).state) && PlanStep(w, m).state.clock == w.state.clock + m.elapsed
  {
    if m.step.Deliver? {
      LocateOnlyLinks(Ticked(w.state, m.elapsed), m.step.event);
    }
  }

  lemma SameButIntentsKeepsJoint(before: State, after: State)
    requires SameButIntents(before, after)
    ensures Joint(after) == Joint(before)
    ensures SomeCompleted(after) == SomeCompleted(before)
  {
    forall i | 0 <= i < |before.payments|
      ensures after.payments[i].completed == before.payments[i].completed
    {
    }
    if SomeCompleted(before) {
      var k :| 0 <= k < |before.payments| && before.payments[k].completed;
      assert after.payments[k].completed;
    }
  }

  function Shifted(i: nat, j: nat): nat {
    if j < i then j else j + 1
  }

  lemma RemovalShifts(payments: seq<Payment>, i: nat)
    requires i < |payments|
    ensures |Without(payments, i)| == |payments| - 1
    ensures forall j | 0 <= j < |payments| - 1 :: Without(payments, i)[j] == payments[Shifted(i, j)]
  {
  }

  lemma RemovalKeepsSome(payments: seq<Payment>, i: nat, k: nat)
    requires i < |payments| && k < |payments| && k != i
    ensures exists j | 0 <= j < |payments| - 1 :: Without(payments, i)[j] == payments[k]
  {
    RemovalShifts(payments, i);
    assert Without(payments, i)[if k < i then k else k - 1] == payments[k];
  }

  /** Deleting a row keeps the invariant unless it is the one backing a live paid package. */
  lemma RemovalExactly(s: State, i: nat)
    requires Joint(s) && i < |s.payments|
    ensures var after := s.(payments := Without(s.payments, i));
            Joint(after) <==> (s.payments[i].completed ==> !Live(s.package))
  {
    var after := s.(payments := Without(s.payments, i));
    RemovalShifts(s.payments, i);
    forall j, k | 0 <= j < |after.payments| && 0 <= k < |after.payments| && after.payments[j].completed && after.payments[k].completed
      ensures j == k
    {
      assert Shifted(i, j) == Shifted(i, k);
    }
    RemovalOfCompleted(s, i);
  }

  lemma RemovalOfCompleted(s: State, i: nat)
    requires Joint(s) && i < |s.payments|
    ensures SomeCompleted(s.(payments := Without(s.payments, i))) <==> SomeCompleted(s) && !s.payments[i].completed
  {
    var after := s.(payments := Without(s.payments, i));
    RemovalShifts(s.payments, i);
    if SomeCompleted(s) && !s.payments[i].completed {
      var k :| 0 <= k < |s.payments| && s.payments[k].completed;
      RemovalKeepsSome(s.payments, i, k);
    }
    if SomeCompleted(after) {
      var k :| 0 <= k < |after.payments| && after.payments[k].completed;
      assert s.payments[Shifted(i, k)].completed;
    }
  }

  lemma ClaimKeepsJoint(s: State, attempt: Attempt)
    requires Joint(s)
    ensures Joint(ClaimCheckout(s, attempt).0)
  {
    var (after, outcome) := ClaimCheckout(s, attempt);
    var latest := LatestIncomplete(s.payments);
    if after != s {
      if latest.Some? && s.payments[latest.value].session.Placeholder? {
        RemovalExactly(s, latest.value);
      }
    }
  }

  lemma AttachKeepsJoint(s: State, pk: nat, session: string)
    requires Joint(s)
    ensures Joint(Attach(s, pk, session).0)
  {
    var after := Attach(s, pk, session).0;
    if SomeCompleted(s) {
      var k :| 0 <= k < |s.payments| && s.payments[k].completed;
      assert after.payments[k].completed;
    }
  }

  lemma DeleteKeepsJoint(s: State, user: UserId)
    requires Joint(s)
    ensures Joint(DeletePackage(s, user).0)
  {
    var after := DeletePackage(s, user).0;
    if SomeCompleted(s) {
      var k :| 0 <= k < |s.payments| && s.payments[k].completed;
      assert after.payments[k].completed;
    }
  }

  lemma TickKeepsJoint(s: State, elapsed: nat)
    ensures Joint(Ticked(s, elapsed)) == Joint(s)
  {
    assert SomeCompleted(Ticked(s, elapsed)) == SomeCompleted(s);
  }

  lemma ActivateKeepsJoint(s: State, rowFree: bool)
    requires Joint(s)
    ensures Joint(Activate(s, rowFree))
  {
    var after := Activate(s, rowFree);
    assert after.payments == s.payments && SomeCompleted(after) == SomeCompleted(s);
  }

  /** One step, whatever it is, keeps the joint invariant if and only if it is allowed. */
  lemma StepKeepsJointExactly(w: World, m: Moment)
    requires Joint(w.state)
    ensures Joint(Next(w, m).state) <==> StepAllowed(w, m)
  {
    hide Joint, ApplyPaidSession, RevertPayment, RestorePayment, PlanEvent, PlanRefresh, Allowed, Attach, ItemsOf, Without;
    var s := Ticked(w.state, m.elapsed);
    TickKeepsJoint(w.state, m.elapsed);
    var plan := PlanStep(w, m);
    if plan.Act? {
      PlanOnlyLinks(w, m);
      SameButIntentsKeepsJoint(w.state, plan.state);
      PerformExactly(plan.state, plan.action, m.oracle);
    }
    match m.step
    case Deliver(id, event, crashed) =>
    case Sync(pk, reply) =>
    case Poll(reply) =>
    case Claim(attempt) => ClaimKeepsJoint(s, attempt);
    case AttachSession(pk, session) => AttachKeepsJoint(s, pk, session);
    case AbortClaim(pk) =>
      var at := PendingClaim(s, pk);
      if at.Some? {
        RemovalExactly(s, at.value);
      }
    case OpenQueued => ActivateKeepsJoint(s, m.oracle.rowFree);
    case Delete(user) => DeleteKeepsJoint(s, user);
  }

  // ----- Whole runs -----

  predicate AllowedRun(w: World, run: seq<Moment>) {
    forall n | 0 <= n < |run| :: StepAllowed(After(w, run, n), run[n])
  }

  /** Over every run from a state where the invariant holds, it holds after every step if and only
      if every step was allowed. */
  lemma {:induction false} RunKeepsJointExactly(w: World, run: seq<Moment>)
    requires Joint(w.state)
    ensures (forall n | 0 <= n <= |run| :: Joint(After(w, run, n).state)) <==> AllowedRun(w, run)
  {
    hide Next, Run, Joint, StepAllowed;
    AfterNothing(w, run);
    if run != [] {
      var shorter := run[..|run| - 1];
      RunKeepsJointExactly(w, shorter);
      forall n | 0 <= n <= |shorter|
        ensures After(w, shorter, n) == After(w, run, n)
      {
        AfterPrefix(w, run, |shorter|, n);
      }
      AfterStep(w, run, |shorter|);
      if Joint(After(w, run, |shorter|).state) {
        StepKeepsJointExactly(After(w, run, |shorter|), run[|shorter|]);
      }
    }
  }

  // ----- The backing of a live paid package on its own -----

  predicate AnotherCompleted(s: State, i: nat) {
    exists j | 0 <= j < |s.payments| :: j != i && s.payments[j].completed
  }

  predicate KeepsBacking(s: State, i: nat)
    requires i < |s.payments|
  {
    s.package.status == Paid && Live(s.package) && s.payments[i].completed ==> AnotherCompleted(s, i)
  }

  /** Without the other clauses only three things can strip a live paid package of its completed
      payment: a late async failure, an aborted claim, and a reversal that finds the row locked. */
  predicate BackingAllowed(w: World, m: Moment) {
    && (var plan := PlanStep(w, m);
        plan.Act? ==>
          match plan.action
          case FailAsync(i) => KeepsBacking(plan.state, i)
          case Revert(i, refund, _) =>
            RevertProceeds(plan.state.payments[i], refund, m.oracle) && !m.oracle.rowFree ==> KeepsBacking(plan.state, i)
          case _ => true)
    && (m.step.AbortClaim? ==> var at := PendingClaim(w.state, m.step.claim); at.Some? ==> KeepsBacking(w.state, at.value))
  }

  lemma FlagClearedBacking(before: State, after: State, i: nat)
    requires OnlyFlag(before, after, i, false) && after.package.status == before.package.status && PaidIsBacked(before)
    ensures PaidIsBacked(after) <==> KeepsBacking(before, i)
  {
    if AnotherCompleted(before, i) {
      var j :| 0 <= j < |before.payments| && j != i && before.payments[j].completed;
      assert after.payments[j].completed;
    }
    if SomeCompleted(after) {
      var j :| 0 <= j < |after.payments| && after.payments[j].completed;
      assert before.payments[j].completed && j != i;
    }
    if SomeCompleted(before) && !before.payments[i].completed {
      var j :| 0 <= j < |before.payments| && before.payments[j].completed;
      assert j != i;
    }
  }

  lemma PerformKeepsBacking(s: State, action: Action, o: Oracle)
    requires PaidIsBacked(s) && InRange(s, action)
    ensures PaidIsBacked(Perform(s, action, o)) <==>
            match action
            case FailAsync(i) => KeepsBacking(s, i)
            case Revert(i, refund, _) => RevertProceeds(s.payments[i], refund, o) && !o.rowFree ==> KeepsBacking(s, i)
            case _ => true
  {
    var after := Perform(s, action, o);
    match action
    case Settle(i, session, source) =>
      if AmountMatches(s.payments[i], session) {
        if !Live(s.package) || (s.package.status == Paid && !s.payments[i].completed) {
          FlagClearedBacking(s, after, i);
        } else {
          assert after.payments[i].completed;
        }
      }
    case FailAsync(i) => FlagClearedBacking(s, after, i);
    case Revert(i, refund, trigger) =>
      if RevertProceeds(s.payments[i], refund, o) && !o.rowFree {
        FlagClearedBacking(s, after, i);
      }
    case Restore(i) => assert after.payments[i].completed;
    case Nothing =>
    case Note(entry) =>
  }

  lemma RemovalKeepsBacking(s: State, i: nat)
    requires PaidIsBacked(s) && i < |s.payments|
    ensures PaidIsBacked(s.(payments := Without(s.payments, i))) <==> KeepsBacking(s, i)
  {
    var after := s.(payments := Without(s.payments, i));
    RemovalShifts(s.payments, i);
    forall k | 0 <= k < |s.payments| && k != i && s.payments[k].completed
      ensures SomeCompleted(after)
    {
      RemovalKeepsSome(s.payments, i, k);
    }
    if SomeCompleted(after) {
      var k :| 0 <= k < |after.payments| && after.payments[k].completed;
      assert s.payments[Shifted(i, k)].completed && Shifted(i, k) != i;
    }
  }

  lemma SameButIntentsKeepsBacking(before: State, after: State)
    requires SameButIntents(before, after)
    ensures PaidIsBacked(after) == PaidIsBacked(before)
  {
    SameButIntentsKeepsJoint(before, after);
  }

  /** From any backed state, a step leaves a live paid package backed if and only if it is none of
      those three. Reversals of siblings and won disputes cannot break this clause. */
  lemma StepKeepsBackingExactly(w: World, m: Moment)
    requires PaidIsBacked(w.state)
    ensures PaidIsBacked(Next(w, m).state) <==> BackingAllowed(w, m)
  {
    hide Perform, PlanEvent, PlanRefresh, RevertProceeds, ItemsOf, Attach, Without;
    var s := Ticked(w.state, m.elapsed);
    assert SameButIntents(w.state, s);
    SameButIntentsKeepsBacking(w.state, s);
    var plan := PlanStep(w, m);
    if plan.Act? {
      PlanOnlyLinks(w, m);
      SameButIntentsKeepsBacking(w.state, plan.state);
      PerformKeepsBacking(plan.state, plan.action, m.oracle);
    }
    match m.step
    case Deliver(id, event, crashed) =>
    case Sync(pk, reply) =>
    case Poll(reply) =>
    case Claim(attempt) =>
      var latest := LatestIncomplete(s.payments);
      if latest.Some? {
        RemovalKeepsBacking(s, latest.value);
      }
    case AttachSession(pk, session) => AttachKeepsBacking(s, pk, session);
    case AbortClaim(pk) =>
      var at := PendingClaim(s, pk);
      if at.Some? {
        RemovalKeepsBacking(s, at.value);
        assert KeepsBacking(s, at.value) == KeepsBacking(w.state, at.value);
      }
    case OpenQueued =>
    case Delete(user) =>
  }

  lemma AttachKeepsBacking(s: State, pk: nat, session: string)
    requires PaidIsBacked(s)
    ensures PaidIsBacked(Attach(s, pk, session).0)
  {
    var after := Attach(s, pk, session).0;
    if SomeCompleted(s) {
      var k :| 0 <= k < |s.payments| && s.payments[k].completed;
      assert after.payments[k].completed;
    }
  }

  lemma {:induction false} RunKeepsBackingExactly(w: World, run: seq<Moment>)
    requires PaidIsBacked(w.state)
    ensures (forall n | 0 <= n <= |run| :: PaidIsBacked(After(w, run, n).state)) <==>
            (forall n | 0 <= n < |run| :: BackingAllowed(After(w, run, n), run[n]))
  {
    hide Next, Run, PaidIsBacked, BackingAllowed;
    AfterNothing(w, run);
    if run != [] {
      var shorter := run[..|run| - 1];
      RunKeepsBackingExactly(w, shorter);
      forall n | 0 <= n <= |shorter|
        ensures After(w, shorter, n) == After(w, run, n)
      {
        AfterPrefix(w, run, |shorter|, n);
      }
      AfterStep(w, run, |shorter|);
      if PaidIsBacked(After(w, run, |shorter|).state) {
        StepKeepsBackingExactly(After(w, run, |shorter|), run[|shorter|]);
      }
    }
  }
}
