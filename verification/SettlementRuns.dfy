/** What whole runs of the settlement protocol keep of payment rows and checkout claims. */
module SettlementRuns {
  import opened Basics
  import opened Settlement
  import opened SettlementSafety

  // ----- Rows -----

  /** Rows are in creation order under distinct keys and sessions; keys are never reused. */
  predicate WellFormed(s: State) {
    && (forall i, j | 0 <= i < j < |s.payments| :: s.payments[i].pk < s.payments[j].pk)
    && (forall i | 0 <= i < |s.payments| :: s.payments[i].pk < s.nextPk)
    && (forall i, j | 0 <= i < j < |s.payments| :: s.payments[i].session != s.payments[j].session)
  }

  /** The columns of a row that settling, reverting, restoring and linking never write. */
  predicate SameRow(before: Payment, after: Payment) {
    after == before.(completed := after.completed, intent := after.intent)
  }

  predicate SameRows(before: State, after: State) {
    && |after.payments| == |before.payments| && after.nextPk == before.nextPk
    && (forall i | 0 <= i < |before.payments| :: SameRow(before.payments[i], after.payments[i]))
    && after.package == before.package.(status := after.package.status, paidBy := after.package.paidBy,
                                        paidAt := after.package.paidAt, deletedAt := after.package.deletedAt)
  }

  lemma WriteKeepsRows(s: State, i: nat, payment: Payment)
    requires i < |s.payments| && SameRow(s.payments[i], payment)
    ensures SameRows(s, WithPayment(s, i, payment))
  {
  }

  lemma MarkingKeepsRows(s: State, payer: Option<UserId>, currency: string, rowFree: bool)
    ensures SameRows(s, MarkAsPaid(s, payer, currency, rowFree))
    ensures SameRows(s, MarkAsRefunded(s, rowFree))
  {
  }

  lemma SameRowsTransitive(a: State, b: State, c: State)
    requires SameRows(a, b) && SameRows(b, c)
    ensures SameRows(a, c)
  {
  }

  lemma CompletingKeepsRows(s: State, i: nat, payment: Payment, o: Oracle)
    requires i < |s.payments| && SameRow(s.payments[i], payment)
    ensures SameRows(s, MarkAsPaid(WithPayment(s, i, payment), payment.payer, PayerCurrency(payment), o.rowFree))
  {
    var completed := WithPayment(s, i, payment);
    WriteKeepsRows(s, i, payment);
    MarkingKeepsRows(completed, payment.payer, PayerCurrency(payment), o.rowFree);
    SameRowsTransitive(s, completed, MarkAsPaid(completed, payment.payer, PayerCurrency(payment), o.rowFree));
  }

  lemma SettleKeepsRows(s: State, i: nat, session: Session, source: Source, o: Oracle)
    requires i < |s.payments|
    ensures SameRows(s, ApplyPaidSession(s, i, session, source, o).0)
  {
    hide AmountMatches;
    WriteKeepsRows(s, i, Failed(s.payments[i]));
    CompletingKeepsRows(s, i, CompletedFrom(s.payments[i], session), o);
  }

  lemma RevertKeepsRows(s: State, i: nat, refund: bool, trigger: Trigger, o: Oracle)
    requires i < |s.payments|
    ensures SameRows(s, RevertPayment(s, i, refund, trigger, o))
  {
    var paidBack := if refund then WithRefund(s, i, trigger, o.refundAccepted) else s;
    var failed := WithPayment(paidBack, i, Failed(s.payments[i]));
    WriteKeepsRows(s, i, Failed(s.payments[i]));
    MarkingKeepsRows(failed, None, "", o.rowFree);
    SameRowsTransitive(s, failed, MarkAsRefunded(failed, o.rowFree));
  }

  lemma PerformKeepsRows(s: State, action: Action, o: Oracle)
    requires InRange(s, action)
    ensures SameRows(s, Perform(s, action, o))
  {
    match action
    case Settle(i, session, source) => SettleKeepsRows(s, i, session, source, o);
    case Revert(i, refund, trigger) => RevertKeepsRows(s, i, refund, trigger, o);
    case Restore(i) => CompletingKeepsRows(s, i, s.payments[i].(completed := true), o);
    case FailAsync(i) => WriteKeepsRows(s, i, Failed(s.payments[i]));
    case Nothing =>
    case Note(_) =>
  }

  lemma SettlementStepKeepsRows(w: World, m: Moment)
    requires m.step.Deliver? || m.step.Sync? || m.step.Poll?
    ensures SameRows(w.state, Next(w, m).state)
  {
    var plan := PlanStep(w, m);
    if plan.Act? {
      PlanOnlyLinks(w, m);
      PerformKeepsRows(plan.state, plan.action, m.oracle);
    }
  }

  lemma SameRowsKeepsWellFormed(before: State, after: State)
    requires WellFormed(before) && SameRows(before, after)
    ensures WellFormed(after)
  {
  }

  lemma RemovalKeepsWellFormed(s: State, i: nat)
    requires WellFormed(s) && i < |s.payments|
    ensures WellFormed(s.(payments := Without(s.payments, i)))
  {
    RemovalShifts(s.payments, i);
  }

  lemma AppendKeepsWellFormed(s: State, payment: Payment)
    requires WellFormed(s) && payment.pk == s.nextPk && FindSession(s.payments, payment.session).None?
    ensures WellFormed(s.(payments := s.payments + [payment], nextPk := s.nextPk + 1))
  {
    forall i | 0 <= i < |s.payments|
      ensures s.payments[i].session != payment.session
    {
      assert s.payments[i] in s.payments;
    }
  }

  lemma AttachKeepsWellFormed(s: State, pk: nat, session: string)
    requires WellFormed(s)
    ensures WellFormed(Attach(s, pk, session).0) && Attach(s, pk, session).0.nextPk == s.nextPk
  {
    forall i | 0 <= i < |s.payments| && FindSession(s.payments, Stripe(session)).None?
      ensures s.payments[i].session != Stripe(session)
    {
      assert s.payments[i] in s.payments;
    }
  }

  lemma StepKeepsWellFormed(w: World, m: Moment)
    requires WellFormed(w.state)
    ensures WellFormed(Next(w, m).state) && w.state.nextPk <= Next(w, m).state.nextPk
  {
    if m.step.Deliver? || m.step.Sync? || m.step.Poll? {
      SettlementStepKeepsRows(w, m);
      SameRowsKeepsWellFormed(w.state, Next(w, m).state);
    } else {
      OtherStepKeepsWellFormed(w, m);
    }
  }

  lemma OtherStepKeepsWellFormed(w: World, m: Moment)
    requires WellFormed(w.state) && !(m.step.Deliver? || m.step.Sync? || m.step.Poll?)
    ensures WellFormed(Next(w, m).state) && w.state.nextPk <= Next(w, m).state.nextPk
  {
    hide ClaimCheckout, Perform, Attach, FindPk;
    var s := Ticked(w.state, m.elapsed);
    match m.step
    case Claim(attempt) => ClaimKeepsWellFormed(s, attempt);
    case AttachSession(pk, session) => AttachKeepsWellFormed(s, pk, session);
    case AbortClaim(pk) =>
      var at := PendingClaim(s, pk);
      if at.Some? {
        RemovalKeepsWellFormed(s, at.value);
      }
    case OpenQueued =>
    case Delete(user) =>
  }

  lemma ReclaimKeepsWellFormed(s: State, latest: Option<nat>)
    requires WellFormed(s) && (latest.Some? ==> latest.value < |s.payments|)
    ensures WellFormed(Reclaimed(s, latest)) && Reclaimed(s, latest).nextPk == s.nextPk
  {
    if latest.Some? {
      RemovalKeepsWellFormed(s, latest.value);
    }
  }

  lemma CommitKeepsWellFormed(s: State, attempt: Attempt, latest: Option<nat>)
    requires WellFormed(s) && (latest.Some? ==> latest.value < |s.payments|)
    ensures WellFormed(CommitClaim(s, attempt, latest).0) && s.nextPk <= CommitClaim(s, attempt, latest).0.nextPk
  {
    hide WellFormed, ItemsOf, FindSession, Reclaimed;
    ReclaimKeepsWellFormed(s, latest);
    var reclaimed, items := Reclaimed(s, latest), ItemsOf(s, attempt);
    if items.Success? && FindSession(reclaimed.payments, Placeholder(attempt.uuid)).None? {
      AppendKeepsWellFormed(reclaimed, NewClaim(reclaimed, attempt, items.value));
    }
  }

  lemma ClaimKeepsWellFormed(s: State, attempt: Attempt)
    requires WellFormed(s)
    ensures WellFormed(ClaimCheckout(s, attempt).0) && s.nextPk <= ClaimCheckout(s, attempt).0.nextPk
  {
    hide WellFormed, CommitClaim, FreshClaim;
    CommitKeepsWellFormed(s, attempt, LatestIncomplete(s.payments));
  }

  lemma {:induction false} RunKeepsWellFormed(w: World, run: seq<Moment>)
    requires WellFormed(w.state)
    ensures WellFormed(Run(w, run).state) && w.state.nextPk <= Run(w, run).state.nextPk
    decreases |run|
  {
    hide Next, WellFormed;
    if run != [] {
      RunKeepsWellFormed(w, run[..|run| - 1]);
      StepKeepsWellFormed(Run(w, run[..|run| - 1]), run[|run| - 1]);
    }
  }

  // ----- Checkout claims -----

  /** A claim still waiting for its session is the newest row, so there is at most one. */
  predicate PendingIsNewest(s: State) {
    forall i | 0 <= i < |s.payments| && s.payments[i].session.Placeholder? :: i == |s.payments| - 1
  }

  lemma PendingClaimIsLatest(s: State)
    requires CompletedIsPaid(s) && s.package.status == Open && s.payments != []
    ensures LatestIncomplete(s.payments) == Some(|s.payments| - 1)
  {
    assert !s.payments[|s.payments| - 1].completed;
  }

  /** What one claim attempt does: a claim is only made on an open package and becomes the newest and
      only pending row; a fresh claim blocks; a stale one is deleted first, unless the whole block rolls back. */
  lemma ClaimIsExclusive(s: State, attempt: Attempt)
    requires WellFormed(s) && CompletedIsPaid(s) && PendingIsNewest(s)
    ensures var (after, outcome) := ClaimCheckout(s, attempt);
            var n := |s.payments|;
            var pending := n > 0 && s.payments[n - 1].session.Placeholder?;
            && PendingIsNewest(after)
            && (outcome.Claimed? ==>
                  && attempt.eligible && s.package.status == Open
                  && after.payments != [] && after.payments[|after.payments| - 1].pk == outcome.pk == s.nextPk
                  && after.payments[|after.payments| - 1].session == Placeholder(attempt.uuid)
                  && after.payments[..|after.payments| - 1] == if pending then s.payments[..n - 1] else s.payments)
            && (!outcome.Claimed? && after != s ==>
                  outcome == NoPayableItems && pending && after == s.(payments := s.payments[..n - 1]))
            && (pending && FreshClaim(s, s.payments[n - 1]) ==> after == s && (outcome == Preparing || outcome == NotPayable || outcome == Unavailable))
  {
    var latest := LatestIncomplete(s.payments);
    if s.package.status == Open && s.payments != [] {
      PendingClaimIsLatest(s);
      assert Without(s.payments, |s.payments| - 1) == s.payments[..|s.payments| - 1];
    }
  }

  /** The newest row still has a placeholder although a won dispute completed it. */
  predicate NewestIsCompletedClaim(s: State) {
    var n := |s.payments|;
    n > 0 && s.payments[n - 1].session.Placeholder? && s.payments[n - 1].completed
  }

  /** Making a claim on top of such a row is the one way to get a second pending row. */
  lemma ClaimKeepsPendingExactly(s: State, attempt: Attempt)
    requires PendingIsNewest(s)
    ensures var (after, outcome) := ClaimCheckout(s, attempt);
            PendingIsNewest(after) <==> !(outcome.Claimed? && NewestIsCompletedClaim(s))
  {
    hide ItemsOf, FreshClaim, FindSession;
    var n, latest := |s.payments|, LatestIncomplete(s.payments);
    if n > 0 && !s.payments[n - 1].completed {
      assert latest == Some(n - 1);
      assert Without(s.payments, n - 1) == s.payments[..n - 1];
    } else if latest.Some? {
      assert latest.value < n - 1 && s.payments[latest.value].session.Stripe?;
    }
    var after := ClaimCheckout(s, attempt).0;
    if ClaimCheckout(s, attempt).1.Claimed? && NewestIsCompletedClaim(s) {
      assert after.payments[n - 1] == s.payments[n - 1] && |after.payments| == n + 1;
    }
  }

  predicate ClaimsOverCompleted(w: World, m: Moment) {
    m.step.Claim? && ClaimCheckout(Ticked(w.state, m.elapsed), m.step.attempt).1.Claimed? && NewestIsCompletedClaim(w.state)
  }

  lemma StepKeepsPendingExactly(w: World, m: Moment)
    requires PendingIsNewest(w.state)
    ensures PendingIsNewest(Next(w, m).state) <==> !ClaimsOverCompleted(w, m)
  {
    hide ClaimCheckout, Perform, PlanEvent, PlanRefresh;
    var s := Ticked(w.state, m.elapsed);
    match m.step
    case Claim(attempt) => ClaimKeepsPendingExactly(s, attempt);
    case AttachSession(pk, session) =>
    case AbortClaim(pk) =>
      var at := PendingClaim(s, pk);
      if at.Some? {
        RemovalShifts(s.payments, at.value);
      }
    case OpenQueued =>
    case Delete(user) =>
    case _ => SettlementStepKeepsRows(w, m);
  }

  /** Over every run at most one pending row exists and it is the newest, at every point, if and only
      if no claim is made on top of a completed one. */
  lemma {:induction false} RunKeepsPendingExactly(w: World, run: seq<Moment>)
    requires PendingIsNewest(w.state)
    ensures (forall n | 0 <= n <= |run| :: PendingIsNewest(After(w, run, n).state)) <==>
            (forall n | 0 <= n < |run| :: !ClaimsOverCompleted(After(w, run, n), run[n]))
  {
    hide Next, Run, PendingIsNewest, ClaimsOverCompleted;
    AfterNothing(w, run);
    if run != [] {
      var shorter := run[..|run| - 1];
      RunKeepsPendingExactly(w, shorter);
      forall n | 0 <= n <= |shorter|
        ensures After(w, shorter, n) == After(w, run, n)
      {
        AfterPrefix(w, run, |shorter|, n);
      }
      AfterStep(w, run, |shorter|);
      if PendingIsNewest(After(w, run, |shorter|).state) {
        StepKeepsPendingExactly(After(w, run, |shorter|), run[|shorter|]);
      }
    }
  }

  lemma ClaimNeedsUnpaid(w: World, m: Moment)
    requires CompletedIsPaid(w.state)
    ensures !ClaimsOverCompleted(w, m)
  {
    hide ItemsOf, FreshClaim, LatestIncomplete, Reclaimed;
  }

  /** So claims are exclusive over every run in which completed payments belong to a paid package
      whenever a claim is attempted, whatever else happens in between. */
  lemma RunKeepsClaimsExclusive(w: World, run: seq<Moment>)
    requires PendingIsNewest(w.state)
    requires forall n | 0 <= n < |run| && run[n].step.Claim? :: CompletedIsPaid(After(w, run, n).state)
    ensures forall n | 0 <= n <= |run| :: PendingIsNewest(After(w, run, n).state)
  {
    forall n | 0 <= n < |run|
      ensures !ClaimsOverCompleted(After(w, run, n), run[n])
    {
      if run[n].step.Claim? {
        ClaimNeedsUnpaid(After(w, run, n), run[n]);
      }
    }
    RunKeepsPendingExactly(w, run);
  }

  predicate Gone(s: State, pk: nat) {
    pk < s.nextPk && FindPk(s.payments, pk).None?
  }

  lemma FindPkIsAbsence(payments: seq<Payment>, pk: nat)
    ensures FindPk(payments, pk).None? <==> forall i | 0 <= i < |payments| :: payments[i].pk != pk
  {
    forall i | 0 <= i < |payments|
      ensures payments[i] in payments
    {
    }
  }

  /** Every row after a step is an old row with its key and amounts untouched, or the claim just made. */
  predicate RowOfStep(w: World, m: Moment, row: Payment) {
    || (exists j | 0 <= j < |w.state.payments| ::
          && w.state.payments[j].pk == row.pk && w.state.payments[j].expectedCents == row.expectedCents
          && w.state.payments[j].currency == row.currency)
    || (m.step.Claim? &&
          var s := Ticked(w.state, m.elapsed);
          && ClaimCheckout(s, m.step.attempt).1 == Claimed(row.pk) && row.pk == s.nextPk
          && ItemsOf(s, m.step.attempt).Success?
          && row == NewClaim(s, m.step.attempt, ItemsOf(s, m.step.attempt).value))
  }

  lemma ClaimRows(w: World, m: Moment, i: nat)
    requires m.step.Claim?
    requires i < |ClaimCheckout(Ticked(w.state, m.elapsed), m.step.attempt).0.payments|
    ensures var row := ClaimCheckout(Ticked(w.state, m.elapsed), m.step.attempt).0.payments[i];
            RowOfStep(w, m, row) && (row in w.state.payments || !row.completed)
  {
    var s := Ticked(w.state, m.elapsed);
    var after := ClaimCheckout(s, m.step.attempt).0;
    var latest := LatestIncomplete(s.payments);
    if after.payments != s.payments && latest.Some? && s.payments[latest.value].session.Placeholder? {
      RemovalShifts(s.payments, latest.value);
      if i < |s.payments| - 1 {
        assert after.payments[i] == s.payments[Shifted(latest.value, i)];
      }
    } else if i < |s.payments| {
      assert after.payments[i] == s.payments[i];
    }
  }

  lemma StepRows(w: World, m: Moment, i: nat)
    requires i < |Next(w, m).state.payments|
    ensures RowOfStep(w, m, Next(w, m).state.payments[i])
  {
    hide ClaimCheckout, ItemsOf, Perform;
    var s := Ticked(w.state, m.elapsed);
    match m.step
    case Claim(_) => ClaimRows(w, m, i);
    case AttachSession(_, _) =>
      assert w.state.payments[i].pk == Next(w, m).state.payments[i].pk;
    case AbortClaim(pk) =>
      var at := PendingClaim(s, pk);
      if at.Some? {
        RemovalShifts(s.payments, at.value);
        assert Next(w, m).state.payments[i] == w.state.payments[Shifted(at.value, i)];
      }
    case OpenQueued =>
    case Delete(_) =>
    case _ =>
      SettlementStepKeepsRows(w, m);
      assert SameRow(w.state.payments[i], Next(w, m).state.payments[i]);
  }

  lemma StepKeepsGone(w: World, m: Moment, pk: nat)
    requires Gone(w.state, pk) && w.state.nextPk <= Next(w, m).state.nextPk
    ensures Gone(Next(w, m).state, pk)
  {
    hide Next, ClaimCheckout, ItemsOf;
    var after := Next(w, m).state;
    FindPkIsAbsence(w.state.payments, pk);
    FindPkIsAbsence(after.payments, pk);
    forall i | 0 <= i < |after.payments|
      ensures after.payments[i].pk != pk
    {
      StepRows(w, m, i);
    }
  }

  /** A reclaimed or aborted claim stays gone, and its process can no longer attach a session. */
  lemma {:induction false} ReclaimedNeverAttaches(w: World, run: seq<Moment>, pk: nat, session: string)
    requires WellFormed(w.state) && Gone(w.state, pk)
    ensures var s := Run(w, run).state; Gone(s, pk) && Attach(s, pk, session) == (s, false)
    decreases |run|
  {
    hide Next;
    if run != [] {
      ReclaimedNeverAttaches(w, run[..|run| - 1], pk, session);
      RunKeepsWellFormed(w, run[..|run| - 1]);
      StepKeepsWellFormed(Run(w, run[..|run| - 1]), run[|run| - 1]);
      StepKeepsGone(Run(w, run[..|run| - 1]), run[|run| - 1], pk);
    }
  }

  // ----- Rows with a real session -----

  /** The state still has the row, under its key and session, and with its intent if that is settled. */
  predicate StillHas(s: State, row: Payment, withIntent: bool) {
    exists j | 0 <= j < |s.payments| ::
      && s.payments[j].pk == row.pk && s.payments[j].session == row.session
      && (withIntent ==> s.payments[j].intent == row.intent)
  }

  /** Nothing is written to the intents of a deleted package once they are known. */
  predicate IntentSettled(s: State, row: Payment) {
    !Live(s.package) && row.intent != ""
  }

  lemma LocateKeepsIntents(s: State, event: StripeEvent, i: nat)
    requires i < |s.payments| && s.payments[i].intent != "" && Locate(s, event).Located?
    requires i < |Locate(s, event).state.payments|
    ensures Locate(s, event).state.payments[i].intent == s.payments[i].intent
  {
  }

  lemma PerformKeepsDeletedIntents(s: State, action: Action, o: Oracle, i: nat)
    requires InRange(s, action) && !Live(s.package) && i < |s.payments| && i < |Perform(s, action, o).payments|
    ensures Perform(s, action, o).payments[i].intent == s.payments[i].intent
  {
    hide AmountMatches, RevokedShares, GrantedShares, MarkReceipts, ActiveRecords;
  }

  lemma SettlementStepKeepsRealRow(w: World, m: Moment, i: nat)
    requires i < |w.state.payments| && (m.step.Deliver? || m.step.Sync? || m.step.Poll?)
    ensures StillHas(Next(w, m).state, w.state.payments[i], IntentSettled(w.state, w.state.payments[i]))
  {
    SettlementStepKeepsRows(w, m);
    var row, after, plan := w.state.payments[i], Next(w, m).state, PlanStep(w, m);
    assert SameRow(row, after.payments[i]);
    if IntentSettled(w.state, row) && plan.Act? {
      PlanOnlyLinks(w, m);
      assert plan.state.payments[i].intent == row.intent by {
        if m.step.Deliver? && !((m.step.id != "" && m.step.id in w.processed) || m.step.crashed) {
          LocateKeepsIntents(Ticked(w.state, m.elapsed), m.step.event, i);
        }
      }
      PerformKeepsDeletedIntents(plan.state, plan.action, m.oracle, i);
    }
    hide PlanStep, Next, Perform;
  }

  lemma RemovalKeepsOthers(s: State, at: nat, i: nat)
    requires at < |s.payments| && i < |s.payments| && i != at
    ensures StillHas(s.(payments := Without(s.payments, at)), s.payments[i], true)
  {
    RemovalShifts(s.payments, at);
    var j := if i < at then i else i - 1;
    assert Shifted(at, j) == i;
    assert Without(s.payments, at)[j] == s.payments[i];
  }

  lemma ClaimKeepsRealRow(s: State, attempt: Attempt, i: nat)
    requires i < |s.payments| && s.payments[i].session.Stripe?
    ensures StillHas(ClaimCheckout(s, attempt).0, s.payments[i], true)
  {
    hide ItemsOf, FreshClaim, FindSession;
    var latest := LatestIncomplete(s.payments);
    var reclaimed := Reclaimed(s, latest);
    assert StillHas(s, s.payments[i], true);
    if latest.Some? && s.payments[latest.value].session.Placeholder? {
      RemovalKeepsOthers(s, latest.value, i);
    }
    assert StillHas(reclaimed, s.payments[i], true);
    var j :| 0 <= j < |reclaimed.payments| && reclaimed.payments[j].pk == s.payments[i].pk
             && reclaimed.payments[j].session == s.payments[i].session && reclaimed.payments[j].intent == s.payments[i].intent;
    var after := ClaimCheckout(s, attempt).0;
    assert after == s || after == reclaimed || after.payments[j] == reclaimed.payments[j];
    hide ClaimCheckout, Reclaimed, LatestIncomplete;
  }

  /** A row with a real session stays, under its key and session, through every step of every kind; on
      a deleted package it keeps its intent too. */
  lemma StepKeepsRealRow(w: World, m: Moment, i: nat)
    requires i < |w.state.payments| && w.state.payments[i].session.Stripe?
    ensures StillHas(Next(w, m).state, w.state.payments[i], IntentSettled(w.state, w.state.payments[i]))
  {
    hide ClaimCheckout, Perform, PlanEvent, PlanRefresh;
    var s, row := Ticked(w.state, m.elapsed), w.state.payments[i];
    assert StillHas(s, row, true);
    match m.step
    case Claim(attempt) => ClaimKeepsRealRow(s, attempt, i);
    case AttachSession(pk, session) => assert Attach(s, pk, session).0.payments[i] == row;
    case AbortClaim(pk) =>
      var at := PendingClaim(s, pk);
      if at.Some? {
        RemovalKeepsOthers(s, at.value, i);
      }
    case OpenQueued => assert Activate(s, m.oracle.rowFree).payments == s.payments;
    case Delete(user) => assert DeletePackage(s, user).0.payments == s.payments;
    case _ => SettlementStepKeepsRealRow(w, m, i);
  }
}
