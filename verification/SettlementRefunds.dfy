/** What refunds the runs of the protocol issue, and for which payments. */
module SettlementRefunds {
  import opened Basics
  import opened Settlement
  import opened SettlementSafety
  import opened SettlementRuns

  // ----- Refund conservation -----

  function Flag(b: bool): nat {
    if b then 1 else 0
  }

  predicate Done(s: State, pk: nat) {
    exists i | 0 <= i < |s.payments| :: s.payments[i].pk == pk && s.payments[i].completed
  }

  function RefundCount(refunds: seq<Refund>, pk: nat): nat {
    if refunds == [] then 0
    else RefundCount(refunds[..|refunds| - 1], pk) + Flag(refunds[|refunds| - 1].pk == pk)
  }

  /** How often the payment went from incomplete to completed along a run. */
  function Completions(w: World, run: seq<Moment>, pk: nat): nat
    decreases |run|
  {
    if run == [] then 0
    else
      var before := Run(w, run[..|run| - 1]);
      Completions(w, run[..|run| - 1], pk) + Flag(!Done(before.state, pk) && Done(Next(before, run[|run| - 1]).state, pk))
  }

  lemma RefundAppend(refunds: seq<Refund>, entry: Refund, pk: nat)
    ensures RefundCount(refunds + [entry], pk) == RefundCount(refunds, pk) + Flag(entry.pk == pk)
  {
    assert (refunds + [entry])[..|refunds|] == refunds;
  }

  /** An action issues at most one refund, for a payment it takes from completed to failed. */
  lemma PerformRefundsOnlyReversals(s: State, action: Action, o: Oracle)
    requires InRange(s, action)
    ensures var after := Perform(s, action, o);
            after.refunds == s.refunds ||
            exists i, entry | 0 <= i < |s.payments| ::
              && after.refunds == s.refunds + [entry] && entry.pk == s.payments[i].pk && entry.intent == s.payments[i].intent
              && s.payments[i].completed && !after.payments[i].completed
  {
    hide AmountMatches, RevokedShares, GrantedShares, MarkReceipts;
    if (action.Settle? || action.Revert?) && Perform(s, action, o).refunds != s.refunds {
      var after := Perform(s, action, o);
      var trigger := if action.Settle? then DeletedBeforeSettlement else action.trigger;
      assert after.refunds == s.refunds + [Refund(s.payments[action.at].pk, trigger, s.payments[action.at].intent)];
    }
  }

  lemma DoneByIndex(s: State, i: nat)
    requires WellFormed(s) && i < |s.payments|
    ensures Done(s, s.payments[i].pk) == s.payments[i].completed
  {
  }

  lemma LinkingKeepsDone(before: State, after: State, pk: nat)
    requires SameButIntents(before, after)
    ensures Done(after, pk) == Done(before, pk)
  {
    if Done(before, pk) {
      var i :| 0 <= i < |before.payments| && before.payments[i].pk == pk && before.payments[i].completed;
      assert after.payments[i].pk == pk && after.payments[i].completed;
    }
    if Done(after, pk) {
      var i :| 0 <= i < |after.payments| && after.payments[i].pk == pk && after.payments[i].completed;
      assert before.payments[i].pk == pk && before.payments[i].completed;
    }
  }

  /** One step pays for each refund with a completed payment that is completed no longer. */
  lemma StepRefundsOnlyReversals(w: World, m: Moment, pk: nat)
    requires WellFormed(w.state)
    ensures RefundCount(Next(w, m).state.refunds, pk) <=
            RefundCount(w.state.refunds, pk) + Flag(Done(w.state, pk) && !Done(Next(w, m).state, pk))
  {
    hide Next, Perform, Done;
    var plan := PlanStep(w, m);
    var after := Next(w, m).state;
    if (m.step.Deliver? || m.step.Sync? || m.step.Poll?) && plan.Act? {
      PlanOnlyLinks(w, m);
      NextPerforms(w, m);
      LinkingKeepsDone(w.state, plan.state, pk);
      PerformRefundsOnlyReversals(plan.state, plan.action, m.oracle);
      PerformKeepsRows(plan.state, plan.action, m.oracle);
      SameRowsKeepsWellFormed(w.state, plan.state);
      SameRowsKeepsWellFormed(plan.state, after);
      if after.refunds != plan.state.refunds {
        var i, entry :| 0 <= i < |plan.state.payments| && after.refunds == plan.state.refunds + [entry]
                        && entry.pk == plan.state.payments[i].pk && plan.state.payments[i].completed && !after.payments[i].completed;
        RefundAppend(plan.state.refunds, entry, pk);
        DoneByIndex(plan.state, i);
        DoneByIndex(after, i);
      }
    } else {
      OtherStepsRefundNothing(w, m);
    }
  }

  lemma NextPerforms(w: World, m: Moment)
    requires (m.step.Deliver? || m.step.Sync? || m.step.Poll?) && PlanStep(w, m).Act?
    ensures Next(w, m).state == Perform(PlanStep(w, m).state, PlanStep(w, m).action, m.oracle)
  {
  }

  lemma OtherStepsRefundNothing(w: World, m: Moment)
    requires !(m.step.Deliver? || m.step.Sync? || m.step.Poll?) || PlanStep(w, m).Retry?
    ensures Next(w, m).state.refunds == w.state.refunds
  {
  }

  /** Conservation on every run: refunds issued for a payment, plus one while it is completed, never
      exceed what there was at the start plus the number of times it was completed. */
  lemma {:induction false} RefundsAreConserved(w: World, run: seq<Moment>, pk: nat)
    requires WellFormed(w.state)
    ensures var s := Run(w, run).state;
            RefundCount(s.refunds, pk) + Flag(Done(s, pk)) <=
            RefundCount(w.state.refunds, pk) + Flag(Done(w.state, pk)) + Completions(w, run, pk)
    decreases |run|
  {
    hide Next, WellFormed, Done;
    if run != [] {
      var shorter := run[..|run| - 1];
      RefundsAreConserved(w, shorter, pk);
      RunKeepsWellFormed(w, shorter);
      StepRefundsOnlyReversals(Run(w, shorter), run[|run| - 1], pk);
    }
  }

  /** The docstring's promise that a refused settlement is refunded holds only for a payment that was
      completed before: a duplicate, or a first capture on a deleted package, gets no refund call. */
  lemma RefusedCaptureIsNotRefunded(s: State, i: nat, session: Session, source: Source, o: Oracle)
    requires i < |s.payments|
    ensures var after := ApplyPaidSession(s, i, session, source, o).0;
            after.refunds != s.refunds <==>
              AmountMatches(s.payments[i], session) && !Live(s.package) && Refunds(s.payments[i], o.refundAccepted)
  {
    hide AmountMatches, MarkReceipts, RevokedShares;
    if Refunds(s.payments[i], o.refundAccepted) {
      assert |s.refunds + [Refund(s.payments[i].pk, DeletedBeforeSettlement, s.payments[i].intent)]| == |s.refunds| + 1;
    }
  }

  predicate PaidBackElsewhere(event: StripeEvent) {
    || (event.ChargeRefunded? && event.refundedCents >= event.capturedCents)
    || (event.Dispute? && event.closed && event.verdict == Lost)
  }

  lemma RevertRefunds(s: State, i: nat, trigger: Trigger, o: Oracle)
    requires i < |s.payments| && s.payments[i].completed && s.package.status == Paid
    ensures var after := RevertPayment(s, i, true, trigger, o);
            after.package.status == Open ==>
              after.refunds == s.refunds + [Refund(s.payments[i].pk, trigger, s.payments[i].intent)]
  {
    hide MarkReceipts, GrantedShares, ActiveRecords;
  }

  lemma OnlyRevertReopens(s: State, action: Action, o: Oracle)
    requires InRange(s, action) && s.package.status == Paid && Perform(s, action, o).package.status == Open
    ensures action.Revert? && o.rowFree
  {
    hide AmountMatches, MarkReceipts, GrantedShares, RevokedShares, ActiveRecords;
  }

  lemma OtherStepsDoNotReopen(w: World, m: Moment)
    requires w.state.package.status == Paid && Next(w, m).state.package.status == Open
    ensures m.step.Deliver? && PlanStep(w, m).Act? && PlanStep(w, m).action.Revert?
    ensures PlanStep(w, m).action.refund || PaidBackElsewhere(m.step.event)
  {
    hide Perform, Locate;
    var plan := PlanStep(w, m);
    if plan.Act? && (m.step.Deliver? || m.step.Sync? || m.step.Poll?) {
      PlanOnlyLinks(w, m);
      NextPerforms(w, m);
      OnlyRevertReopens(plan.state, plan.action, m.oracle);
    }
  }

  /** Money safety: an allowed step reopens a paid package only after its completed payment has been
      refunded by this very step, or was already paid back by an external refund or a chargeback. */
  lemma ReopeningReturnsTheMoney(w: World, m: Moment, k: nat)
    requires WellFormed(w.state) && Joint(w.state) && StepAllowed(w, m)
    requires k < |w.state.payments| && w.state.payments[k].completed
    requires w.state.package.status == Paid && Next(w, m).state.package.status == Open
    ensures m.step.Deliver?
    ensures PaidBackElsewhere(m.step.event) ||
            RefundCount(Next(w, m).state.refunds, w.state.payments[k].pk) == RefundCount(w.state.refunds, w.state.payments[k].pk) + 1
  {
    hide Next, Perform, PlanStep, RevertPayment;
    OtherStepsDoNotReopen(w, m);
    var plan := PlanStep(w, m);
    NextPerforms(w, m);
    PlanOnlyLinks(w, m);
    OnlyRevertReopens(plan.state, plan.action, m.oracle);
    if !PaidBackElsewhere(m.step.event) {
      RevertOfCompleted(plan.state, plan.action.at, plan.action.trigger, m.oracle, k);
      RefundAppend(plan.state.refunds, Refund(plan.state.payments[k].pk, plan.action.trigger, plan.state.payments[k].intent), plan.state.payments[k].pk);
    }
  }

  /** An allowed refunding reversal of a paid package names its completed payment. */
  lemma RevertOfCompleted(s: State, i: nat, trigger: Trigger, o: Oracle, k: nat)
    requires i < |s.payments| && k < |s.payments| && s.payments[k].completed && s.package.status == Paid && o.rowFree
    requires Allowed(s, Revert(i, true, trigger), o) && Perform(s, Revert(i, true, trigger), o).package.status == Open
    requires AtMostOneCompleted(s)
    ensures i == k
    ensures Perform(s, Revert(i, true, trigger), o).refunds == s.refunds + [Refund(s.payments[k].pk, trigger, s.payments[k].intent)]
  {
    hide MarkReceipts, GrantedShares, ActiveRecords;
    assert SomeCompleted(s);
    if s.payments[i].completed {
      RevertRefunds(s, i, trigger, o);
    }
  }

  // ----- At most one refund -----

  predicate EverDone(w: World, run: seq<Moment>, pk: nat)
    decreases |run|
  {
    Done(Run(w, run).state, pk) || (run != [] && EverDone(w, run[..|run| - 1], pk))
  }

  /** The action completes row `pk`: a matching settlement on a live package that is not paid yet, or
      a won dispute. */
  predicate Completes(s: State, action: Action, pk: nat)
    requires InRange(s, action)
  {
    match action
    case Settle(i, session, _) =>
      && s.payments[i].pk == pk && !s.payments[i].completed
      && AmountMatches(s.payments[i], session) && Live(s.package) && s.package.status != Paid
    case Restore(i) => s.payments[i].pk == pk && !s.payments[i].completed
    case _ => false
  }

  predicate CompletesStep(w: World, m: Moment, pk: nat) {
    var plan := PlanStep(w, m);
    plan.Act? && Completes(plan.state, plan.action, pk)
  }

  /** No step completes the payment once it has been completed before. */
  predicate NeverAgain(w: World, run: seq<Moment>, pk: nat)
    decreases |run|
  {
    run != [] ==>
      var shorter := run[..|run| - 1];
      && NeverAgain(w, shorter, pk)
      && (EverDone(w, shorter, pk) ==> !CompletesStep(Run(w, shorter), run[|run| - 1], pk))
  }

  /** Checkout, activation and deletion complete nothing. */
  lemma OtherStepsCompleteNothing(w: World, m: Moment, pk: nat)
    requires !(m.step.Deliver? || m.step.Sync? || m.step.Poll?) && Done(Next(w, m).state, pk)
    ensures Done(w.state, pk)
  {
    hide ClaimCheckout, Perform, DeletePackage;
    var s, after := Ticked(w.state, m.elapsed), Next(w, m).state;
    var i :| 0 <= i < |after.payments| && after.payments[i].pk == pk && after.payments[i].completed;
    match m.step
    case Claim(attempt) => ClaimRows(w, m, i);
    case AttachSession(_, _) => assert s.payments[i].pk == pk && s.payments[i].completed;
    case AbortClaim(other) =>
      var at := PendingClaim(s, other);
      if at.Some? {
        RemovalShifts(s.payments, at.value);
        assert after.payments[i] == s.payments[Shifted(at.value, i)];
      }
    case OpenQueued => assert after.payments[i] == s.payments[i];
    case Delete(user) =>
      DeletionKeepsRows(s, user);
      assert after.payments[i] == s.payments[i];
  }

  lemma DeletionKeepsRows(s: State, user: UserId)
    ensures DeletePackage(s, user).0.payments == s.payments && DeletePackage(s, user).0.nextPk == s.nextPk
  {
  }

  lemma FlagSetExactly(s: State, action: Action, o: Oracle, i: nat)
    requires InRange(s, action) && i < |s.payments| && i < |Perform(s, action, o).payments| && !s.payments[i].completed
    ensures Perform(s, action, o).payments[i].completed <==>
              || (action.Settle? && action.at == i && AmountMatches(s.payments[i], action.session)
                  && Live(s.package) && s.package.status != Paid)
              || (action.Restore? && action.at == i)
  {
    hide AmountMatches, RevokedShares, GrantedShares, MarkReceipts, ActiveRecords;
  }

  /** An incomplete payment is completed by an action if and only if the action is one of the two. */
  lemma CompletedByActionExactly(s: State, action: Action, o: Oracle, pk: nat)
    requires InRange(s, action) && !Done(s, pk)
    ensures Done(Perform(s, action, o), pk) <==> Completes(s, action, pk)
  {
    hide Perform, AmountMatches;
    var after := Perform(s, action, o);
    PerformKeepsRows(s, action, o);
    if Completes(s, action, pk) {
      FlagSetExactly(s, action, o, action.at);
      assert SameRow(s.payments[action.at], after.payments[action.at]);
    }
    if Done(after, pk) {
      var i :| 0 <= i < |after.payments| && after.payments[i].pk == pk && after.payments[i].completed;
      assert SameRow(s.payments[i], after.payments[i]);
      FlagSetExactly(s, action, o, i);
    }
  }

  lemma CompletedByStepExactly(w: World, m: Moment, pk: nat)
    requires !Done(w.state, pk)
    ensures Done(Next(w, m).state, pk) <==> CompletesStep(w, m, pk)
  {
    hide Next, Perform, Done, PlanEvent, PlanRefresh;
    var plan := PlanStep(w, m);
    if (m.step.Deliver? || m.step.Sync? || m.step.Poll?) && plan.Act? {
      PlanOnlyLinks(w, m);
      NextPerforms(w, m);
      LinkingKeepsDone(w.state, plan.state, pk);
      CompletedByActionExactly(plan.state, plan.action, m.oracle, pk);
    } else if m.step.Deliver? {
      RetryKeepsDone(w, m, pk);
    } else if Done(Next(w, m).state, pk) {
      OtherStepsCompleteNothing(w, m, pk);
    }
  }

  lemma RetryKeepsDone(w: World, m: Moment, pk: nat)
    requires PlanStep(w, m).Retry?
    ensures Done(Next(w, m).state, pk) == Done(w.state, pk)
  {
  }

  lemma CompletedRowIsNotCompleted(w: World, m: Moment, pk: nat)
    requires WellFormed(w.state) && Done(w.state, pk)
    ensures !CompletesStep(w, m, pk)
  {
    var plan := PlanStep(w, m);
    hide PlanStep, AmountMatches;
    if plan.Act? && (plan.action.Settle? || plan.action.Restore?) {
      PlanOnlyLinks(w, m);
      LinkingKeepsDone(w.state, plan.state, pk);
      SameRowsKeepsWellFormed(w.state, plan.state);
      DoneByIndex(plan.state, plan.action.at);
    }
  }

  /** A payment is completed at most once if and only if no step completes it again. */
  lemma {:induction false} CompletedOnceExactly(w: World, run: seq<Moment>, pk: nat)
    requires WellFormed(w.state) && !Done(w.state, pk)
    ensures Completions(w, run, pk) <= 1 <==> NeverAgain(w, run, pk)
    ensures EverDone(w, run, pk) <==> Completions(w, run, pk) > 0
    decreases |run|
  {
    hide Next, Done, CompletesStep, WellFormed;
    if run != [] {
      var shorter := run[..|run| - 1];
      CompletedOnceExactly(w, shorter, pk);
      var before, m := Run(w, shorter), run[|run| - 1];
      if Done(before.state, pk) {
        assert EverDone(w, shorter, pk);
        RunKeepsWellFormed(w, shorter);
        CompletedRowIsNotCompleted(before, m, pk);
      } else {
        CompletedByStepExactly(before, m, pk);
      }
    }
  }

  /** On every run that completes the payment at most once it is refunded at most once and is not
      completed once refunded, whatever happens to other payments. */
  lemma RefundedAtMostOnce(w: World, run: seq<Moment>, pk: nat)
    requires WellFormed(w.state) && !Done(w.state, pk) && RefundCount(w.state.refunds, pk) == 0 && NeverAgain(w, run, pk)
    ensures var s := Run(w, run).state;
            && RefundCount(s.refunds, pk) <= 1
            && (RefundCount(s.refunds, pk) == 1 ==> !Done(s, pk))
  {
    RefundsAreConserved(w, run, pk);
    CompletedOnceExactly(w, run, pk);
  }

  /** Any settlement that is offered for a reversed payment of a live open package completes it again,
      whether it comes from a late webhook, a page or the poll, and no refund is taken back. */
  lemma ReofferedSettlementCompletesAgain(s: State, i: nat, session: Session, source: Source, o: Oracle)
    requires i < |s.payments| && !s.payments[i].completed && Live(s.package) && s.package.status == Open
    requires AmountMatches(s.payments[i], session)
    ensures Done(ApplyPaidSession(s, i, session, source, o).0, s.payments[i].pk)
    ensures ApplyPaidSession(s, i, session, source, o).0.refunds == s.refunds
  {
    var after := ApplyPaidSession(s, i, session, source, o).0;
    assert after.payments[i].completed && after.payments[i].pk == s.payments[i].pk;
  }

  /** The payment has been refunded at most once, and if so it is not completed. */
  predicate RefundIsFinal(s: State, pk: nat) {
    RefundCount(s.refunds, pk) <= 1 && (RefundCount(s.refunds, pk) == 1 ==> !Done(s, pk))
  }

  lemma RefundsGrow(w: World, m: Moment, pk: nat)
    ensures RefundCount(w.state.refunds, pk) <= RefundCount(Next(w, m).state.refunds, pk)
  {
    hide Next, Perform, PlanEvent, PlanRefresh;
    var plan := PlanStep(w, m);
    if (m.step.Deliver? || m.step.Sync? || m.step.Poll?) && plan.Act? {
      PlanOnlyLinks(w, m);
      NextPerforms(w, m);
      PerformRefundsOnlyReversals(plan.state, plan.action, m.oracle);
      var after := Next(w, m).state.refunds;
      if after != w.state.refunds {
        RefundAppend(w.state.refunds, after[|after| - 1], pk);
      }
    } else {
      OtherStepsRefundNothing(w, m);
    }
  }

  lemma StepKeepsRefundFinalExactly(w: World, m: Moment, pk: nat)
    requires WellFormed(w.state) && RefundIsFinal(w.state, pk)
    ensures RefundIsFinal(Next(w, m).state, pk) <==> (RefundCount(w.state.refunds, pk) > 0 ==> !CompletesStep(w, m, pk))
  {
    hide Next, Done, CompletesStep, RefundCount;
    StepRefundsOnlyReversals(w, m, pk);
    RefundsGrow(w, m, pk);
    if !Done(w.state, pk) {
      CompletedByStepExactly(w, m, pk);
    }
  }

  /** At every point of every run a payment has been refunded at most once and is not completed if it
      has, if and only if no step completes it after its refund. */
  lemma {:induction false} RefundsAreFinalExactly(w: World, run: seq<Moment>, pk: nat)
    requires WellFormed(w.state) && RefundIsFinal(w.state, pk)
    ensures (forall n | 0 <= n <= |run| :: RefundIsFinal(After(w, run, n).state, pk)) <==>
            (forall n | 0 <= n < |run| && RefundCount(After(w, run, n).state.refunds, pk) > 0 :: !CompletesStep(After(w, run, n), run[n], pk))
  {
    hide Next, Run, RefundIsFinal, CompletesStep, WellFormed, RefundCount;
    AfterNothing(w, run);
    if run != [] {
      var shorter := run[..|run| - 1];
      RefundsAreFinalExactly(w, shorter, pk);
      forall n | 0 <= n <= |shorter|
        ensures After(w, shorter, n) == After(w, run, n)
      {
        AfterPrefix(w, run, |shorter|, n);
      }
      AfterStep(w, run, |shorter|);
      RunKeepsWellFormed(w, run[..|shorter|]);
      if RefundIsFinal(After(w, run, |shorter|).state, pk) {
        StepKeepsRefundFinalExactly(After(w, run, |shorter|), run[|shorter|], pk);
      }
    }
  }
}
