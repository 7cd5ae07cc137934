/** What Stripe has refunded, under the idempotency keys of the refund calls.

    A refund call is not undone when the block around it rolls back, so Stripe's ledger also has the
    calls of attempts that never committed. A repeated key is answered from the first call. */
module StripeLedger {
  import opened Basics
  import opened Settlement
  import opened SettlementSafety
  import opened SettlementRuns
  import opened SettlementAccess
  import opened SettlementRefunds

  /** The idempotency key of a refund call: its reason and the payment intent. */
  datatype RefundKey = RefundKey(trigger: Trigger, intent: string)

  function KeyOf(refund: Refund): RefundKey {
    RefundKey(refund.trigger, refund.intent)
  }

  function KeysOf(refunds: seq<Refund>): set<RefundKey> {
    set r | r in refunds :: KeyOf(r)
  }

  /** The step with its commit: a crash comes after the handler has done its work. */
  function Uncrashed(m: Moment): Moment {
    if m.step.Deliver? then m.(step := m.step.(crashed := false)) else m
  }

  /** The refund call an attempt at a step gets accepted, whether or not the attempt commits. */
  function AttemptedRefund(w: World, m: Moment): Option<Refund> {
    var refunds := Next(w, Uncrashed(m)).state.refunds;
    if |refunds| > |w.state.refunds| then Some(refunds[|refunds| - 1]) else None
  }

  /** The keys under which Stripe refunds along a run, rolled-back attempts included. */
  function StripeKeys(w: World, run: seq<Moment>): set<RefundKey>
    decreases |run|
  {
    if run == [] then {}
    else
      var attempted := AttemptedRefund(Run(w, run[..|run| - 1]), run[|run| - 1]);
      StripeKeys(w, run[..|run| - 1]) + (if attempted.Some? then {KeyOf(attempted.value)} else {})
  }

  // ----- The refund of one attempt -----

  /** Why an action refunds: it reverses a completed payment, or settles one of a deleted package. */
  predicate RefundsFor(s: State, action: Action, trigger: Trigger)
    requires InRange(s, action)
  {
    match action
    case Revert(i, refund, why) => refund && trigger == why && s.payments[i].completed && s.payments[i].intent != ""
    case Settle(i, session, _) =>
      trigger == DeletedBeforeSettlement && !Live(s.package) && s.payments[i].completed && s.payments[i].intent != ""
    case _ => false
  }

  lemma PerformRefunds(s: State, action: Action, o: Oracle)
    requires InRange(s, action)
    ensures var refunds := Perform(s, action, o).refunds;
            || refunds == s.refunds
            || (exists trigger :: RefundsFor(s, action, trigger) &&
                  refunds == s.refunds + [Refund(s.payments[action.at].pk, trigger, s.payments[action.at].intent)])
  {
    hide AmountMatches, RevokedShares, GrantedShares, MarkReceipts, ActiveRecords;
    if Perform(s, action, o).refunds != s.refunds {
      var trigger := if action.Settle? then DeletedBeforeSettlement else action.trigger;
      assert RefundsFor(s, action, trigger);
    }
  }

  /** An attempt that refunds follows a plan to refund, and its call is for the planned row. */
  lemma AttemptFollowsPlan(w: World, m: Moment)
    requires AttemptedRefund(w, m).Some?
    ensures var plan, refund := PlanStep(w, Uncrashed(m)), AttemptedRefund(w, m).value;
            && plan.Act? && RefundsFor(plan.state, plan.action, refund.trigger)
            && refund.intent == plan.state.payments[plan.action.at].intent
            && Next(w, Uncrashed(m)).state.refunds == w.state.refunds + [refund]
  {
    var attempt := Uncrashed(m);
    var plan := PlanStep(w, attempt);
    if (m.step.Deliver? || m.step.Sync? || m.step.Poll?) && plan.Act? {
      PlanOnlyLinks(w, attempt);
      NextPerforms(w, attempt);
      PerformRefunds(plan.state, plan.action, m.oracle);
    } else {
      OtherStepsRefundNothing(w, attempt);
    }
    hide Next, PlanStep, Perform;
  }

  lemma StepRefundsAttempted(w: World, m: Moment)
    ensures var after, attempted := Next(w, m).state.refunds, AttemptedRefund(w, m);
            after == w.state.refunds || (attempted.Some? && after == w.state.refunds + [attempted.value])
  {
    if AttemptedRefund(w, m).Some? {
      AttemptFollowsPlan(w, m);
    }
    if m != Uncrashed(m) {
      CrashKeepsRefunds(w, m);
    } else {
      StepRefundsOnce(w, m);
    }
    hide Next;
  }

  lemma CrashKeepsRefunds(w: World, m: Moment)
    requires m.step.Deliver? && m.step.crashed
    ensures Next(w, m).state.refunds == w.state.refunds
  {
  }

  lemma StepRefundsOnce(w: World, m: Moment)
    ensures var after := Next(w, m).state.refunds; after == w.state.refunds || |after| == |w.state.refunds| + 1
  {
    hide Next, PlanStep, Perform;
    var plan := PlanStep(w, m);
    if (m.step.Deliver? || m.step.Sync? || m.step.Poll?) && plan.Act? {
      PlanOnlyLinks(w, m);
      NextPerforms(w, m);
      PerformRefunds(plan.state, plan.action, m.oracle);
    } else {
      OtherStepsRefundNothing(w, m);
    }
  }

  /** Every refund the books record was made by Stripe; the other way round only rolled-back attempts
      can be missing from the books. */
  lemma {:induction false} RecordedRefundsAreMade(w: World, run: seq<Moment>)
    ensures KeysOf(Run(w, run).state.refunds) <= KeysOf(w.state.refunds) + StripeKeys(w, run)
    ensures (forall m | m in run :: m.step.Deliver? ==> !m.step.crashed) ==>
              KeysOf(Run(w, run).state.refunds) == KeysOf(w.state.refunds) + StripeKeys(w, run)
    decreases |run|
  {
    hide Next, AttemptedRefund;
    if run != [] {
      var shorter, last := run[..|run| - 1], run[|run| - 1];
      RecordedRefundsAreMade(w, shorter);
      var before := Run(w, shorter);
      assert forall m | m in shorter :: m in run;
      StepRefundsAttempted(before, last);
      var attempted := AttemptedRefund(before, last);
      if attempted.Some? {
        KeysOfAppend(before.state.refunds, attempted.value);
        AttemptFollowsPlan(before, last);
      }
    }
  }

  lemma KeysOfAppend(refunds: seq<Refund>, refund: Refund)
    ensures KeysOf(refunds + [refund]) == KeysOf(refunds) + {KeyOf(refund)}
  {
  }

  // ----- Retries of one event -----

  /** The payment intent a reversal event is about, whatever the stored rows are. */
  function ReversedIntent(event: StripeEvent): string
    requires event.PaymentFailure?
  {
    if event.intent != "" then event.intent else if event.charge.ChargeOf? then event.charge.intent else ""
  }

  lemma ReversalFindsIntent(s: State, event: StripeEvent)
    requires event.PaymentFailure?
    ensures var plan := PlanEvent(s, event);
            plan.Act? && plan.action.Revert? ==>
              && plan.action.trigger == (if event.transfer then TransferFailed else ChargeFailed)
              && plan.state.payments[plan.action.at].intent == ReversedIntent(event)
  {
  }

  predicate SettlesSession(event: StripeEvent) {
    event.CheckoutCompleted? || event.AsyncSucceeded?
  }

  lemma SettlementFindsSession(s: State, event: StripeEvent)
    requires SettlesSession(event)
    ensures var plan := PlanEvent(s, event);
            plan.Act? ==> plan.state == s && (plan.action.Settle? ==> s.payments[plan.action.at].session == Stripe(event.id))
  {
  }

  /** Only reversals and settlements of sessions ever refund. */
  lemma OnlyTheseRefund(w: World, m: Moment)
    requires m.step.Deliver? && AttemptedRefund(w, m).Some?
    ensures m.step.event.PaymentFailure? || SettlesSession(m.step.event)
    ensures PlanStep(w, Uncrashed(m)) == PlanEvent(Ticked(w.state, m.elapsed), m.step.event)
  {
    hide AttemptedRefund, Next, Locate;
    AttemptFollowsPlan(w, m);
  }

  lemma ReversalKey(w: World, m: Moment)
    requires m.step.Deliver? && m.step.event.PaymentFailure? && AttemptedRefund(w, m).Some?
    ensures KeyOf(AttemptedRefund(w, m).value)
         == RefundKey(if m.step.event.transfer then TransferFailed else ChargeFailed, ReversedIntent(m.step.event))
  {
    AttemptFollowsPlan(w, m);
    OnlyTheseRefund(w, m);
    ReversalFindsIntent(Ticked(w.state, m.elapsed), m.step.event);
    hide AttemptedRefund, PlanStep, PlanEvent, Next;
  }

  /** A settlement refunds only on a deleted package, for the row of its session. */
  predicate RefundsRow(w: World, m: Moment, i: nat) {
    && i < |w.state.payments| && !Live(w.state.package) && m.step.Deliver? && SettlesSession(m.step.event)
    && w.state.payments[i].session == Stripe(m.step.event.id) && w.state.payments[i].intent != ""
    && AttemptedRefund(w, m).Some?
    && KeyOf(AttemptedRefund(w, m).value) == RefundKey(DeletedBeforeSettlement, w.state.payments[i].intent)
  }

  lemma SettlementKey(w: World, m: Moment) returns (i: nat)
    requires m.step.Deliver? && SettlesSession(m.step.event) && AttemptedRefund(w, m).Some?
    ensures RefundsRow(w, m, i)
  {
    AttemptFollowsPlan(w, m);
    OnlyTheseRefund(w, m);
    SettlementFindsSession(Ticked(w.state, m.elapsed), m.step.event);
    hide AttemptedRefund, PlanEvent, Next;
    i := PlanStep(w, Uncrashed(m)).action.at;
  }

  /** On a deleted package a row with a real session and a known intent stays as identified for good. */
  lemma {:induction false} DeletedRowStays(w: World, run: seq<Moment>, n: nat, k: nat, row: Payment)
    requires n <= k <= |run| && row in After(w, run, n).state.payments && row.session.Stripe?
    requires IntentSettled(After(w, run, n).state, row)
    ensures StillHas(After(w, run, k).state, row, true) && !Live(After(w, run, k).state.package)
    decreases k
  {
    hide Next, Run;
    if k > n {
      DeletedRowStays(w, run, n, k - 1, row);
      AfterStep(w, run, k - 1);
      var before := After(w, run, k - 1);
      var j :| 0 <= j < |before.state.payments| && before.state.payments[j].pk == row.pk
               && before.state.payments[j].session == row.session && before.state.payments[j].intent == row.intent;
      StepKeepsRealRow(before, run[k - 1], j);
      DeletionIsFinal(before, run[k - 1]);
    }
  }

  /** All settlement events of one session, retried or not, refund it under one key. */
  lemma SettlementRetriesShareKey(w: World, run: seq<Moment>, n: nat, k: nat)
    requires WellFormed(w.state) && n <= k < |run|
    requires run[n].step.Deliver? && SettlesSession(run[n].step.event) && run[k].step.Deliver? && SettlesSession(run[k].step.event)
    requires run[n].step.event.id == run[k].step.event.id
    requires AttemptedRefund(After(w, run, n), run[n]).Some? && AttemptedRefund(After(w, run, k), run[k]).Some?
    ensures KeyOf(AttemptedRefund(After(w, run, n), run[n]).value) == KeyOf(AttemptedRefund(After(w, run, k), run[k]).value)
  {
    var first, later := After(w, run, n), After(w, run, k);
    hide Next, Run, AttemptedRefund, WellFormed;
    var i := SettlementKey(first, run[n]);
    var j := SettlementKey(later, run[k]);
    var row := first.state.payments[i];
    DeletedRowStays(w, run, n, k, row);
    RunKeepsWellFormed(w, run[..k]);
    SessionIsUnique(later.state, j, row);
  }

  lemma SessionIsUnique(s: State, j: nat, row: Payment)
    requires WellFormed(s) && StillHas(s, row, true) && j < |s.payments| && s.payments[j].session == row.session
    ensures s.payments[j].intent == row.intent
  {
  }

  /** Retries never double-refund: over every run, with whatever else in between, all attempts at one
      event, committed or rolled back, ask Stripe for refunds under one and the same key. */
  lemma RetriesShareKey(w: World, run: seq<Moment>, n: nat, k: nat)
    requires WellFormed(w.state) && n <= k < |run|
    requires run[n].step.Deliver? && run[k].step.Deliver? && run[n].step.event == run[k].step.event
    requires AttemptedRefund(After(w, run, n), run[n]).Some? && AttemptedRefund(After(w, run, k), run[k]).Some?
    ensures KeyOf(AttemptedRefund(After(w, run, n), run[n]).value) == KeyOf(AttemptedRefund(After(w, run, k), run[k]).value)
  {
    hide Next, Run, AttemptedRefund, WellFormed;
    OnlyTheseRefund(After(w, run, n), run[n]);
    if run[n].step.event.PaymentFailure? {
      ReversalKey(After(w, run, n), run[n]);
      ReversalKey(After(w, run, k), run[k]);
    } else {
      SettlementRetriesShareKey(w, run, n, k);
    }
  }

  predicate AttemptAt(w: World, run: seq<Moment>, event: StripeEvent, n: nat) {
    n < |run| && run[n].step.Deliver? && run[n].step.event == event && AttemptedRefund(After(w, run, n), run[n]).Some?
  }

  /** The keys under which the attempts at one event refund. */
  function EventKeys(w: World, run: seq<Moment>, event: StripeEvent): set<RefundKey> {
    set n | 0 <= n < |run| && AttemptAt(w, run, event, n) :: KeyOf(AttemptedRefund(After(w, run, n), run[n]).value)
  }

  /** So one event moves a payer's money back at most once. */
  lemma EventRefundsOnce(w: World, run: seq<Moment>, event: StripeEvent)
    requires WellFormed(w.state)
    ensures |EventKeys(w, run, event)| <= 1
  {
    hide Next, Run, AttemptedRefund, WellFormed;
    if n :| 0 <= n < |run| && AttemptAt(w, run, event, n) {
      var key := KeyOf(AttemptedRefund(After(w, run, n), run[n]).value);
      forall k | 0 <= k < |run| && AttemptAt(w, run, event, k)
        ensures KeyOf(AttemptedRefund(After(w, run, k), run[k]).value) == key
      {
        if n <= k {
          RetriesShareKey(w, run, n, k);
        } else {
          RetriesShareKey(w, run, k, n);
        }
      }
      assert EventKeys(w, run, event) == {key};
    } else {
      assert EventKeys(w, run, event) == {};
    }
  }

  /** Different events can still refund one intent, at most once for each of three reasons; a refused
      duplicate is not among them. */
  lemma {:induction false} ThreeReasons(w: World, run: seq<Moment>)
    ensures forall key | key in StripeKeys(w, run) ::
              key.trigger == DeletedBeforeSettlement || key.trigger == TransferFailed || key.trigger == ChargeFailed
    decreases |run|
  {
    hide Next, AttemptedRefund;
    if run != [] {
      var shorter, last := run[..|run| - 1], run[|run| - 1];
      ThreeReasons(w, shorter);
      if AttemptedRefund(Run(w, shorter), last).Some? {
        AttemptReason(Run(w, shorter), last);
      }
    }
  }

  lemma AttemptReason(w: World, m: Moment)
    requires AttemptedRefund(w, m).Some?
    ensures AttemptedRefund(w, m).value.trigger in {DeletedBeforeSettlement, TransferFailed, ChargeFailed}
  {
    hide AttemptedRefund, Next, Locate, FindPk, LatestIncomplete;
    AttemptFollowsPlan(w, m);
  }
}
