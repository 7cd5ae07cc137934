/** Competing settlement attempts: the first that matches wins and the rest change nothing. */
module FirstSettlement {
  import opened Basics
  import opened Settlement
  import opened SettlementSafety
  import opened SettlementRuns
  import opened SettlementEffects

  /** A webhook reporting a paid session, a page-triggered sync or a poll, with the row lock free. */
  predicate IsAttempt(m: Moment) {
    m.oracle.rowFree && (m.step.Sync? || m.step.Poll? || (m.step.Deliver? && (m.step.event.CheckoutCompleted? || m.step.event.AsyncSucceeded?)))
  }

  predicate IsAttemptRun(run: seq<Moment>) {
    forall m | m in run :: IsAttempt(m)
  }

  /** The attempt reports a paid session for row i, of the amount and currency the row expects. */
  predicate MatchesRow(w: World, m: Moment, i: nat) {
    i < |w.state.payments| && AttemptsOn(w, m, i) && PaysFor(PaidSession(m).value, w.state.payments[i])
  }

  predicate Matches(w: World, m: Moment) {
    exists i | 0 <= i < |w.state.payments| :: MatchesRow(w, m, i)
  }

  /** A live open package none of whose payments is completed. */
  predicate Unsettled(s: State) {
    s.package.status == Open && Live(s.package) && !SomeCompleted(s)
  }

  /** Only row i is completed, on a live paid package. */
  predicate SettledBy(s: State, i: nat) {
    && i < |s.payments| && s.package.status == Paid && Live(s.package)
    && forall j | 0 <= j < |s.payments| :: s.payments[j].completed <==> j == i
  }

  /** Equal but for the clock and the payment intent recorded on row i. */
  predicate SameButIntentOf(before: State, after: State, i: nat) {
    && i < |before.payments| && |after.payments| == |before.payments|
    && after == before.(payments := before.payments[i := before.payments[i].(intent := after.payments[i].intent)], clock := after.clock)
  }

  /** An attempt that matches nothing changes nothing. */
  lemma MismatchChangesNothing(w: World, m: Moment)
    requires WellFormed(w.state) && IsAttempt(m) && !Matches(w, m)
    ensures Next(w, m).state == Ticked(w.state, m.elapsed)
  {
    hide Next, AboutIntent;
    if i :| 0 <= i < |w.state.payments| && AttemptsOn(w, m, i) {
      assert !MatchesRow(w, m, i);
      AttemptRefused(w, m, i);
    } else if !m.step.Deliver? {
      IdleRefreshChangesNothing(w, m);
    } else if !Heard(w, m) {
      UnheardChangesNothing(w, m);
    } else {
      WebhookWithoutRow(w, m);
    }
  }

  lemma WebhookWithoutRow(w: World, m: Moment)
    requires IsAttempt(m) && Heard(w, m) && forall i | 0 <= i < |w.state.payments| :: !AttemptsOn(w, m, i)
    ensures Next(w, m).state == Ticked(w.state, m.elapsed)
  {
    hide Next;
    var event := m.step.event;
    if PaidSession(m).Some? {
      forall i | 0 <= i < |w.state.payments|
        ensures w.state.payments[i].session != Stripe(event.id)
      {
        assert !AttemptsOn(w, m, i);
      }
      assert NoSession(w.state.payments, event.id);
    }
    if PaidSession(m).Some? && !event.unknownToStripe {
      UnresolvedEventsAreRetried(w, m);
    } else {
      UnrelatedEventsChangeNothing(w, m);
    }
  }

  /** The first match completes its row, with the session's intent, and pays the package: one receipt
      if the payer is registered, one notification and one audit entry. */
  lemma FirstMatchSettles(w: World, m: Moment, i: nat)
    requires WellFormed(w.state) && IsAttempt(m) && Unsettled(w.state) && MatchesRow(w, m, i)
    ensures var s, after, payment := w.state, Next(w, m).state, w.state.payments[i];
            && SettledBy(after, i)
            && after.payments == s.payments[i := Recorded(payment, PaidSession(m).value)]
            && after.package.paidBy == payment.payer && after.package.paidAt == Some(s.clock + m.elapsed)
            && after.receipts == s.receipts + (if payment.payer.Some? then [Receipt(payment.payer.value, PayerCurrency(payment), 0)] else [])
            && after.notices == s.notices + [payment.payer]
            && after.audit == s.audit + [SettlementAudit(SourceOf(m), payment.pk)]
            && after.refunds == s.refunds
  {
    hide Next, AttemptsOn, PaysFor, WellFormed;
    AttemptSettles(w, m, i);
    forall j | 0 <= j < |w.state.payments|
      ensures !w.state.payments[j].completed
    {
    }
  }

  /** Later attempts, matching or not, leave the settled state fixed. */
  lemma LaterAttemptChangesNothing(w: World, m: Moment, i: nat)
    requires WellFormed(w.state) && IsAttempt(m) && SettledBy(w.state, i)
    ensures SettledBy(Next(w, m).state, i) && SameButIntentOf(w.state, Next(w, m).state, i)
  {
    hide Next, PaysFor, AttemptsOn, WellFormed;
    var s := Ticked(w.state, m.elapsed);
    assert s.payments[i := s.payments[i]] == s.payments;
    if Matches(w, m) {
      var k :| 0 <= k < |w.state.payments| && MatchesRow(w, m, k);
      AttemptRefused(w, m, k);
    } else {
      MismatchChangesNothing(w, m);
    }
  }

  lemma SameButIntentTransitive(a: State, b: State, c: State, i: nat)
    requires SameButIntentOf(a, b, i) && SameButIntentOf(b, c, i)
    ensures SameButIntentOf(a, c, i)
  {
  }

  /** No step of the run matches when its turn comes. */
  predicate NoMatch(w: World, run: seq<Moment>)
    decreases |run|
  {
    run != [] ==> NoMatch(w, run[..|run| - 1]) && !Matches(Run(w, run[..|run| - 1]), run[|run| - 1])
  }

  /** If no attempt matches, the package and its payments stay exactly as they were. */
  lemma {:induction false} NoMatchNoSettlement(w: World, run: seq<Moment>)
    requires WellFormed(w.state) && IsAttemptRun(run) && NoMatch(w, run)
    ensures Run(w, run).state == w.state.(clock := Run(w, run).state.clock)
    decreases |run|
  {
    hide Next, Matches, WellFormed;
    if run != [] {
      NoMatchNoSettlement(w, run[..|run| - 1]);
      RunKeepsWellFormed(w, run[..|run| - 1]);
      MismatchChangesNothing(Run(w, run[..|run| - 1]), run[|run| - 1]);
    }
  }

  lemma {:induction false} SettledStaysFixed(w: World, run: seq<Moment>, i: nat)
    requires WellFormed(w.state) && IsAttemptRun(run) && SettledBy(w.state, i)
    ensures SettledBy(Run(w, run).state, i) && SameButIntentOf(w.state, Run(w, run).state, i)
    decreases |run|
  {
    hide Next, WellFormed;
    if run == [] {
      assert w.state.payments[i := w.state.payments[i]] == w.state.payments;
    } else {
      var before, last := Run(w, run[..|run| - 1]), run[|run| - 1];
      SettledStaysFixed(w, run[..|run| - 1], i);
      RunKeepsWellFormed(w, run[..|run| - 1]);
      LaterAttemptChangesNothing(before, last, i);
      SameButIntentTransitive(w.state, before.state, Next(before, last).state, i);
    }
  }

  /** For any list of attempts on an unsettled package, split at the first one that matches: from
      that step on exactly its row is completed, there has been one open-to-paid transition with its
      one receipt, notice and audit entry, no refund, and no later attempt moves anything. */
  lemma FirstSettlementWins(w: World, before: seq<Moment>, m: Moment, i: nat, rest: seq<Moment>)
    requires WellFormed(w.state) && IsAttemptRun(before) && IsAttempt(m) && IsAttemptRun(rest) && Unsettled(w.state)
    requires NoMatch(w, before) && MatchesRow(Run(w, before), m, i)
    ensures i < |w.state.payments| &&
            var payment := w.state.payments[i];
            var s, after := w.state, Run(w, before + [m] + rest).state;
            && SettledBy(after, i)
            && SameButIntentOf(Run(w, before + [m]).state, after, i)
            && after.package.paidBy == payment.payer
            && after.receipts == s.receipts + (if payment.payer.Some? then [Receipt(payment.payer.value, PayerCurrency(payment), 0)] else [])
            && after.notices == s.notices + [payment.payer]
            && |after.audit| == |s.audit| + 1 && after.refunds == s.refunds
  {
    hide Next, AttemptsOn, PaysFor, WellFormed;
    NoMatchNoSettlement(w, before);
    RunKeepsWellFormed(w, before);
    FirstMatchSettles(Run(w, before), m, i);
    assert (before + [m])[..|before|] == before;
    assert Run(w, before + [m]) == Next(Run(w, before), m);
    RunConcat(w, before + [m], rest);
    RunKeepsWellFormed(w, before + [m]);
    SettledStaysFixed(Run(w, before + [m]), rest, i);
  }
}
