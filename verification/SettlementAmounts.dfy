/** What a settlement charges, traced back to the line items of the claim. */
module SettlementAmounts {
  import opened Basics
  import opened Settlement
  import opened SettlementSafety
  import opened SettlementRuns
  import Checkout

  // ----- Exact settlement -----

  /** Step m of the run is the claim that created payment pk, with these line items. */
  predicate ClaimedAt(w: World, run: seq<Moment>, m: nat, pk: nat, items: Checkout.CheckoutItems)
    requires m < |run|
  {
    run[m].step.Claim? &&
    var s := Ticked(After(w, run, m).state, run[m].elapsed);
    ClaimCheckout(s, run[m].step.attempt).1 == Claimed(pk) && ItemsOf(s, run[m].step.attempt) == Success(items)
  }

  /** A row expects the total of the items built by the claim that created it. */
  ghost predicate FromClaim(w: World, run: seq<Moment>, payment: Payment) {
    exists m, items | 0 <= m < |run| ::
      && ClaimedAt(w, run, m, payment.pk, items)
      && payment.expectedCents == Some(items.totalCents) && payment.currency == run[m].step.attempt.currency
  }

  ghost predicate RowsFromClaims(w: World, run: seq<Moment>) {
    var s := Run(w, run).state;
    forall i | 0 <= i < |s.payments| && s.payments[i].pk >= w.state.nextPk :: FromClaim(w, run, s.payments[i])
  }

  lemma FromClaimExtends(w: World, run: seq<Moment>, m: Moment, before: Payment, after: Payment)
    requires FromClaim(w, run, before)
    requires after.pk == before.pk && after.expectedCents == before.expectedCents && after.currency == before.currency
    ensures FromClaim(w, run + [m], after)
  {
    var k, items :| 0 <= k < |run| && ClaimedAt(w, run, k, before.pk, items)
                    && before.expectedCents == Some(items.totalCents) && before.currency == run[k].step.attempt.currency;
    assert (run + [m])[..k] == run[..k];
    assert ClaimedAt(w, run + [m], k, after.pk, items);
  }

  lemma {:induction false} EveryRowFromItsClaim(w: World, run: seq<Moment>)
    requires WellFormed(w.state)
    ensures RowsFromClaims(w, run)
    decreases |run|
  {
    hide Next, ClaimCheckout, ItemsOf;
    if run != [] {
      var shorter, last := run[..|run| - 1], run[|run| - 1];
      EveryRowFromItsClaim(w, shorter);
      assert run == shorter + [last];
      var before := Run(w, shorter);
      var s := Run(w, run).state;
      forall i | 0 <= i < |s.payments| && s.payments[i].pk >= w.state.nextPk
        ensures FromClaim(w, run, s.payments[i])
      {
        StepRows(before, last, i);
        var row := s.payments[i];
        if j :| 0 <= j < |before.state.payments| && before.state.payments[j].pk == row.pk
                && before.state.payments[j].expectedCents == row.expectedCents && before.state.payments[j].currency == row.currency {
          FromClaimExtends(w, shorter, last, before.state.payments[j], row);
        } else {
          var t := Ticked(before.state, last.elapsed);
          assert run[..|shorter|] == shorter;
          assert ClaimedAt(w, run, |shorter|, row.pk, ItemsOf(t, last.step.attempt).value);
        }
      }
    }
  }

  lemma SettledAmountMatches(s: State, i: nat, session: Session, source: Source, o: Oracle)
    requires i < |s.payments| && ApplyPaidSession(s, i, session, source, o).1
    ensures AmountMatches(s.payments[i], session)
  {
    hide AmountMatches;
  }

  /** A claim of the run built line items whose unit amounts sum to what the session charged, in the
      same currency. */
  ghost predicate ChargedExactly(w: World, run: seq<Moment>, payment: Payment, session: Session) {
    exists k, items | 0 <= k < |run| ::
      && ClaimedAt(w, run, k, payment.pk, items)
      && session.amountTotal == Some(Checkout.SumUnitAmounts(items.lineItems)) && session.amountTotal.value > 0
      && Lower(if session.currency == "" then payment.currency else session.currency) == Lower(run[k].step.attempt.currency)
  }

  lemma ClaimBillsItsTotal(s: State, attempt: Attempt, pk: nat, items: Checkout.CheckoutItems)
    requires ClaimCheckout(s, attempt).1 == Claimed(pk) && ItemsOf(s, attempt) == Success(items)
    ensures items.totalCents == Checkout.SumUnitAmounts(items.lineItems) && items.totalCents > 0
  {
    Checkout.ItemsAreSound(attempt.expenses, s.package.title, attempt.currency, attempt.rates);
  }

  lemma MatchingRowIsChargedExactly(w: World, run: seq<Moment>, row: Payment, session: Session)
    requires FromClaim(w, run, row) && AmountMatches(row, session)
    ensures ChargedExactly(w, run, row, session)
  {
    hide Next, ClaimCheckout, ItemsOf, Lower;
    var k, items :| 0 <= k < |run| && ClaimedAt(w, run, k, row.pk, items)
                    && row.expectedCents == Some(items.totalCents) && row.currency == run[k].step.attempt.currency;
    ClaimBillsItsTotal(Ticked(After(w, run, k).state, run[k].elapsed), run[k].step.attempt, row.pk, items);
  }

  /** End to end: whenever a step settles a payment that checkout created during the run, the session
      charged exactly the sum of the unit amounts of the line items built at its claim, in the claim's currency. */
  lemma SettlementIsExact(w: World, run: seq<Moment>, m: Moment)
    requires WellFormed(w.state)
    requires var plan := PlanStep(Run(w, run), m);
             && plan.Act? && plan.action.Settle? && plan.state.payments[plan.action.at].pk >= w.state.nextPk
             && ApplyPaidSession(plan.state, plan.action.at, plan.action.session, plan.action.source, m.oracle).1
    ensures var plan := PlanStep(Run(w, run), m);
            ChargedExactly(w, run, plan.state.payments[plan.action.at], plan.action.session)
  {
    hide Next, ApplyPaidSession, ClaimedAt, AmountMatches, PlanStep;
    var plan := PlanStep(Run(w, run), m);
    var i, session := plan.action.at, plan.action.session;
    PlanOnlyLinks(Run(w, run), m);
    SettledAmountMatches(plan.state, i, session, plan.action.source, m.oracle);
    EveryRowFromItsClaim(w, run);
    var row := Run(w, run).state.payments[i];
    assert FromClaim(w, run, row);
    RelinkedRowFromClaim(w, run, row, plan.state.payments[i]);
    MatchingRowIsChargedExactly(w, run, plan.state.payments[i], session);
  }

  lemma RelinkedRowFromClaim(w: World, run: seq<Moment>, row: Payment, linked: Payment)
    requires FromClaim(w, run, row) && linked == row.(intent := linked.intent)
    ensures FromClaim(w, run, linked)
  {
    hide Next, ClaimCheckout, ItemsOf;
  }
}
