/** Concrete states and runs that break what the exact conditions rule out. */
module SettlementWitnesses {
  import opened Basics
  import opened Settlement
  import opened SettlementSafety
  import opened SettlementRuns
  import opened SettlementRefunds
  import opened SettlementAccess
  import StaleReads
  import StaleRuns
  import Checkout
  import Shares

  function Row(pk: nat, session: SessionId, intent: string, completed: bool): Payment {
    Payment(pk, Some(2), session, intent, 10.0, Some(1000), "usd", completed, 0)
  }

  /** A live package of user 1 for user 2 with the given payments. */
  function PackageWith(status: Status, payments: seq<Payment>): World {
    var paidAt := if status == Paid then Some(0) else None;
    World(State(Package(1, Some(2), [], "Trip", None, status, if status == Paid then Some(2) else None, paidAt, None),
                payments, 2, {}, [], [], [], [], Shares.Table(map[], []), 0), {})
  }

  const READY := Oracle(true, true)

  function TwoSessions(): seq<Payment> {
    [Row(0, Stripe("cs_0"), "pi_0", false), Row(1, Stripe("cs_1"), "pi_1", true)]
  }

  lemma FindsFirst()
    ensures FindIntent(TwoSessions(), "pi_0") == Some(0)
    ensures FindIntent([Row(0, Stripe("cs_0"), "pi_0", true)], "pi_0") == Some(0)
    ensures FindSession([Row(0, Stripe("cs_0"), "pi_0", true)], Stripe("cs_0")) == Some(0)
  {
    var rows := TwoSessions();
    assert rows[0].intent == "pi_0" && rows[1].intent != "pi_0";
    assert rows[0] in rows;
    var one := [Row(0, Stripe("cs_0"), "pi_0", true)];
    assert one[0] in one;
  }

  /** A failed charge on an abandoned second session reopens a package another payment has paid for. */
  lemma SiblingFailureReopensPaidPackage()
    ensures var w := PackageWith(Paid, TwoSessions());
            var m := Moment(Deliver("evt", PaymentFailure(false, "pi_0", false, ChargeUnknown, IntentUnknown), false), READY, 0);
            Joint(w.state) && !Joint(Next(w, m).state) && Next(w, m).state.package.status == Open
  {
    hide RevokedShares, GrantedShares, ActiveRecords, MarkReceipts, AmountMatches;
    FindsFirst();
    var w := PackageWith(Paid, TwoSessions());
    assert w.state.payments[1].completed;
    var m := Moment(Deliver("evt", PaymentFailure(false, "pi_0", false, ChargeUnknown, IntentUnknown), false), READY, 0);
    assert PlanStep(w, m).action == Revert(0, true, ChargeFailed);
    StepKeepsJointExactly(w, m);
  }

  /** A dispute won on the abandoned session completes a second payment. */
  lemma SiblingDisputeCompletesTwice()
    ensures var w := PackageWith(Paid, TwoSessions());
            var m := Moment(Deliver("evt", Dispute(true, Won, true, ChargeOf("pi_0"), IntentUnknown), false), READY, 0);
            Joint(w.state) && !AtMostOneCompleted(Next(w, m).state)
  {
    hide RevokedShares, GrantedShares, ActiveRecords, MarkReceipts, AmountMatches;
    FindsFirst();
    var w := PackageWith(Paid, TwoSessions());
    assert w.state.payments[1].completed;
    var m := Moment(Deliver("evt", Dispute(true, Won, true, ChargeOf("pi_0"), IntentUnknown), false), READY, 0);
    assert PlanStep(w, m).action == Restore(0);
    var after := Next(w, m).state;
    assert after.payments[0].completed && after.payments[1].completed;
  }

  /** An async failure that arrives after completion leaves a paid package without a completed payment. */
  lemma LateAsyncFailureUnbacksPackage()
    ensures var w := PackageWith(Paid, [Row(0, Stripe("cs_0"), "pi_0", true)]);
            var m := Moment(Deliver("evt", AsyncFailed(true, "cs_0", false), false), READY, 0);
            Joint(w.state) && !PaidIsBacked(Next(w, m).state)
  {
    hide RevokedShares, GrantedShares, ActiveRecords, MarkReceipts, AmountMatches;
    FindsFirst();
    var w := PackageWith(Paid, [Row(0, Stripe("cs_0"), "pi_0", true)]);
    assert w.state.payments[0].completed;
    var m := Moment(Deliver("evt", AsyncFailed(true, "cs_0", false), false), READY, 0);
    assert PlanStep(w, m).action == FailAsync(0);
    assert Next(w, m).state.payments == [Row(0, Stripe("cs_0"), "pi_0", false)];
  }

  const UNATTACHED := Row(0, Placeholder(7), "", false)

  const RESTORED := UNATTACHED.(intent := "pi_9", completed := true)

  function WonDispute(rowFree: bool): Moment {
    Moment(Deliver("evt", Dispute(true, Won, true, ChargeOf("pi_9"), IntentMetadata(true)), false), Oracle(rowFree, true), 0)
  }

  lemma WonDisputeLinksClaim(s: State, rowFree: bool)
    requires s.payments == [UNATTACHED]
    ensures PlanEvent(s, WonDispute(rowFree).step.event)
         == Act(WithPayment(s, 0, UNATTACHED.(intent := "pi_9")), Restore(0))
  {
    assert s.payments[0].intent != "pi_9" && s.payments[0] in s.payments;
    assert FindIntent(s.payments, "pi_9") == None;
    assert LatestUnlinked(s.payments) == Some(0);
  }

  /** The won dispute completes the claim; the package follows only if its row can be locked. */
  lemma WonDisputeCompletesClaim(rowFree: bool)
    ensures var after := Next(PackageWith(Open, [UNATTACHED]), WonDispute(rowFree)).state;
            && after.payments == [RESTORED] && Live(after.package) && after.clock == 0
            && after.package.status == (if rowFree then Paid else Open)
  {
    hide RevokedShares, ActiveRecords, PlanEvent;
    var w := PackageWith(Open, [UNATTACHED]);
    assert Ticked(w.state, 0) == w.state;
    WonDisputeLinksClaim(w.state, rowFree);
    var linked := WithPayment(w.state, 0, UNATTACHED.(intent := "pi_9"));
    assert linked.payments == [UNATTACHED.(intent := "pi_9")];
    assert Next(w, WonDispute(rowFree)).state == RestorePayment(linked, 0, Oracle(rowFree, true));
  }

  lemma AbortingOnlyClaimUnbacksPackage(s: State)
    requires s.package.status == Paid && Live(s.package)
    requires |s.payments| == 1 && s.payments[0].session.Placeholder?
    ensures Abort(s, s.payments[0].pk).payments == [] && !PaidIsBacked(Abort(s, s.payments[0].pk))
  {
    assert s.payments[0] in s.payments;
    assert FindPk(s.payments, s.payments[0].pk) == Some(0);
  }

  /** A dispute event routed by package metadata can complete a claim whose session does not exist
      yet; if that session then cannot be created, aborting the claim strips the package of it. */
  lemma AbortedClaimUnbacksPackage()
    ensures var w := PackageWith(Open, [UNATTACHED]);
            var paid := Next(w, WonDispute(true));
            var aborted := Next(paid, Moment(AbortClaim(0), READY, 0));
            Joint(w.state) && Joint(paid.state) && paid.state.package.status == Paid && !PaidIsBacked(aborted.state)
  {
    WonDisputeCompletesClaim(true);
    var paid := Next(PackageWith(Open, [UNATTACHED]), WonDispute(true));
    assert paid.state.payments[0].completed;
    AbortClaimStep(paid, 0);
    AbortingOnlyClaimUnbacksPackage(paid.state);
  }

  lemma AbortClaimStep(w: World, pk: nat)
    ensures Next(w, Moment(AbortClaim(pk), READY, 0)).state == Abort(w.state, pk)
  {
    assert Ticked(w.state, 0) == w.state;
  }

  // ----- One payment, two refunds -----

  const CAPTURED := Row(0, Stripe("cs_0"), "pi_0", true)

  const SETTLED := Session("usd", Some(1000), "")

  function Reversal(id: string, transfer: bool): Moment {
    Moment(Deliver(id, PaymentFailure(transfer, "pi_0", false, ChargeUnknown, IntentUnknown), false), READY, 0)
  }

  const REOFFER := Moment(Poll(SessionReport(true, SETTLED)), READY, 0)

  /** The poll settles; a transfer fails; the poll finds the session still reported as paid; a charge fails. */
  function TwoRefundsRun(): seq<Moment> {
    [REOFFER, Reversal("evt_1", true), REOFFER, Reversal("evt_2", false)]
  }

  predicate OnlyRow(w: World, status: Status, row: Payment) {
    w.state.payments == [row] && w.state.package.status == status && Live(w.state.package)
  }

  lemma ReversalRefunds(w: World, id: string, transfer: bool)
    requires OnlyRow(w, Paid, CAPTURED) && id != "" && id !in w.processed
    ensures var after := Next(w, Reversal(id, transfer));
            && OnlyRow(after, Open, Failed(CAPTURED)) && after.processed == w.processed + {id}
            && after.state.refunds == w.state.refunds + [Refund(0, if transfer then TransferFailed else ChargeFailed, "pi_0")]
  {
    hide GrantedShares, ActiveRecords, MarkReceipts;
    var s, event := w.state, Reversal(id, transfer).step.event;
    assert Ticked(s, 0) == s;
    FindsFirst();
    assert PlanEvent(s, event) == Act(s, Revert(0, true, if transfer then TransferFailed else ChargeFailed));
  }

  lemma RevokingIgnoresPayments(s: State, i: nat, payment: Payment)
    requires i < |s.payments|
    ensures RevokedShares(WithPayment(s, i, payment)) == RevokedShares(s)
  {
  }

  lemma ReofferCompletes(w: World)
    requires OnlyRow(w, Open, Failed(CAPTURED))
    ensures var after := Next(w, REOFFER);
            && OnlyRow(after, Paid, CAPTURED) && after.processed == w.processed && after.state.refunds == w.state.refunds
            && after.state.package == w.state.package.(status := Paid, paidBy := CAPTURED.payer, paidAt := Some(w.state.clock))
            && after.state.shares == RevokedShares(w.state) && after.state.clock == w.state.clock
  {
    hide RevokedShares, ActiveRecords;
    var s := w.state;
    RevokingIgnoresPayments(s, 0, CAPTURED);
    assert Ticked(s, 0) == s;
    assert LatestIncomplete(s.payments) == Some(0);
    assert AmountMatches(s.payments[0], SETTLED);
    assert Next(w, REOFFER).state == ApplyPaidSession(s, 0, SETTLED, PaymentSynced, READY).0;
    assert CompletedFrom(Failed(CAPTURED), SETTLED) == CAPTURED;
  }

  lemma RunOfFour(w: World, a: Moment, b: Moment, c: Moment, d: Moment)
    ensures Run(w, [a, b, c, d]) == Next(Next(Next(Next(w, a), b), c), d)
  {
    hide Next;
    assert Run(w, [a]) == Next(w, a);
    assert [a, b][..1] == [a];
    assert [a, b, c][..2] == [a, b];
    assert [a, b, c, d][..3] == [a, b, c];
    assert Run(w, [a, b]) == Next(Run(w, [a]), b);
    assert Run(w, [a, b, c]) == Next(Run(w, [a, b]), c);
  }

  /** A run on which one payment is refunded twice, under two different idempotency keys. */
  lemma OnePaymentIsRefundedTwice()
    ensures var w := PackageWith(Open, [Failed(CAPTURED)]);
            && WellFormed(w.state) && Joint(w.state)
            && RefundCount(Run(w, TwoRefundsRun()).state.refunds, 0) == 2
            && !NeverAgain(w, TwoRefundsRun(), 0)
  {
    var w := PackageWith(Open, [Failed(CAPTURED)]);
    assert WellFormed(w.state) && Joint(w.state) && !Done(w.state, 0);
    var first, second := Refund(0, TransferFailed, "pi_0"), Refund(0, ChargeFailed, "pi_0");
    hide Next, PackageWith, Run, NeverAgain, WellFormed, Joint, Done;
    ReofferCompletes(w);
    var paid := Next(w, REOFFER);
    ReversalRefunds(paid, "evt_1", true);
    var reopened := Next(paid, Reversal("evt_1", true));
    ReofferCompletes(reopened);
    var again := Next(reopened, REOFFER);
    ReversalRefunds(again, "evt_2", false);
    RunOfFour(w, REOFFER, Reversal("evt_1", true), REOFFER, Reversal("evt_2", false));
    assert w.state.refunds == [] && w.processed == {} by {
      EmptyLedger(Open, [Failed(CAPTURED)]);
    }
    assert Run(w, TwoRefundsRun()).state.refunds == [] + [first] + [second];
    RefundAppend([], first, 0);
    RefundAppend([] + [first], second, 0);
    if NeverAgain(w, TwoRefundsRun(), 0) {
      RefundedAtMostOnce(w, TwoRefundsRun(), 0);
    }
  }

  lemma EmptyLedger(status: Status, payments: seq<Payment>)
    ensures PackageWith(status, payments).state.refunds == [] && PackageWith(status, payments).processed == {}
  {
  }

  // ----- A stale read -----

  const FIRST_AWAITED := Row(0, Stripe("cs_0"), "pi_0", false)

  const SECOND_AWAITED := Row(1, Stripe("cs_1"), "pi_1", false)

  const SETTLED_REPLY := SessionReport(true, SETTLED)

  /** A sync reads the older payment, the poll settles the newer one, and only then the sync settles. */
  function StaleSync(): seq<StaleRuns.Event> {
    [StaleRuns.SyncReads(1, 0), StaleRuns.Serial(REOFFER), StaleRuns.Settles(1, SETTLED_REPLY, READY)]
  }

  lemma NewerPaymentSettles(w: World)
    requires w.state.payments == [FIRST_AWAITED, SECOND_AWAITED] && w.state.package.status == Open && Live(w.state.package)
    ensures var after := Next(w, REOFFER).state;
            && after.payments == [FIRST_AWAITED, SECOND_AWAITED.(completed := true)]
            && after.package.status == Paid && Live(after.package)
  {
    hide RevokedShares, ActiveRecords;
    var s := w.state;
    assert Ticked(s, 0) == s;
    assert LatestIncomplete(s.payments) == Some(1);
    assert AmountMatches(s.payments[1], SETTLED);
    assert Next(w, REOFFER).state == ApplyPaidSession(s, 1, SETTLED, PaymentSynced, READY).0;
    assert CompletedFrom(SECOND_AWAITED, SETTLED) == SECOND_AWAITED.(completed := true);
  }

  lemma FindsOlder(payments: seq<Payment>)
    requires |payments| == 2 && payments[0].pk == 0 && payments[1].pk == 1
    ensures FindPk(payments, 0) == Some(0)
  {
    assert payments[0] in payments;
  }

  lemma ThreeEvents(system: StaleRuns.System, a: StaleRuns.Event, b: StaleRuns.Event, c: StaleRuns.Event)
    ensures StaleRuns.RunSystem(system, [a, b, c]) == StaleRuns.Take(StaleRuns.Take(StaleRuns.Take(system, a), b), c)
  {
    hide StaleRuns.Take;
    assert [a, b, c][1..] == [b, c];
    StaleRuns.TwoEvents(StaleRuns.Take(system, a), b, c);
  }

  /** A sync that read its payment before another one paid for the package completes it as well. */
  lemma StaleSyncCompletesTwice()
    ensures var system := StaleRuns.System(PackageWith(Open, [FIRST_AWAITED, SECOND_AWAITED]), map[]);
            && WellFormed(system.world.state) && Joint(system.world.state)
            && !AtMostOneCompleted(StaleRuns.RunSystem(system, StaleSync()).world.state)
  {
    var w := PackageWith(Open, [FIRST_AWAITED, SECOND_AWAITED]);
    var system := StaleRuns.System(w, map[]);
    var seen := StaleRuns.Copy(w.state.package, FIRST_AWAITED);
    assert WellFormed(w.state) && Joint(w.state);
    assert seen.package.status == Open && Live(seen.package) && AmountMatches(FIRST_AWAITED, SETTLED);
    FindsOlder(w.state.payments);
    NewerPaymentSettles(w);
    hide PackageWith, Next, StaleReads.SettleFrom, AmountMatches, WellFormed, Joint;
    var reading := StaleRuns.Take(system, StaleRuns.SyncReads(1, 0));
    assert reading == StaleRuns.System(w, map[1 := seen]);
    var paid := StaleRuns.Take(reading, StaleRuns.Serial(REOFFER));
    var s := paid.world.state;
    assert paid == StaleRuns.System(Next(w, REOFFER), map[1 := seen]);
    FindsOlder(s.payments);
    assert StaleRuns.Take(paid, StaleRuns.Settles(1, SETTLED_REPLY, READY)).world.state
        == StaleReads.SettleFrom(s, seen.package, FIRST_AWAITED, 0, SETTLED, PaymentSynced, READY).0;
    StaleReads.StaleReadCompletesTwice(s, seen.package, FIRST_AWAITED, 0, 1, SETTLED, PaymentSynced, READY);
    ThreeEvents(system, StaleRuns.SyncReads(1, 0), StaleRuns.Serial(REOFFER), StaleRuns.Settles(1, SETTLED_REPLY, READY));
  }

  // ----- A refused capture -----

  /** A second session that settles after the package has been paid for is refused, and the captured
      money is not refunded. */
  lemma DuplicateCaptureIsKept()
    ensures var w := PackageWith(Paid, TwoSessions());
            var m := Moment(Deliver("evt", CheckoutCompleted(true, true, "cs_0", Session("usd", Some(1000), "pi_0"), false), false), READY, 0);
            && Joint(w.state) && AmountMatches(w.state.payments[0], m.step.event.session)
            && Next(w, m) == World(w.state, {"evt"})
  {
    var w := PackageWith(Paid, TwoSessions());
    var session := Session("usd", Some(1000), "pi_0");
    var event := CheckoutCompleted(true, true, "cs_0", session, false);
    assert w.state.payments[1].completed;
    assert Ticked(w.state, 0) == w.state;
    assert AmountMatches(w.state.payments[0], session);
    FindsFirst();
    assert PlanEvent(w.state, event) == Act(w.state, Settle(0, session, PackagePaid));
    assert ApplyPaidSession(w.state, 0, session, PackagePaid, READY).0.payments == w.state.payments;
    hide AmountMatches, CompleteAndPay;
  }

  // ----- Access to a deleted package -----

  const RECORD := Shares.RecordRef(7, 1, true)

  /** The recipient's grant from when the package was created. */
  const GRANTED := Shares.Table(map[Shares.Key(7, 2) := Shares.PackageShare(1, None)],
                                [Shares.AuditEntry(Shares.Shared, 1, Shares.Key(7, 2), false)])

  /** An open package with one record and one payment awaited. */
  function SharedPackage(): World {
    var w := PackageWith(Open, [Failed(CAPTURED)]);
    w.(state := w.state.(package := w.state.package.(records := [RECORD]), shares := GRANTED))
  }

  const CREATOR_DELETES := Moment(Delete(1), READY, 0)

  const FULLY_REFUNDED := Moment(Deliver("evt", ChargeRefunded("pi_0", 1000, 1000, IntentUnknown), false), READY, 0)

  /** The poll settles, the creator deletes the paid package, its charge is refunded. */
  function RefundAfterDeletion(): seq<Moment> {
    [REOFFER, CREATOR_DELETES, FULLY_REFUNDED]
  }

  predicate ForRecipient(s: State) {
    && s.package.records == [RECORD] && s.package.creator == 1 && s.package.recipient == Some(2)
    && s.package.expiresAt.None? && s.clock == 0
    && s.shares.rows.Keys == {Shares.Key(7, 2)} && s.shares.rows[Shares.Key(7, 2)].config == Shares.PackageConfig(None)
  }

  lemma GrantedIsAudited()
    ensures Shares.Audited(GRANTED)
  {
    var empty := Shares.Table(map[], []);
    Shares.EmptyTableIsAudited();
    Shares.GrantKeepsAudited(empty, RECORD, 2, 1, Shares.PackageConfig(None), 0);
    assert GRANTED == Shares.GrantAccess(empty, RECORD, 2, 1, Shares.PackageConfig(None), 0).value.0;
  }

  /** Revoking keeps the one row and its terms. */
  lemma RevokingKeepsTerms(s: State)
    requires ForRecipient(s)
    ensures ForRecipient(s.(shares := RevokedShares(s)))
  {
    Shares.RevokeAllExactly(s.shares, s.package.records, 2, 1, s.clock);
    RevocationClearsAccess(s, s.shares);
  }

  lemma DeletionStep(w: World)
    requires ForRecipient(w.state) && OnlyRow(w, Paid, CAPTURED)
    ensures var after := Next(w, CREATOR_DELETES);
            && ForRecipient(after.state) && NoLiveAccess(after.state) && after.processed == w.processed
            && after.state.payments == [CAPTURED] && after.state.package.status == Paid && !Live(after.state.package)
  {
    hide RevokedShares, NoLiveAccess;
    assert Ticked(w.state, 0) == w.state;
    DeletionClearsAccess(w.state, 1);
    RevokingKeepsTerms(w.state);
    assert DeletePackage(w.state, 1).0.shares == RevokedShares(w.state) by {
      DeletionRevokes(w.state);
    }
  }

  lemma DeletionRevokes(s: State)
    requires CanDelete(s.package, 1)
    ensures DeletePackage(s, 1).0.shares == RevokedShares(s)
  {
  }

  lemma RefundStepRegrants(w: World)
    requires ForRecipient(w.state) && NoLiveAccess(w.state) && "evt" !in w.processed
    requires w.state.payments == [CAPTURED] && w.state.package.status == Paid && !Live(w.state.package)
    ensures var after := Next(w, FULLY_REFUNDED).state; !Live(after.package) && !NoLiveAccess(after)
  {
    var s := w.state;
    assert Ticked(s, 0) == s;
    FindsFirst();
    assert PlanStep(w, FULLY_REFUNDED) == Act(s, Revert(0, false, FullRefund));
    assert RECORD in s.package.records && !HasLiveRow(s, RECORD);
    assert StepRegrants(w, FULLY_REFUNDED);
    hide PlanStep, Next, StepRegrants, NoLiveAccess;
    StepKeepsRevokedExactly(w, FULLY_REFUNDED);
    DeletionIsFinal(w, FULLY_REFUNDED);
  }

  lemma RunOfThree(w: World, a: Moment, b: Moment, c: Moment)
    ensures Run(w, [a, b, c]) == Next(Next(Next(w, a), b), c)
  {
    hide Next;
    assert Run(w, [a]) == Next(w, a);
    assert [a, b][..1] == [a];
    assert [a, b, c][..2] == [a, b];
    assert Run(w, [a, b]) == Next(Run(w, [a]), b);
  }

  lemma SharedPackageIsSound()
    ensures var w := SharedPackage();
            && Joint(w.state) && Bookkept(w.state) && ClosedMeansRevoked(w.state) && ForRecipient(w.state)
            && OnlyRow(w, Open, Failed(CAPTURED)) && w.processed == {}
  {
    GrantedIsAudited();
    hide Shares.Audited;
    assert ActiveRecords(SharedPackage().state.package) !! {};
  }

  /** A run from a sound state that settles, deletes and refunds a package shows its record to the
      recipient again. */
  lemma RefundRegrantsDeletedPackage()
    ensures var w := SharedPackage();
            && Joint(w.state) && Bookkept(w.state) && ClosedMeansRevoked(w.state)
            && Shares.AllOwnedBy(w.state.package.records, w.state.package.creator)
            && !Live(Run(w, RefundAfterDeletion()).state.package) && !ClosedMeansRevoked(Run(w, RefundAfterDeletion()).state)
            && !NeverRegrantsDeleted(w, RefundAfterDeletion())
  {
    var w, run := SharedPackage(), RefundAfterDeletion();
    SharedPackageIsSound();
    hide SharedPackage, Next, RevokedShares, Bookkept, Joint, NoLiveAccess, NeverRegrantsDeleted, Run;
    ReofferCompletes(w);
    RevokingKeepsTerms(w.state);
    var paid := Next(w, REOFFER);
    DeletionStep(paid);
    var deleted := Next(paid, CREATOR_DELETES);
    RefundStepRegrants(deleted);
    RunOfThree(w, REOFFER, CREATOR_DELETES, FULLY_REFUNDED);
    assert After(w, run, 3) == Run(w, run) by {
      assert run[..3] == run;
    }
    RunKeepsClosedExactly(w, run);
  }

  // ----- Two pending rows -----

  const PAYABLE := Checkout.Expense("Hotel", "", Some(10.0), "usd", true)

  const SECOND_CLAIM := Moment(Claim(Attempt(true, Some(2), "usd", 8, [PAYABLE], map[], false)), READY, 0)

  lemma ClaimsOverRestored(w: World)
    requires w.state.payments == [RESTORED] && w.state.package.status == Open && w.state.clock == 0
    ensures ClaimsOverCompleted(w, SECOND_CLAIM)
  {
    var s, attempt := w.state, SECOND_CLAIM.step.attempt;
    assert Ticked(s, 0) == s;
    OnePayableItem(s, attempt);
    hide ItemsOf;
    assert LatestIncomplete(s.payments) == None;
    assert s.payments[0].session != Placeholder(8);
    assert FindSession(s.payments, Placeholder(8)).None?;
    assert ClaimCheckout(s, attempt).1 == Claimed(s.nextPk);
  }

  /** A dispute won on a claim whose package row is locked, then another claim: two rows are pending. */
  lemma ClaimOverCompletedClaim()
    ensures var w := PackageWith(Open, [UNATTACHED]);
            var run := [WonDispute(false), SECOND_CLAIM];
            && WellFormed(w.state) && Joint(w.state) && PendingIsNewest(w.state)
            && PendingIsNewest(Run(w, run[..1]).state) && !PendingIsNewest(Run(w, run).state)
  {
    var w := PackageWith(Open, [UNATTACHED]);
    var run := [WonDispute(false), SECOND_CLAIM];
    assert WellFormed(w.state) && Joint(w.state) && PendingIsNewest(w.state);
    WonDisputeCompletesClaim(false);
    hide Next, PackageWith, WellFormed, Joint;
    var restored := Next(w, WonDispute(false));
    assert PendingIsNewest(restored.state);
    ClaimsOverRestored(restored);
    StepKeepsPendingExactly(restored, SECOND_CLAIM);
    assert run[..1] == [WonDispute(false)];
    assert Run(w, run[..1]) == restored;
    assert Run(w, run) == Next(restored, SECOND_CLAIM);
  }

  lemma OnePayableItem(s: State, attempt: Attempt)
    requires attempt.expenses == [PAYABLE] && attempt.currency == "usd"
    ensures ItemsOf(s, attempt).Success? && ItemsOf(s, attempt).value.lineItems != []
  {
    assert attempt.expenses[..0] == [];
    assert Checkout.LineItemFor(PAYABLE, "usd", attempt.rates).Success?;
    assert Checkout.LineItemFor(PAYABLE, "usd", attempt.rates).value.Some?;
    assert Checkout.PerRecordItems(attempt.expenses[..0], "usd", attempt.rates) == Success(Checkout.NO_ITEMS);
  }

  /** A settlement that finds the package row locked by another transaction completes its payment on
      a package that stays open. */
  lemma LockedRowSettlesOnOpenPackage(s: State, i: nat, session: Session, source: Source)
    requires i < |s.payments| && s.package.status == Open && Live(s.package) && AmountMatches(s.payments[i], session)
    ensures !CompletedIsPaid(ApplyPaidSession(s, i, session, source, Oracle(false, true)).0)
  {
    assert ApplyPaidSession(s, i, session, source, Oracle(false, true)).0.payments[i].completed;
  }
}
