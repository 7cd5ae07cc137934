/** The stored rows and the code that updates them, each method against its step of the protocol. */
module SettlementStore {
  import opened Basics
  import opened Settlement
  import Checkout
  import ExchangeRates
  import Shares
  import StaleReads
  import StaleRuns

  class PaymentRow {
    const pk: nat
    const payer: Option<UserId>
    const amountPaid: real
    const expectedCents: Option<int>
    const currency: string
    const createdAt: int
    var session: SessionId
    var intent: string
    var completed: bool

    constructor (payment: Payment)
      ensures View() == payment
    {
      pk, payer, session, intent := payment.pk, payment.payer, payment.session, payment.intent;
      amountPaid, expectedCents, currency := payment.amountPaid, payment.expectedCents, payment.currency;
      completed, createdAt := payment.completed, payment.createdAt;
    }

    function View(): Payment
      reads this
    {
      Payment(pk, payer, session, intent, amountPaid, expectedCents, currency, completed, createdAt)
    }

    method CompleteFromSession(report: Session)
      modifies this
      ensures View() == CompletedFrom(old(View()), report)
    {
      completed := true;
      if report.intent != "" {
        intent := report.intent;
      }
    }

    method MarkFailed()
      modifies this
      ensures View() == Failed(old(View()))
    {
      completed := false;
    }
  }

  class PackageRow {
    const creator: UserId
    const recipient: Option<UserId>
    const records: seq<Shares.RecordRef>
    const title: string
    const expiresAt: Option<int>
    var status: Status
    var paidBy: Option<UserId>
    var paidAt: Option<int>
    var deletedAt: Option<int>

    constructor (package: Package)
      ensures View() == package
    {
      creator, recipient, records := package.creator, package.recipient, package.records;
      title, expiresAt := package.title, package.expiresAt;
      status, paidBy, paidAt, deletedAt := package.status, package.paidBy, package.paidAt, package.deletedAt;
    }

    function View(): Package
      reads this
    {
      Package(creator, recipient, records, title, expiresAt, status, paidBy, paidAt, deletedAt)
    }

    method Activate(rowFree: bool) returns (activated: bool)
      modifies this
      ensures activated == (old(status) == Queued && rowFree)
      ensures View() == if activated then old(View()).(status := Open) else old(View())
    {
      activated := status == Queued && rowFree;
      if activated {
        status := Open;
      }
    }
  }

  function Views(rows: seq<PaymentRow>): (views: seq<Payment>)
    reads rows
    ensures |views| == |rows| && forall i | 0 <= i < |rows| :: views[i] == rows[i].View()
  {
    seq(|rows|, i requires 0 <= i < |rows| reads rows => rows[i].View())
  }

  predicate Distinct(rows: seq<PaymentRow>) {
    forall i, j | 0 <= i < j < |rows| :: rows[i] != rows[j]
  }

  datatype Lookup = Found(at: nat) | NotFound | RaisedForRetry

  /** The outcome of a lookup method agrees with the located row of the protocol. */
  predicate Agrees(located: Located, before: State, after: State, r: Lookup) {
    match located
    case Raised => r == RaisedForRetry && after == before
    case Located(s, None) => r == NotFound && after == s
    case Located(s, Some(at)) => r == Found(at) && after == s
  }

  class Store {
    const package: PackageRow
    const shares: Shares.ShareTable
    var payments: seq<PaymentRow>
    var nextPk: nat
    var reimbursed: set<Shares.RecordId>
    var receipts: seq<Receipt>
    var refunds: seq<Refund>
    var audit: seq<Audit>
    var notices: seq<Option<UserId>>
    var clock: int
    var processed: set<string>

    predicate Valid()
      reads this
    {
      Distinct(payments)
    }

    function View(): State
      reads this, package, shares, payments
    {
      State(package.View(), Views(payments), nextPk, reimbursed, receipts, refunds, audit, notices, shares.View(), clock)
    }

    function WorldView(): World
      reads this, package, shares, payments
    {
      World(View(), processed)
    }

    constructor (terms: Package)
      ensures Valid() && WorldView() == World(State(terms, [], 0, {}, [], [], [], [], Shares.Table(map[], []), 0), {})
      ensures fresh(package) && fresh(shares)
    {
      package := new PackageRow(terms);
      shares := new Shares.ShareTable();
      payments, nextPk, reimbursed, receipts, refunds := [], 0, {}, [], [];
      audit, notices, clock, processed := [], [], 0, {};
    }

    // ----- Package transitions -----

    method MarkAsPaid(payer: Option<UserId>, currency: string, rowFree: bool)
      requires Valid()
      modifies this, package, shares
      ensures Valid() && payments == old(payments) && processed == old(processed)
      ensures View() == Settlement.MarkAsPaid(old(View()), payer, currency, rowFree)
    {
      if package.status != Open || !rowFree {
        return;
      }
      package.status, package.paidBy, package.paidAt := Paid, payer, Some(clock);
      reimbursed := reimbursed + ActiveRecords(package.View());
      if payer.Some? {
        receipts := receipts + [Receipt(payer.value, currency, 0)];
      }
      var _ := shares.RevokePackageAccess(package.records, package.recipient, package.creator, clock);
    }

    method MarkAsRefunded(rowFree: bool)
      requires Valid()
      modifies this, package, shares
      ensures Valid() && payments == old(payments) && processed == old(processed)
      ensures View() == Settlement.MarkAsRefunded(old(View()), rowFree)
    {
      if package.status != Paid || !rowFree {
        return;
      }
      var previousPayer := package.paidBy;
      package.status, package.paidBy, package.paidAt := Open, None, None;
      reimbursed := reimbursed - ActiveRecords(package.View());
      receipts := MarkReceipts(receipts, previousPayer);
      var _ := shares.GrantPackageAccess(package.records, package.recipient, package.creator, package.expiresAt, clock);
    }

    method DeletePackage(user: UserId) returns (deleted: bool)
      requires Valid()
      modifies this, package, shares
      ensures Valid() && payments == old(payments) && processed == old(processed)
      ensures (View(), deleted) == Settlement.DeletePackage(old(View()), user)
    {
      if !CanDelete(package.View(), user) {
        return false;
      }
      deleted := shares.RevokePackageAccess(package.records, package.recipient, package.creator, clock);
      if deleted {
        package.deletedAt := Some(clock);
      }
    }

    // ----- Writing one payment row -----

    method Fail(i: nat)
      requires Valid() && i < |payments|
      modifies payments
      ensures View() == WithPayment(old(View()), i, Failed(old(View()).payments[i]))
    {
      var payment := payments[i];
      payment.MarkFailed();
      assert View().payments == old(View()).payments[i := payments[i].View()];
    }

    method Complete(i: nat, session: Session)
      requires Valid() && i < |payments|
      modifies payments
      ensures View() == WithPayment(old(View()), i, CompletedFrom(old(View()).payments[i], session))
    {
      var payment := payments[i];
      payment.CompleteFromSession(session);
      assert View().payments == old(View()).payments[i := payments[i].View()];
    }

    method Log(entry: Audit)
      requires Valid()
      modifies this`audit
      ensures View() == Logged(old(View()), entry)
    {
      audit := audit + [entry];
    }

    // ----- Settlement, refund, reversal, restoration -----

    method RefundCapturedPayment(i: nat, trigger: Trigger, accepted: bool) returns (refunded: bool)
      requires Valid() && i < |payments|
      modifies this`refunds
      ensures refunded == Refunds(old(payments[i].View()), accepted)
      ensures View() == WithRefund(old(View()), i, trigger, accepted)
    {
      var payment := payments[i];
      if !payment.completed {
        return false;
      }
      if payment.intent == "" {
        return false;
      }
      if !accepted {
        return false;
      }
      refunds := refunds + [Refund(payment.pk, trigger, payment.intent)];
      return true;
    }

    method RefuseDeleted(i: nat, accepted: bool)
      requires Valid() && i < |payments|
      modifies this, payments
      ensures Valid() && payments == old(payments) && processed == old(processed)
      ensures View() == Settlement.RefuseDeleted(old(View()), i, accepted)
    {
      var _ := RefundCapturedPayment(i, DeletedBeforeSettlement, accepted);
      Fail(i);
      Log(RefusedAfterDeleteAudit(payments[i].pk));
    }

    method RefuseDuplicate(i: nat, accepted: bool)
      requires Valid() && i < |payments|
      modifies this, payments
      ensures Valid() && payments == old(payments) && processed == old(processed)
      ensures View() == Settlement.RefuseDuplicate(old(View()), i, accepted)
    {
      var _ := RefundCapturedPayment(i, DuplicateSettlement, accepted);
      Fail(i);
    }

    method CompleteAndPay(i: nat, session: Session, source: Source, o: Oracle)
      requires Valid() && i < |payments|
      modifies this, package, shares, payments
      ensures Valid() && payments == old(payments) && processed == old(processed)
      ensures View() == Settlement.CompleteAndPay(old(View()), i, session, source, o)
    {
      var payment := payments[i].View();
      assert payment == View().payments[i];
      hide Settlement.MarkAsPaid, View, CompletedFrom;
      Complete(i, session);
      MarkAsPaid(payment.payer, PayerCurrency(payment), o.rowFree);
      if !payment.completed {
        LogSettlement(source, payment.pk, payment.payer);
      }
    }

    method LogSettlement(source: Source, pk: nat, payer: Option<UserId>)
      modifies this`audit, this`notices
      ensures var s := old(View()); View() == Logged(s, SettlementAudit(source, pk)).(notices := s.notices + [payer])
    {
      audit := audit + [SettlementAudit(source, pk)];
      notices := notices + [payer];
    }

    method ApplyPaidSession(i: nat, session: Session, source: Source, o: Oracle) returns (settled: bool)
      requires Valid() && i < |payments|
      modifies this, package, shares, payments
      ensures Valid() && payments == old(payments) && processed == old(processed)
      ensures (View(), settled) == Settlement.ApplyPaidSession(old(View()), i, session, source, o)
    {
      var payment, terms := payments[i].View(), package.View();
      assert payment == View().payments[i] && terms == View().package;
      hide Settlement.CompleteAndPay, Settlement.RefuseDeleted, Settlement.RefuseDuplicate, AmountMatches, View;
      if !AmountMatches(payment, session) {
        return false;
      }
      if !Live(terms) {
        RefuseDeleted(i, o.refundAccepted);
        return false;
      }
      if terms.status == Paid && !payment.completed {
        RefuseDuplicate(i, o.refundAccepted);
        return false;
      }
      CompleteAndPay(i, session, source, o);
      return true;
    }

    /** The refusals and the completion of a settlement that works on copies read earlier. */
    method RefuseSeen(row: Payment, i: nat, trigger: Trigger, accepted: bool)
      requires Valid() && i < |payments|
      modifies this`refunds, payments
      ensures Valid() && payments == old(payments) && processed == old(processed)
      ensures View() == StaleReads.RefuseSeen(old(View()), row, i, trigger, accepted)
    {
      if row.completed && row.intent != "" && accepted {
        refunds := refunds + [Refund(row.pk, trigger, row.intent)];
      }
      Fail(i);
    }

    method WriteCompletion(i: nat, intent: string)
      requires Valid() && i < |payments|
      modifies payments
      ensures View() == WithPayment(old(View()), i, old(View()).payments[i].(completed := true, intent := intent))
    {
      var stored := payments[i];
      stored.completed, stored.intent := true, intent;
      assert View().payments == old(View()).payments[i := payments[i].View()];
    }

    method CompleteSeen(row: Payment, i: nat, session: Session, source: Source, o: Oracle)
      requires Valid() && i < |payments|
      modifies this, package, shares, payments
      ensures Valid() && payments == old(payments) && processed == old(processed)
      ensures View() == StaleReads.CompleteSeen(old(View()), row, i, session, source, o)
    {
      hide Settlement.MarkAsPaid, View, PayerCurrency;
      WriteCompletion(i, if session.intent != "" then session.intent else row.intent);
      MarkAsPaid(row.payer, PayerCurrency(row), o.rowFree);
      if !row.completed {
        LogSettlement(source, row.pk, row.payer);
      }
    }

    method SettleFrom(seen: Package, row: Payment, i: nat, session: Session, source: Source, o: Oracle) returns (settled: bool)
      requires Valid() && i < |payments|
      modifies this, package, shares, payments
      ensures Valid() && payments == old(payments) && processed == old(processed)
      ensures (View(), settled) == StaleReads.SettleFrom(old(View()), seen, row, i, session, source, o)
    {
      hide StaleReads.RefuseSeen, StaleReads.CompleteSeen, AmountMatches;
      if !AmountMatches(row, session) {
        return false;
      }
      if !Live(seen) {
        RefuseSeen(row, i, DeletedBeforeSettlement, o.refundAccepted);
        Log(RefusedAfterDeleteAudit(row.pk));
        return false;
      }
      if seen.status == Paid && !row.completed {
        RefuseSeen(row, i, DuplicateSettlement, o.refundAccepted);
        return false;
      }
      CompleteSeen(row, i, session, source, o);
      return true;
    }

    method ReopenPackage(i: nat, payerRefunded: bool, trigger: Trigger, o: Oracle)
      requires Valid() && i < |payments|
      modifies this, package, shares, payments
      ensures Valid() && payments == old(payments) && processed == old(processed)
      ensures View() == Settlement.ReopenPackage(old(View()), i, payerRefunded, trigger, o)
    {
      var pk := payments[i].pk;
      assert pk == View().payments[i].pk;
      hide Settlement.MarkAsRefunded, View;
      Fail(i);
      MarkAsRefunded(o.rowFree);
      Log(RevertedAudit(trigger, pk, payerRefunded));
    }

    method RevertPackagePayment(i: nat, refund: bool, trigger: Trigger, o: Oracle)
      requires Valid() && i < |payments|
      modifies this, package, shares, payments
      ensures Valid() && payments == old(payments) && processed == old(processed)
      ensures View() == RevertPayment(old(View()), i, refund, trigger, o)
    {
      var payment := payments[i].View();
      assert payment == View().payments[i];
      hide Settlement.ReopenPackage, View;
      var refunded := false;
      if refund {
        refunded := RefundCapturedPayment(i, trigger, o.refundAccepted);
        if !refunded && payment.completed {
          Log(RefundFailedAudit(trigger, payment.pk));
          return;
        }
      }
      ReopenPackage(i, refunded, trigger, o);
    }

    method RestorePaidPayment(i: nat, o: Oracle)
      requires Valid() && i < |payments|
      modifies this, package, shares, payments
      ensures Valid() && payments == old(payments) && processed == old(processed)
      ensures View() == RestorePayment(old(View()), i, o)
    {
      hide Settlement.MarkAsPaid;
      var payment := payments[i];
      var wasPaid := payment.completed && package.status == Paid;
      payment.completed := true;
      assert View().payments == old(View()).payments[i := payments[i].View()];
      MarkAsPaid(payment.payer, PayerCurrency(payment.View()), o.rowFree);
      if !wasPaid {
        Log(DisputeWonAudit(payment.pk));
      }
    }

    // ----- Finding the payment row -----

    method PaymentForCheckoutSession(id: string, unknownToStripe: bool) returns (r: Lookup)
      requires Valid()
      ensures Agrees(LocateSession(View(), id, unknownToStripe), View(), View(), r)
    {
      var at := FindSession(Views(payments), Stripe(id));
      if at.Some? {
        return Found(at.value);
      }
      return if unknownToStripe then NotFound else RaisedForRetry;
    }

    method PaymentForPaymentIntent(intent: string, reply: IntentReply) returns (r: Lookup)
      requires Valid()
      modifies payments
      ensures Agrees(LocateIntent(old(View()), intent, reply), old(View()), View(), r)
    {
      var at := FindIntent(Views(payments), intent);
      if at.Some? {
        return Found(at.value);
      }
      match reply {
        case IntentUnknown => return NotFound;
        case IntentError => return RaisedForRetry;
        case IntentMetadata(ours) =>
          if !ours {
            return NotFound;
          }
          var newest := LatestUnlinked(Views(payments));
          if newest.None? {
            return NotFound;
          }
          payments[newest.value].intent := intent;
          assert View().payments == old(View()).payments[newest.value := payments[newest.value].View()];
          return Found(newest.value);
      }
    }

    method PaymentFromCharge(charge: ChargeReply, reply: IntentReply) returns (r: Lookup)
      requires Valid()
      modifies payments
      ensures Agrees(LocateCharge(old(View()), charge, reply), old(View()), View(), r)
    {
      match charge {
        case ChargeUnknown => return NotFound;
        case ChargeError => return RaisedForRetry;
        case ChargeOf(intent) =>
          if intent == "" {
            return NotFound;
          }
          r := PaymentForPaymentIntent(intent, reply);
      }
    }

    method PaymentOf(event: StripeEvent) returns (r: Lookup)
      requires Valid()
      modifies payments
      ensures Agrees(Locate(old(View()), event), old(View()), View(), r)
      ensures r.Found? ==> r.at < |payments|
    {
      hide LocateSession, LocateIntent, LocateCharge;
      r := NotFound;
      match event {
        case CheckoutCompleted(paid, ours, id, _, unknown) =>
          if paid && ours {
            r := PaymentForCheckoutSession(id, unknown);
          }
        case AsyncSucceeded(ours, id, _, unknown) =>
          if ours {
            r := PaymentForCheckoutSession(id, unknown);
          }
        case AsyncFailed(ours, id, unknown) =>
          if ours {
            r := PaymentForCheckoutSession(id, unknown);
          }
        case PaymentFailure(transfer, intent, hasSource, charge, reply) =>
          if intent != "" {
            r := PaymentForPaymentIntent(intent, reply);
          } else if transfer && hasSource {
            r := PaymentFromCharge(charge, reply);
          }
        case ChargeRefunded(intent, _, _, reply) =>
          if intent != "" {
            r := PaymentForPaymentIntent(intent, reply);
          }
        case Dispute(_, _, hasCharge, charge, reply) =>
          if hasCharge {
            r := PaymentFromCharge(charge, reply);
          }
        case Unrelated =>
      }
    }

    // ----- Webhooks -----

    method ReactToRefund(i: nat, full: bool, o: Oracle)
      requires Valid() && i < |payments|
      modifies this, package, shares, payments
      ensures Valid() && payments == old(payments) && processed == old(processed)
      ensures var s := old(View());
              View() == if full then RevertPayment(s, i, false, FullRefund, o) else Logged(s, PartialRefundAudit(s.payments[i].pk))
    {
      if full {
        RevertPackagePayment(i, false, FullRefund, o);
      } else {
        Log(PartialRefundAudit(payments[i].pk));
      }
    }

    method ReactToDispute(i: nat, closed: bool, verdict: DisputeStatus, o: Oracle)
      requires Valid() && i < |payments|
      modifies this, package, shares, payments
      ensures Valid() && payments == old(payments) && processed == old(processed)
      ensures var s := old(View());
              View() == if verdict == Won then RestorePayment(s, i, o)
                        else if closed && verdict == Lost then RevertPayment(s, i, false, DisputeLost, o)
                        else Logged(s, DisputeOpenAudit(s.payments[i].pk))
    {
      hide RevertPayment, RestorePayment;
      if verdict == Won {
        RestorePaidPayment(i, o);
      } else if closed && verdict == Lost {
        RevertPackagePayment(i, false, DisputeLost, o);
      } else {
        Log(DisputeOpenAudit(payments[i].pk));
      }
    }

    method React(event: StripeEvent, i: nat, o: Oracle)
      requires Valid() && i < |payments|
      modifies this, package, shares, payments
      ensures Valid() && payments == old(payments) && processed == old(processed)
      ensures View() == Perform(old(View()), Reaction(event, i, old(View()).payments[i].pk), o)
    {
      hide View, Logged, Settlement.ApplyPaidSession, RevertPayment, RestorePayment;
      match event {
        case CheckoutCompleted(_, _, _, session, _) =>
          var _ := ApplyPaidSession(i, session, PackagePaid, o);
        case AsyncSucceeded(_, _, session, _) =>
          var _ := ApplyPaidSession(i, session, AsyncPaymentSucceeded, o);
        case AsyncFailed(_, _, _) =>
          Fail(i);
        case PaymentFailure(transfer, _, _, _, _) =>
          RevertPackagePayment(i, true, if transfer then TransferFailed else ChargeFailed, o);
        case ChargeRefunded(_, refundedCents, capturedCents, _) =>
          ReactToRefund(i, refundedCents >= capturedCents, o);
        case Dispute(closed, verdict, _, _, _) =>
          ReactToDispute(i, closed, verdict, o);
        case Unrelated =>
      }
    }

    method RecordProcessed(id: string)
      requires Valid()
      modifies this`processed
      ensures View() == old(View()) && processed == old(processed) + {id}
    {
      processed := processed + {id};
    }

    /** Handler and marker commit together; an exception leaves neither. */
    method ProcessStripeEvent(id: string, event: StripeEvent, o: Oracle) returns (raised: bool)
      requires Valid()
      modifies this, package, shares, payments
      ensures Valid() && payments == old(payments)
      ensures WorldView() == Next(old(WorldView()), Moment(Deliver(id, event, false), o, 0))
      ensures raised ==> WorldView() == old(WorldView())
    {
      hide Locate, Perform, Reaction, View;
      if id != "" && id in processed {
        return false;
      }
      var found := PaymentOf(event);
      if found.RaisedForRetry? {
        return true;
      }
      if found.Found? {
        React(event, found.at, o);
      } else {
        PerformNothing(View(), o);
      }
      if id != "" {
        RecordProcessed(id);
      }
      return false;
    }

    // ----- Sync and poll -----

    method Refresh(at: Option<nat>, reply: SessionReply, o: Oracle) returns (settled: bool)
      requires Valid() && (at.Some? ==> at.value < |payments|)
      modifies this, package, shares, payments
      ensures Valid() && payments == old(payments) && processed == old(processed)
      ensures View() == Perform(old(View()), PlanRefresh(old(View()), at, reply), o)
    {
      hide Settlement.ApplyPaidSession;
      if package.status != Open || at.None? || payments[at.value].session.Placeholder? {
        return false;
      }
      if reply.SessionError? || !reply.paid {
        return false;
      }
      settled := ApplyPaidSession(at.value, reply.session, PaymentSynced, o);
    }

    method SyncPaymentStatus(pk: nat, reply: SessionReply, o: Oracle)
      requires Valid()
      modifies this, package, shares, payments
      ensures Valid() && payments == old(payments)
      ensures WorldView() == Next(old(WorldView()), Moment(Sync(pk, reply), o, 0))
    {
      hide Perform, PlanRefresh;
      var _ := Refresh(FindPk(Views(payments), pk), reply, o);
    }

    method ReconcilePendingPayments(reply: SessionReply, o: Oracle)
      requires Valid()
      modifies this, package, shares, payments
      ensures Valid() && payments == old(payments)
      ensures WorldView() == Next(old(WorldView()), Moment(Poll(reply), o, 0))
    {
      hide Perform, PlanRefresh;
      var _ := Refresh(LatestIncomplete(Views(payments)), reply, o);
    }

    /** A sync or poll up to its call to Stripe, and what it does with the answer. */
    method ReadForSync(pk: nat) returns (copy: Option<StaleRuns.Copy>)
      requires Valid()
      ensures copy == StaleRuns.ReadForSync(View(), pk)
    {
      if package.status != Open {
        return None;
      }
      var at := FindPk(Views(payments), pk);
      if at.None? {
        return None;
      }
      return Some(StaleRuns.Copy(package.View(), payments[at.value].View()));
    }

    method ReadForPoll() returns (copy: Option<StaleRuns.Copy>)
      requires Valid()
      ensures copy == StaleRuns.ReadForPoll(View())
    {
      var at := LatestIncomplete(Views(payments));
      if at.None? {
        return None;
      }
      return Some(StaleRuns.Copy(package.View(), payments[at.value].View()));
    }

    method SettleCopy(copy: StaleRuns.Copy, reply: SessionReply, o: Oracle)
      requires Valid()
      modifies this, package, shares, payments
      ensures Valid() && payments == old(payments) && processed == old(processed)
      ensures View() == StaleRuns.SettleCopy(old(View()), copy, reply, o)
    {
      hide StaleReads.SettleFrom;
      if copy.payment.session.Placeholder? || reply.SessionError? || !reply.paid {
        return;
      }
      var at := FindPk(Views(payments), copy.payment.pk);
      if at.Some? {
        var _ := SettleFrom(copy.package, copy.payment, at.value, reply.session, PaymentSynced, o);
      }
    }

    // ----- Checkout -----

    method RemoveRow(i: nat)
      requires Valid() && i < |payments|
      modifies this`payments
      ensures Valid() && forall k | 0 <= k < |payments| :: payments[k] in old(payments)
      ensures View() == old(View()).(payments := Without(old(View()).payments, i))
    {
      payments := payments[..i] + payments[i + 1..];
    }

    /** create_package_checkout up to the commit of the claim; on an exception the block rolls back. */
    method ClaimCheckout(attempt: Attempt) returns (outcome: ClaimOutcome)
      requires Valid()
      modifies this
      ensures Valid() && processed == old(processed)
      ensures forall k | 0 <= k < |payments| :: payments[k] in old(payments) || fresh(payments[k])
      ensures (View(), outcome) == Settlement.ClaimCheckout(old(View()), attempt)
    {
      if !attempt.eligible {
        return NotPayable;
      }
      if package.status != Open {
        return Unavailable;
      }
      var latest := LatestIncomplete(Views(payments));
      if latest.Some? {
        var newest := payments[latest.value].View();
        if newest.session.Placeholder? && clock - newest.createdAt < CLAIM_STALENESS {
          return Preparing;
        }
        if newest.session.Stripe? && attempt.sessionOpen {
          return Resumed;
        }
      }
      outcome := CommitClaim(attempt, latest);
    }

    method CommitClaim(attempt: Attempt, latest: Option<nat>) returns (outcome: ClaimOutcome)
      requires Valid() && (latest.Some? ==> latest.value < |payments|)
      modifies this
      ensures Valid() && processed == old(processed)
      ensures forall k | 0 <= k < |payments| :: payments[k] in old(payments) || fresh(payments[k])
      ensures (View(), outcome) == Settlement.CommitClaim(old(View()), attempt, latest)
    {
      var items := ItemsFor(attempt);
      var kept := Reclaimed(View(), latest).payments;
      var pk := nextPk;
      assert pk == View().nextPk;
      hide View, Valid, ItemsOf, Reclaimed, WithClaim, FindSession;
      if items.Failure? {
        return RatesDown;
      }
      if items.value.lineItems == [] {
        Reclaim(latest);
        return NoPayableItems;
      }
      if FindSession(kept, Placeholder(attempt.uuid)).Some? {
        return Collision;
      }
      Reclaim(latest);
      InsertClaim(attempt, items.value);
      return Claimed(pk);
    }

    method Reclaim(latest: Option<nat>)
      requires Valid() && (latest.Some? ==> latest.value < |payments|)
      modifies this`payments
      ensures Valid() && forall k | 0 <= k < |payments| :: payments[k] in old(payments)
      ensures View() == Reclaimed(old(View()), latest)
    {
      if latest.Some? && payments[latest.value].session.Placeholder? {
        RemoveRow(latest.value);
      }
    }

    method ItemsFor(attempt: Attempt) returns (items: Result<Checkout.CheckoutItems, ExchangeRates.RateError>)
      ensures items == ItemsOf(View(), attempt)
    {
      items := Checkout.BuildLineItems(attempt.expenses, package.title, attempt.currency, attempt.rates);
    }

    method InsertClaim(attempt: Attempt, items: Checkout.CheckoutItems)
      requires Valid()
      modifies this
      ensures Valid() && processed == old(processed)
      ensures forall k | 0 <= k < |payments| :: payments[k] in old(payments) || fresh(payments[k])
      ensures View() == WithClaim(old(View()), attempt, items)
    {
      var row := new PaymentRow(Payment(nextPk, attempt.payer, Placeholder(attempt.uuid), "", items.totalAmount,
                                        Some(items.totalCents), attempt.currency, false, clock));
      payments := payments + [row];
      nextPk := nextPk + 1;
    }

    method AttachSession(pk: nat, session: string) returns (attached: bool)
      requires Valid()
      modifies payments
      ensures (View(), attached) == Attach(old(View()), pk, session)
    {
      var at := PendingClaim(View(), pk);
      if at.None? || FindSession(Views(payments), Stripe(session)).Some? {
        return false;
      }
      payments[at.value].session := Stripe(session);
      assert View().payments == old(View()).payments[at.value := payments[at.value].View()];
      return true;
    }

    method AbortClaim(pk: nat)
      requires Valid()
      modifies this`payments
      ensures Valid() && processed == old(processed)
      ensures forall k | 0 <= k < |payments| :: payments[k] in old(payments)
      ensures View() == Abort(old(View()), pk)
    {
      var at := PendingClaim(View(), pk);
      if at.Some? {
        RemoveRow(at.value);
      }
    }

    // ----- Any step, any run -----

    method Tick(elapsed: nat)
      requires Valid()
      modifies this`clock
      ensures View() == Ticked(old(View()), elapsed)
    {
      clock := clock + elapsed;
    }

    method OpenQueuedPackage(rowFree: bool)
      requires Valid()
      modifies package
      ensures View() == Activate(old(View()), rowFree)
    {
      var _ := package.Activate(rowFree);
    }

    method Advance(m: Moment)
      requires Valid()
      modifies this, package, shares, payments
      ensures Valid()
      ensures forall k | 0 <= k < |payments| :: payments[k] in old(payments) || fresh(payments[k])
      ensures WorldView() == Next(old(WorldView()), m)
    {
      hide Handle, Perform, PlanRefresh, Settlement.ClaimCheckout, Attach, Abort, Activate, Settlement.DeletePackage, View, Views;
      Tick(m.elapsed);
      match m.step {
        case Deliver(id, event, crashed) =>
          if !crashed {
            var _ := ProcessStripeEvent(id, event, m.oracle);
          }
        case Sync(pk, reply) => SyncPaymentStatus(pk, reply, m.oracle);
        case Poll(reply) => ReconcilePendingPayments(reply, m.oracle);
        case Claim(attempt) =>
          var _ := ClaimCheckout(attempt);
        case AttachSession(pk, session) =>
          var _ := AttachSession(pk, session);
        case AbortClaim(pk) => AbortClaim(pk);
        case OpenQueued =>
          OpenQueuedPackage(m.oracle.rowFree);
        case Delete(user) =>
          var _ := DeletePackage(user);
      }
    }

    /** Carrying out the steps of a run one by one is the run of the protocol. */
    method Execute(run: seq<Moment>)
      requires Valid()
      modifies this, package, shares, payments
      ensures Valid() && WorldView() == Run(old(WorldView()), run)
    {
      hide Next;
      assert run[..0] == [];
      for n := 0 to |run|
        invariant Valid()
        invariant forall k | 0 <= k < |payments| :: payments[k] in old(payments) || fresh(payments[k])
        invariant WorldView() == Run(old(WorldView()), run[..n])
      {
        assert run[..n + 1][..n] == run[..n];
        Advance(run[n]);
      }
      assert run[..|run|] == run;
    }
  }

  lemma PerformNothing(s: State, o: Oracle)
    ensures Perform(s, Nothing, o) == s
  {
  }
}
