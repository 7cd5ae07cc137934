/** What each step does to the stored rows, package and books, in terms of those alone. */
module SettlementEffects {
  import opened Basics
  import opened Rounding
  import opened Currencies
  import opened Settlement
  import opened SettlementRuns
  import opened SettlementRefunds
  import StaleReads
  import Checkout
  import Shares

  /** The delivery is a first one: not handled before and not cut short. */
  predicate Heard(w: World, m: Moment) {
    m.step.Deliver? && !m.step.crashed && (m.step.id == "" || m.step.id !in w.processed)
  }

  // ----- Settlement attempts: webhooks, sync and poll -----

  /** The session is in the payment's currency and of exactly the expected amount; a row from before
      expectations were recorded allows one minor unit either way. */
  predicate PaysFor(session: Session, payment: Payment) {
    && (session.currency == "" || Lower(session.currency) == Lower(payment.currency))
    && session.amountTotal.Some?
    && if payment.expectedCents.Some? then session.amountTotal == payment.expectedCents
       else Abs((session.amountTotal.value - HalfUp(payment.amountPaid * MinorUnits(payment.currency) as real)) as real) <= 1.0
  }

  lemma AmountMatchesExactly(payment: Payment, session: Session)
    ensures AmountMatches(payment, session) <==> PaysFor(session, payment)
  {
  }

  predicate NewestIncomplete(s: State, i: nat) {
    i < |s.payments| && !s.payments[i].completed && forall j | i < j < |s.payments| :: s.payments[j].completed
  }

  /** The session a step reports as paid, if it does. */
  function PaidSession(m: Moment): Option<Session> {
    match m.step
    case Deliver(_, CheckoutCompleted(paid, ours, _, session, _), _) => if paid && ours then Some(session) else None
    case Deliver(_, AsyncSucceeded(ours, _, session, _), _) => if ours then Some(session) else None
    case Sync(_, SessionReport(paid, session)) => if paid then Some(session) else None
    case Poll(SessionReport(paid, session)) => if paid then Some(session) else None
    case _ => None
  }

  /** The step reports a paid session for row i: a webhook by its session id, a sync by the row's key,
      the poll for the newest incomplete row. */
  predicate AttemptsOn(w: World, m: Moment, i: nat) {
    && i < |w.state.payments| && w.state.payments[i].session.Stripe? && PaidSession(m).Some?
    && match m.step
       case Deliver(_, event, _) => Heard(w, m) && w.state.payments[i].session.id == event.id
       case Sync(pk, _) => w.state.package.status == Open && w.state.payments[i].pk == pk
       case Poll(_) => w.state.package.status == Open && NewestIncomplete(w.state, i)
       case _ => false
  }

  function SourceOf(m: Moment): Source {
    if m.step.Deliver? then (if m.step.event.CheckoutCompleted? then PackagePaid else AsyncPaymentSucceeded) else PaymentSynced
  }

  lemma SessionFindsRow(s: State, i: nat)
    requires WellFormed(s) && i < |s.payments|
    ensures FindSession(s.payments, s.payments[i].session) == Some(i) && FindPk(s.payments, s.payments[i].pk) == Some(i)
  {
    assert s.payments[i] in s.payments;
  }

  lemma AttemptIsSettlement(w: World, m: Moment, i: nat)
    requires WellFormed(w.state) && AttemptsOn(w, m, i)
    ensures Next(w, m).state == ApplyPaidSession(Ticked(w.state, m.elapsed), i, PaidSession(m).value, SourceOf(m), m.oracle).0
    ensures Next(w, m).processed == if m.step.Deliver? && m.step.id != "" then w.processed + {m.step.id} else w.processed
  {
    hide ApplyPaidSession, FindSession, FindPk, LatestIncomplete;
    SessionFindsRow(w.state, i);
    if m.step.Poll? {
      NewestIncompleteIsLatest(w.state, i);
    }
  }

  lemma NewestIncompleteIsLatest(s: State, i: nat)
    requires NewestIncomplete(s, i)
    ensures LatestIncomplete(s.payments) == Some(i)
  {
  }

  /** The row as a settlement leaves it: completed, with the session's intent if it names one. */
  function Recorded(payment: Payment, session: Session): Payment {
    payment.(completed := true, intent := if session.intent != "" then session.intent else payment.intent)
  }

  predicate IsActiveRecord(s: State, r: Shares.RecordId) {
    exists record :: record in s.package.records && record.active && record.id == r
  }

  /** Payment of the package: its columns, the reimbursed marks and the payer's receipt. */
  ghost predicate PaidNow(before: State, after: State, payment: Payment) {
    && after.package == before.package.(status := Paid, paidBy := payment.payer, paidAt := Some(after.clock))
    && (forall r :: r in after.reimbursed <==> r in before.reimbursed || IsActiveRecord(before, r))
    && after.receipts == before.receipts +
         (if payment.payer.Some? then [Receipt(payment.payer.value, if payment.currency == "" then "usd" else payment.currency, 0)] else [])
  }

  /** Package and books as they were. */
  predicate PackageKept(before: State, after: State) {
    after.package == before.package && after.reimbursed == before.reimbursed && after.receipts == before.receipts && after.shares == before.shares
  }

  lemma MarkAsPaidPays(s: State, payment: Payment, rowFree: bool)
    ensures var after := MarkAsPaid(s, payment.payer, PayerCurrency(payment), rowFree);
            if s.package.status == Open && rowFree then PaidNow(s, after, payment) else after == s
  {
    hide RevokedShares;
  }

  /** A paid session of the right amount for a payment of a live package that is not paid yet: the row
      is completed with the session's intent, no other row is touched and nothing is refunded. An open
      package whose row can be locked is paid. A first completion has its one notice and audit entry. */
  lemma AttemptSettles(w: World, m: Moment, i: nat)
    requires WellFormed(w.state) && AttemptsOn(w, m, i) && PaysFor(PaidSession(m).value, w.state.payments[i])
    requires Live(w.state.package) && w.state.package.status != Paid
    ensures var s, after, payment := w.state, Next(w, m).state, w.state.payments[i];
            && after.payments == s.payments[i := Recorded(payment, PaidSession(m).value)]
            && after.clock == s.clock + m.elapsed && after.refunds == s.refunds
            && (if s.package.status == Open && m.oracle.rowFree then PaidNow(s, after, payment) else PackageKept(s, after))
            && (if payment.completed then after.notices == s.notices && after.audit == s.audit
                else after.notices == s.notices + [payment.payer] && after.audit == s.audit + [SettlementAudit(SourceOf(m), payment.pk)])
    ensures m.step.Deliver? && m.step.id != "" ==> m.step.id in Next(w, m).processed
  {
    hide AmountMatches, MarkAsPaid, PayerCurrency, Next;
    AttemptIsSettlement(w, m, i);
    AmountMatchesExactly(w.state.payments[i], PaidSession(m).value);
    var s := Ticked(w.state, m.elapsed);
    var completed := WithPayment(s, i, CompletedFrom(s.payments[i], PaidSession(m).value));
    MarkAsPaidPays(completed, s.payments[i], m.oracle.rowFree);
    MarkAsPaidKeepsRest(completed, s.payments[i], m.oracle.rowFree);
  }

  lemma MarkAsPaidKeepsRest(s: State, payment: Payment, rowFree: bool)
    ensures var after := MarkAsPaid(s, payment.payer, PayerCurrency(payment), rowFree);
            && after.payments == s.payments && after.clock == s.clock && after.notices == s.notices
            && after.audit == s.audit && after.refunds == s.refunds && after.nextPk == s.nextPk
  {
    hide RevokedShares;
  }

  /** Every other attempt leaves the package as it was: one of the wrong amount or against a payment a
      paid package does not await changes nothing, one for a payment that settled before only records
      its intent, and on a deleted package the row ends incomplete. */
  lemma AttemptRefused(w: World, m: Moment, i: nat)
    requires WellFormed(w.state) && AttemptsOn(w, m, i)
    ensures var s, after, payment := w.state, Next(w, m).state, w.state.payments[i];
            var pays, waiting := PaysFor(PaidSession(m).value, payment), Ticked(w.state, m.elapsed);
            && (!pays ==> after == waiting)
            && (pays && Live(s.package) && s.package.status == Paid && !payment.completed ==> after == waiting)
            && (pays && Live(s.package) && s.package.status == Paid && payment.completed ==>
                  after == waiting.(payments := s.payments[i := Recorded(payment, PaidSession(m).value)]))
            && (pays && !Live(s.package) ==>
                  && after.payments == s.payments[i := payment.(completed := false)] && PackageKept(s, after)
                  && after.notices == s.notices && after.audit == s.audit + [RefusedAfterDeleteAudit(payment.pk)]
                  && after.refunds == s.refunds +
                       (if payment.completed && payment.intent != "" && m.oracle.refundAccepted
                        then [Refund(payment.pk, DeletedBeforeSettlement, payment.intent)] else []))
  {
    hide AmountMatches, PayerCurrency, Next;
    AttemptIsSettlement(w, m, i);
    AmountMatchesExactly(w.state.payments[i], PaidSession(m).value);
    assert w.state.payments[i := w.state.payments[i]] == w.state.payments;
  }

  /** A failed asynchronous payment clears the flag of its row and nothing else. */
  lemma AsyncFailureClears(w: World, m: Moment, i: nat)
    requires WellFormed(w.state) && Heard(w, m) && m.step.event.AsyncFailed? && m.step.event.ours
    requires i < |w.state.payments| && w.state.payments[i].session == Stripe(m.step.event.id)
    ensures Next(w, m).state == Ticked(w.state, m.elapsed).(payments := w.state.payments[i := w.state.payments[i].(completed := false)])
  {
    hide FindSession;
    SessionFindsRow(w.state, i);
  }

  /** A settlement from copies read earlier succeeds by those alone, and completes its stored row with the
      session's intent or, if there is none, the copy's. */
  lemma StaleAttemptSettles(s: State, seen: Package, row: Payment, i: nat, session: Session, source: Source, o: Oracle)
    requires i < |s.payments|
    ensures var (after, settled) := StaleReads.SettleFrom(s, seen, row, i, session, source, o);
            && (settled <==> PaysFor(session, row) && Live(seen) && (seen.status == Paid ==> row.completed))
            && (settled ==>
                  && after.payments == s.payments[i := s.payments[i].(completed := true, intent := Recorded(row, session).intent)]
                  && after.refunds == s.refunds
                  && (if s.package.status == Open && o.rowFree then PaidNow(s, after, row) else PackageKept(s, after)))
            && (!settled ==>
                  && PackageKept(s, after)
                  && after.payments == if PaysFor(session, row) then s.payments[i := s.payments[i].(completed := false)] else s.payments)
  {
    hide AmountMatches, MarkAsPaid, PayerCurrency;
    AmountMatchesExactly(row, session);
    var completed := WithPayment(s, i, s.payments[i].(completed := true, intent := CompletedFrom(row, session).intent));
    MarkAsPaidPays(completed, row, o.rowFree);
    MarkAsPaidKeepsRest(completed, row, o.rowFree);
  }

  // ----- Events about a payment intent -----

  /** The intent an event is about, from the event and Stripe's word on its charge; "" if there is none. */
  function AboutIntent(event: StripeEvent): string {
    match event
    case PaymentFailure(transfer, intent, hasSource, charge, _) =>
      if intent != "" then intent else if transfer && hasSource && charge.ChargeOf? then charge.intent else ""
    case ChargeRefunded(intent, _, _, _) => intent
    case Dispute(_, _, hasCharge, charge, _) => if hasCharge && charge.ChargeOf? then charge.intent else ""
    case _ => ""
  }

  /** Row i is the oldest with the intent; or no row has it, Stripe says it is the package's, and row i
      is the newest without an intent. */
  predicate Names(s: State, intent: string, reply: IntentReply, i: nat) {
    i < |s.payments| &&
    if s.payments[i].intent == intent then forall j | 0 <= j < i :: s.payments[j].intent != intent
    else
      && (forall j | 0 <= j < |s.payments| :: s.payments[j].intent != intent) && reply == IntentMetadata(true)
      && s.payments[i].intent == "" && forall j | i < j < |s.payments| :: s.payments[j].intent != ""
  }

  predicate IsAbout(w: World, m: Moment, i: nat) {
    && Heard(w, m) && AboutIntent(m.step.event) != "" && i < |w.state.payments|
    && Names(w.state, AboutIntent(m.step.event), m.step.event.reply, i)
  }

  function Linked(s: State, intent: string, i: nat): State
    requires i < |s.payments|
  {
    s.(payments := s.payments[i := s.payments[i].(intent := intent)])
  }

  lemma NamedRowIsLocated(s: State, intent: string, reply: IntentReply, i: nat)
    requires Names(s, intent, reply, i)
    ensures LocateIntent(s, intent, reply) == Located(Linked(s, intent, i), Some(i))
  {
    forall j | 0 <= j < |s.payments|
      ensures s.payments[j] in s.payments
    {
    }
    if s.payments[i].intent == intent {
      OldestIsFound(s.payments, intent, i);
      assert s.payments[i := s.payments[i]] == s.payments;
    } else {
      assert FindIntent(s.payments, intent).None?;
      assert LatestUnlinked(s.payments) == Some(i);
    }
  }

  lemma {:induction false} OldestIsFound(payments: seq<Payment>, intent: string, i: nat)
    requires i < |payments| && payments[i].intent == intent && forall j | 0 <= j < i :: payments[j].intent != intent
    ensures FindIntent(payments, intent) == Some(i)
  {
    if i < |payments| - 1 {
      OldestIsFound(payments[..|payments| - 1], intent, i);
    }
  }

  /** The state in which an event about row i takes effect: time has passed and the intent is linked. */
  function Addressed(w: World, m: Moment, i: nat): State
    requires IsAbout(w, m, i)
  {
    Linked(Ticked(w.state, m.elapsed), AboutIntent(m.step.event), i)
  }

  lemma AboutIsHandled(w: World, m: Moment, i: nat)
    requires IsAbout(w, m, i)
    ensures Next(w, m).state == Perform(Addressed(w, m, i), Reaction(m.step.event, i, w.state.payments[i].pk), m.oracle)
  {
    hide Perform, LocateIntent, Reaction;
    NamedRowIsLocated(Ticked(w.state, m.elapsed), AboutIntent(m.step.event), m.step.event.reply, i);
  }

  /** Reopening the package: its columns, the reimbursed marks, and one refund mark on exactly the
      receipts of whoever had paid. */
  ghost predicate ReopenedNow(before: State, after: State) {
    && after.package == before.package.(status := Open, paidBy := None, paidAt := None)
    && (forall r :: r in after.reimbursed <==> r in before.reimbursed && !IsActiveRecord(before, r))
    && |after.receipts| == |before.receipts|
    && forall k | 0 <= k < |before.receipts| ::
         after.receipts[k] == (if Some(before.receipts[k].payer) == before.package.paidBy
                               then before.receipts[k].(refundMarks := before.receipts[k].refundMarks + 1) else before.receipts[k])
  }

  lemma MarkAsRefundedReopens(s: State, rowFree: bool)
    ensures var after := MarkAsRefunded(s, rowFree);
            && (if s.package.status == Paid && rowFree then ReopenedNow(s, after) else after == s)
            && after.payments == s.payments && after.clock == s.clock && after.notices == s.notices
            && after.audit == s.audit && after.refunds == s.refunds && after.nextPk == s.nextPk
  {
    hide GrantedShares;
  }

  /** The row of an event about it, incomplete, and the package reopened if it was paid and can be locked;
      one audit entry. */
  ghost predicate Reversed(w: World, m: Moment, i: nat, after: State, entry: Audit)
    requires IsAbout(w, m, i)
  {
    && after.notices == w.state.notices && after.audit == w.state.audit + [entry]
    && after.payments == w.state.payments[i := w.state.payments[i].(completed := false, intent := AboutIntent(m.step.event))]
    && after.clock == w.state.clock + m.elapsed
    && if w.state.package.status == Paid && m.oracle.rowFree then ReopenedNow(w.state, after) else PackageKept(w.state, after)
  }

  lemma ReopeningReverses(w: World, m: Moment, i: nat, s: State, payerRefunded: bool, trigger: Trigger)
    requires IsAbout(w, m, i) && s == Addressed(w, m, i).(refunds := s.refunds)
    ensures var after := ReopenPackage(s, i, payerRefunded, trigger, m.oracle);
            Reversed(w, m, i, after, RevertedAudit(trigger, s.payments[i].pk, payerRefunded)) && after.refunds == s.refunds
  {
    hide MarkAsRefunded, Names;
    MarkAsRefundedReopens(WithPayment(s, i, Failed(s.payments[i])), m.oracle.rowFree);
    var after := MarkAsRefunded(WithPayment(s, i, Failed(s.payments[i])), m.oracle.rowFree);
    assert w.state.payments[i].pk == s.payments[i].pk;
    if w.state.package.status == Paid && m.oracle.rowFree {
      assert ReopenedNow(w.state, after);
    }
  }

  /** A full external refund or a lost dispute: the row is incomplete, a paid package whose row can be
      locked is open again, and nothing is refunded. */
  lemma FullReversalReopens(w: World, m: Moment, i: nat)
    requires IsAbout(w, m, i) && PaidBackElsewhere(m.step.event)
    ensures var trigger := if m.step.event.Dispute? then DisputeLost else FullRefund;
            Reversed(w, m, i, Next(w, m).state, RevertedAudit(trigger, w.state.payments[i].pk, false))
    ensures Next(w, m).state.refunds == w.state.refunds
  {
    hide ReopenPackage, Next, Names;
    AboutIsHandled(w, m, i);
    var trigger := if m.step.event.Dispute? then DisputeLost else FullRefund;
    ReopeningReverses(w, m, i, Addressed(w, m, i), false, trigger);
    assert Next(w, m).state == ReopenPackage(Addressed(w, m, i), i, false, trigger, m.oracle);
    hide Reversed;
  }

  function FailureTrigger(event: StripeEvent): Trigger
    requires event.PaymentFailure?
  {
    if event.transfer then TransferFailed else ChargeFailed
  }

  /** A failed transfer or charge: a completed row is refunded, once and for its intent, and reversed; if
      the refund is not accepted nothing is reversed; an incomplete row is reversed without a refund. */
  lemma FailureRefunds(w: World, m: Moment, i: nat)
    requires IsAbout(w, m, i) && m.step.event.PaymentFailure?
    ensures var after, row, trigger := Next(w, m).state, w.state.payments[i], FailureTrigger(m.step.event);
            && (row.completed && m.oracle.refundAccepted ==>
                  && Reversed(w, m, i, after, RevertedAudit(trigger, row.pk, true))
                  && after.refunds == w.state.refunds + [Refund(row.pk, trigger, AboutIntent(m.step.event))])
            && (row.completed && !m.oracle.refundAccepted ==>
                  after == Addressed(w, m, i).(audit := w.state.audit + [RefundFailedAudit(trigger, row.pk)]))
            && (!row.completed ==> Reversed(w, m, i, after, RevertedAudit(trigger, row.pk, false)) && after.refunds == w.state.refunds)
  {
    hide ReopenPackage, Next, Names;
    AboutIsHandled(w, m, i);
    var s, trigger := Addressed(w, m, i), FailureTrigger(m.step.event);
    ReopeningReverses(w, m, i, s, false, trigger);
    ReopeningReverses(w, m, i, WithRefund(s, i, trigger, m.oracle.refundAccepted), Refunds(s.payments[i], m.oracle.refundAccepted), trigger);
    hide Reversed;
  }

  /** A won dispute completes its row; an open package whose row can be locked is paid by it. */
  lemma WonDisputeRestores(w: World, m: Moment, i: nat)
    requires IsAbout(w, m, i) && m.step.event.Dispute? && m.step.event.verdict == Won
    ensures var s, after, row := w.state, Next(w, m).state, w.state.payments[i];
            && after.payments == s.payments[i := row.(completed := true, intent := AboutIntent(m.step.event))]
            && after.clock == s.clock + m.elapsed && after.refunds == s.refunds && after.notices == s.notices
            && after.audit == s.audit + (if row.completed && s.package.status == Paid then [] else [DisputeWonAudit(row.pk)])
            && if s.package.status == Open && m.oracle.rowFree then PaidNow(s, after, row) else PackageKept(s, after)
  {
    hide MarkAsPaid, PayerCurrency, Next, Names;
    AboutIsHandled(w, m, i);
    var s := Addressed(w, m, i);
    var completed := WithPayment(s, i, s.payments[i].(completed := true));
    assert PayerCurrency(s.payments[i]) == PayerCurrency(w.state.payments[i]) by {
      LinkKeepsCurrency(w.state.payments[i], AboutIntent(m.step.event));
    }
    MarkAsPaidPays(completed, w.state.payments[i], m.oracle.rowFree);
    MarkAsPaidKeepsRest(completed, w.state.payments[i], m.oracle.rowFree);
  }

  lemma LinkKeepsCurrency(payment: Payment, intent: string)
    ensures PayerCurrency(payment.(intent := intent)) == PayerCurrency(payment)
  {
  }

  /** A partial refund, or a dispute neither won nor closed as lost, is noted; package and rows stay as
      they were but for a newly linked intent. */
  lemma MinorEventsAreNoted(w: World, m: Moment, i: nat)
    requires IsAbout(w, m, i) && !PaidBackElsewhere(m.step.event)
    requires m.step.event.ChargeRefunded? || (m.step.event.Dispute? && m.step.event.verdict != Won)
    ensures var pk := w.state.payments[i].pk;
            var entry := if m.step.event.Dispute? then DisputeOpenAudit(pk) else PartialRefundAudit(pk);
            Next(w, m).state == Addressed(w, m, i).(audit := w.state.audit + [entry])
  {
    hide Next, Names;
    AboutIsHandled(w, m, i);
  }

  // ----- Events about nothing -----

  /** The event concerns no payment of this package that can be told. */
  predicate AboutNothing(s: State, event: StripeEvent) {
    match event
    case CheckoutCompleted(paid, ours, id, _, unknown) => !paid || !ours || (unknown && NoSession(s.payments, id))
    case AsyncSucceeded(ours, id, _, unknown) => !ours || (unknown && NoSession(s.payments, id))
    case AsyncFailed(ours, id, unknown) => !ours || (unknown && NoSession(s.payments, id))
    case PaymentFailure(transfer, intent, hasSource, charge, reply) =>
      if AboutIntent(event) != "" then NoIntent(s.payments, AboutIntent(event), reply) else !(transfer && hasSource && charge.ChargeError?)
    case ChargeRefunded(intent, _, _, reply) => intent == "" || NoIntent(s.payments, intent, reply)
    case Dispute(_, _, hasCharge, charge, reply) =>
      if AboutIntent(event) != "" then NoIntent(s.payments, AboutIntent(event), reply) else !(hasCharge && charge.ChargeError?)
    case Unrelated => true
  }

  predicate NoSession(payments: seq<Payment>, id: string) {
    forall i | 0 <= i < |payments| :: payments[i].session != Stripe(id)
  }

  /** No row has the intent, and Stripe does not lead to one either. */
  predicate NoIntent(payments: seq<Payment>, intent: string, reply: IntentReply) {
    && (forall i | 0 <= i < |payments| :: payments[i].intent != intent)
    && (reply == IntentUnknown || reply == IntentMetadata(false)
        || (reply == IntentMetadata(true) && forall i | 0 <= i < |payments| :: payments[i].intent != ""))
  }

  lemma NoIntentIsNotLocated(s: State, intent: string, reply: IntentReply)
    requires NoIntent(s.payments, intent, reply)
    ensures LocateIntent(s, intent, reply) == Located(s, None)
  {
    var at := FindIntent(s.payments, intent);
    assert at.None?;
    assert reply == IntentMetadata(true) ==> LatestUnlinked(s.payments).None?;
  }

  lemma NoSessionIsNotLocated(s: State, id: string, unknown: bool)
    requires NoSession(s.payments, id)
    ensures LocateSession(s, id, unknown) == if unknown then Located(s, None) else Raised
  {
    assert FindSession(s.payments, Stripe(id)).None?;
  }

  /** Such an event is marked as handled and changes nothing. */
  lemma UnrelatedEventsChangeNothing(w: World, m: Moment)
    requires Heard(w, m) && AboutNothing(w.state, m.step.event)
    ensures Next(w, m).state == Ticked(w.state, m.elapsed)
    ensures Next(w, m).processed == if m.step.id != "" then w.processed + {m.step.id} else w.processed
  {
    hide LocateIntent, LocateSession, NoIntent, NoSession;
    var s, event := Ticked(w.state, m.elapsed), m.step.event;
    if (event.CheckoutCompleted? || event.AsyncSucceeded? || event.AsyncFailed?) && NoSession(s.payments, event.id) {
      NoSessionIsNotLocated(s, event.id, event.unknownToStripe);
    } else if AboutIntent(event) != "" {
      NoIntentIsNotLocated(s, AboutIntent(event), event.reply);
    }
  }

  predicate AsksStripeInVain(payments: seq<Payment>, event: StripeEvent) {
    match event
    case CheckoutCompleted(paid, ours, id, _, unknown) => paid && ours && !unknown && NoSession(payments, id)
    case AsyncSucceeded(ours, id, _, unknown) => ours && !unknown && NoSession(payments, id)
    case AsyncFailed(ours, id, unknown) => ours && !unknown && NoSession(payments, id)
    case PaymentFailure(transfer, intent, hasSource, charge, reply) =>
      if intent == "" && transfer && hasSource && charge.ChargeError? then true
      else AboutIntent(event) != "" && reply == IntentError && OnlyRowWith(payments, AboutIntent(event), |payments|)
    case ChargeRefunded(intent, _, _, reply) => intent != "" && reply == IntentError && OnlyRowWith(payments, intent, |payments|)
    case Dispute(_, _, hasCharge, charge, reply) =>
      if hasCharge && charge.ChargeError? then true
      else AboutIntent(event) != "" && reply == IntentError && OnlyRowWith(payments, AboutIntent(event), |payments|)
    case Unrelated => false
  }

  /** A session without a row that Stripe knows, or a failing look-up at Stripe, is left for a retry:
      nothing changes and the event is not marked. */
  lemma UnresolvedEventsAreRetried(w: World, m: Moment)
    requires Heard(w, m) && AsksStripeInVain(w.state.payments, m.step.event)
    ensures Next(w, m) == w.(state := Ticked(w.state, m.elapsed))
  {
    hide FindIntent, FindSession, NoSession;
    var s, event := Ticked(w.state, m.elapsed), m.step.event;
    if event.CheckoutCompleted? || event.AsyncSucceeded? || event.AsyncFailed? {
      NoSessionIsNotLocated(s, event.id, event.unknownToStripe);
    } else if AboutIntent(event) != "" {
      assert FindIntent(s.payments, AboutIntent(event)).None?;
    }
  }

  /** A delivery that was handled before or is cut short changes nothing. */
  lemma UnheardChangesNothing(w: World, m: Moment)
    requires m.step.Deliver? && !Heard(w, m)
    ensures Next(w, m) == w.(state := Ticked(w.state, m.elapsed))
  {
  }

  /** So does a sync or poll that has no awaited row to settle or no paid session for it. */
  lemma IdleRefreshChangesNothing(w: World, m: Moment)
    requires WellFormed(w.state) && (m.step.Sync? || m.step.Poll?)
    requires forall i | 0 <= i < |w.state.payments| :: !AttemptsOn(w, m, i)
    ensures Next(w, m) == w.(state := Ticked(w.state, m.elapsed))
  {
    hide ApplyPaidSession, FindPk, LatestIncomplete;
    var s := Ticked(w.state, m.elapsed);
    var at := if m.step.Sync? then FindPk(s.payments, m.step.pk) else LatestIncomplete(s.payments);
    LatestIsNewest(s);
    if at.Some? {
      assert !AttemptsOn(w, m, at.value);
    }
  }

  // ----- A captured payment can be paid back -----

  /** An attempt on an awaited payment of a live open package that can be locked. */
  predicate Settles(w: World, m: Moment, i: nat) {
    && AttemptsOn(w, m, i) && PaysFor(PaidSession(m).value, w.state.payments[i])
    && Live(w.state.package) && w.state.package.status == Open && !w.state.payments[i].completed && m.oracle.rowFree
  }

  predicate FailsAccepted(w: World, m: Moment, intent: string) {
    && Heard(w, m) && m.step.event.PaymentFailure? && AboutIntent(m.step.event) == intent
    && m.oracle.refundAccepted && m.oracle.rowFree
  }

  /** No other row than number i has the intent. */
  predicate OnlyRowWith(payments: seq<Payment>, intent: string, i: nat) {
    forall j | 0 <= j < |payments| && j != i :: payments[j].intent != intent
  }

  /** A settlement that names an intent, then an accepted charge or transfer failure for that intent:
      exactly one refund is recorded, for the settled row and that intent, and the package is open again. */
  lemma SettledThenFailedIsRefunded(w: World, settle: Moment, fail: Moment, i: nat, intent: string)
    requires WellFormed(w.state) && Settles(w, settle, i) && PaidSession(settle).value.intent == intent != ""
    requires OnlyRowWith(w.state.payments, intent, i) && FailsAccepted(Next(w, settle), fail, intent)
    ensures var after := Next(Next(w, settle), fail).state;
            && after.refunds == w.state.refunds + [Refund(w.state.payments[i].pk, FailureTrigger(fail.step.event), intent)]
            && after.package.status == Open && i < |after.payments| && !after.payments[i].completed
  {
    AttemptSettles(w, settle, i);
    hide Next, WellFormed, AttemptsOn, PaysFor;
    var paid := Next(w, settle);
    assert paid.state.payments[i].intent == intent;
    assert IsAbout(paid, fail, i);
    FailureRefunds(paid, fail, i);
  }

  // ----- Checkout, activation, deletion -----

  predicate NoneIncomplete(s: State) {
    forall i | 0 <= i < |s.payments| :: s.payments[i].completed
  }

  predicate Awaits(s: State, attempt: Attempt) {
    attempt.eligible && s.package.status == Open
  }

  /** The newest incomplete row is a placeholder of less than fifteen minutes. */
  predicate AnotherIsPreparing(s: State) {
    exists i | 0 <= i < |s.payments| ::
      NewestIncomplete(s, i) && s.payments[i].session.Placeholder? && s.clock - s.payments[i].createdAt < 900
  }

  /** The newest incomplete row has a real session that Stripe reports as open. */
  predicate CanResume(s: State, attempt: Attempt) {
    attempt.sessionOpen && exists i | 0 <= i < |s.payments| :: NewestIncomplete(s, i) && s.payments[i].session.Stripe?
  }

  predicate Proceeds(s: State, attempt: Attempt) {
    Awaits(s, attempt) && !AnotherIsPreparing(s) && !CanResume(s, attempt)
  }

  lemma LatestIsNewest(s: State)
    ensures var latest := LatestIncomplete(s.payments);
            if latest.Some? then NewestIncomplete(s, latest.value) else NoneIncomplete(s)
    ensures forall i, j | NewestIncomplete(s, i) && NewestIncomplete(s, j) :: i == j
  {
  }

  /** Who is turned away, and why: each answer is given exactly in its case, and changes nothing. */
  lemma ClaimTurnsAway(s: State, attempt: Attempt)
    ensures var (after, outcome) := ClaimCheckout(s, attempt);
            && (outcome == NotPayable <==> !attempt.eligible)
            && (outcome == Unavailable <==> attempt.eligible && s.package.status != Open)
            && (outcome == Preparing <==> Awaits(s, attempt) && AnotherIsPreparing(s))
            && (outcome == Resumed <==> Awaits(s, attempt) && CanResume(s, attempt))
            && (!Proceeds(s, attempt) ==> after == s)
  {
    hide ItemsOf, FindSession, LatestIncomplete;
    LatestIsNewest(s);
    var latest := LatestIncomplete(s.payments);
    if latest.Some? {
      assert NewestIncomplete(s, latest.value);
    }
  }

  /** The rows without the stale placeholder that the attempt reclaims, if there is one. */
  predicate Reclaims(s: State, rows: seq<Payment>) {
    if exists i | 0 <= i < |s.payments| :: NewestIncomplete(s, i) && s.payments[i].session.Placeholder?
    then exists i | 0 <= i < |s.payments| :: NewestIncomplete(s, i) && s.payments[i].session.Placeholder? && rows == s.payments[..i] + s.payments[i + 1..]
    else rows == s.payments
  }

  lemma ReclaimedRows(s: State)
    ensures Reclaims(s, Reclaimed(s, LatestIncomplete(s.payments)).payments)
    ensures Reclaimed(s, LatestIncomplete(s.payments)) == s.(payments := Reclaimed(s, LatestIncomplete(s.payments)).payments)
    ensures forall rows | Reclaims(s, rows) :: rows == Reclaimed(s, LatestIncomplete(s.payments)).payments
  {
    hide LatestIncomplete;
    LatestIsNewest(s);
  }

  /** Everyone else: without rates nothing happens; without payable items a stale claim is gone; a
      colliding id rolls back; otherwise the new row is the newest, awaited from this payer, in this
      currency and at the total of the items, and all other rows stay. */
  lemma ClaimProceeds(s: State, attempt: Attempt, rows: seq<Payment>)
    requires Proceeds(s, attempt) && Reclaims(s, rows)
    ensures var (after, outcome) := ClaimCheckout(s, attempt);
            var items := Checkout.Items(attempt.expenses, s.package.title, attempt.currency, attempt.rates);
            && (items.Failure? ==> outcome == RatesDown && after == s)
            && (items.Success? && items.value.lineItems == [] ==> outcome == NoPayableItems && after == s.(payments := rows))
            && (items.Success? && items.value.lineItems != [] ==>
                  if exists row :: row in rows && row.session == Placeholder(attempt.uuid) then outcome == Collision && after == s
                  else
                    && outcome == Claimed(s.nextPk)
                    && after == s.(nextPk := s.nextPk + 1, payments := rows +
                         [Payment(s.nextPk, attempt.payer, Placeholder(attempt.uuid), "", items.value.totalAmount,
                                  Some(items.value.totalCents), attempt.currency, false, s.clock)]))
  {
    hide FindSession, LatestIncomplete, Reclaimed, Reclaims, Checkout.Items;
    ClaimCommits(s, attempt);
    ReclaimedRows(s);
    var at := FindSession(rows, Placeholder(attempt.uuid));
    if at.Some? {
      assert rows[at.value] in rows;
    }
  }

  lemma ClaimCommits(s: State, attempt: Attempt)
    requires Proceeds(s, attempt)
    ensures ClaimCheckout(s, attempt) == CommitClaim(s, attempt, LatestIncomplete(s.payments))
  {
    hide CommitClaim, LatestIncomplete;
    LatestIsNewest(s);
    var latest := LatestIncomplete(s.payments);
    if latest.Some? {
      assert NewestIncomplete(s, latest.value);
    }
  }

  /** Attaching succeeds iff the claim's row is still a placeholder and no row has the session yet; it
      writes the session of that row and nothing else. */
  lemma AttachExactly(s: State, pk: nat, session: string)
    requires WellFormed(s)
    ensures var (after, attached) := Attach(s, pk, session);
            && (attached <==> NoSession(s.payments, session) && exists i | 0 <= i < |s.payments| :: s.payments[i].pk == pk && s.payments[i].session.Placeholder?)
            && (!attached ==> after == s)
            && (attached ==> forall i | 0 <= i < |s.payments| && s.payments[i].pk == pk ::
                  after == s.(payments := s.payments[i := s.payments[i].(session := Stripe(session))]))
  {
    hide FindPk, FindSession;
    var taken := FindSession(s.payments, Stripe(session));
    if taken.None? {
      forall i | 0 <= i < |s.payments|
        ensures s.payments[i].session != Stripe(session)
      {
        assert s.payments[i] in s.payments;
      }
    }
    PendingByRows(s, pk);
  }

  lemma PendingByRows(s: State, pk: nat)
    requires WellFormed(s)
    ensures PendingClaim(s, pk).Some? ==> var i := PendingClaim(s, pk).value; s.payments[i].pk == pk && s.payments[i].session.Placeholder?
    ensures PendingClaim(s, pk).None? ==> forall i | 0 <= i < |s.payments| && s.payments[i].pk == pk :: s.payments[i].session.Stripe?
  {
    forall i | 0 <= i < |s.payments|
      ensures s.payments[i] in s.payments
    {
    }
  }

  /** Aborting removes the claim's row if it is still a placeholder, and nothing else. */
  lemma AbortExactly(s: State, pk: nat)
    requires WellFormed(s)
    ensures forall i | 0 <= i < |s.payments| && s.payments[i].pk == pk && s.payments[i].session.Placeholder? ::
              Abort(s, pk) == s.(payments := s.payments[..i] + s.payments[i + 1..])
    ensures (forall i | 0 <= i < |s.payments| && s.payments[i].pk == pk :: s.payments[i].session.Stripe?) ==> Abort(s, pk) == s
  {
    hide FindPk;
    PendingByRows(s, pk);
  }

  /** The remaining steps: a queued package opens if it can be locked, and a live one is deleted by its
      creator, or by its recipient once paid. */
  lemma OpeningAndDeletion(w: World, m: Moment)
    requires Shares.AllOwnedBy(w.state.package.records, w.state.package.creator)
    ensures m.step.OpenQueued? ==>
              Next(w, m).state == Ticked(w.state, m.elapsed).(package := w.state.package.(
                status := if w.state.package.status == Queued && m.oracle.rowFree then Open else w.state.package.status))
    ensures m.step.Delete? ==>
              var s, after := w.state, Next(w, m).state;
              && after.payments == s.payments && after.refunds == s.refunds && after.reimbursed == s.reimbursed
              && (if s.package.deletedAt.None? && (m.step.user == s.package.creator
                                                   || (s.package.status == Paid && s.package.recipient == Some(m.step.user)))
                  then after.package == s.package.(deletedAt := Some(s.clock + m.elapsed)) else after == Ticked(s, m.elapsed))
  {
    hide Perform, PlanEvent, PlanRefresh, ClaimCheckout, Attach, Abort;
    var s := Ticked(w.state, m.elapsed);
    if m.step.Delete? && s.package.recipient.Some? {
      Shares.RevokeAllSucceeds(s.shares, s.package.records, s.package.recipient.value, s.package.creator, s.clock);
    }
  }
}
