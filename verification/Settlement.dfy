/** The reimbursement settlement protocol of one package, one step per atomic block.

    A step's oracle carries what the database lock and Stripe answer: whether the package row could
    be locked (`skip_locked` returns nothing otherwise) and whether a refund call was accepted. */
module Settlement {
  import opened Basics
  import opened Currencies
  import Checkout
  import ExchangeRates
  import Shares

  type UserId = Shares.UserId

  datatype Status = Queued | Open | Paid

  /** A locally generated "pending:" placeholder, or the id of a session Stripe knows. */
  datatype SessionId = Placeholder(uuid: nat) | Stripe(id: string)

  datatype Payment = Payment(pk: nat, payer: Option<UserId>, session: SessionId, intent: string, amountPaid: real,
                             expectedCents: Option<int>, currency: string, completed: bool, createdAt: int)

  datatype Package = Package(creator: UserId, recipient: Option<UserId>, records: seq<Shares.RecordRef>, title: string,
                             expiresAt: Option<int>, status: Status, paidBy: Option<UserId>, paidAt: Option<int>,
                             deletedAt: Option<int>)

  /** The payer's expense record; each refund appends one "[REFUNDED]" mark to its notes. */
  datatype Receipt = Receipt(payer: UserId, currency: string, refundMarks: nat)

  datatype Trigger = DeletedBeforeSettlement | DuplicateSettlement | TransferFailed | ChargeFailed | FullRefund | DisputeLost

  /** An accepted refund call: the payment row it was made for and Stripe's (reason, intent) key. */
  datatype Refund = Refund(pk: nat, trigger: Trigger, intent: string)

  datatype Source = PackagePaid | AsyncPaymentSucceeded | PaymentSynced

  datatype Audit =
    | SettlementAudit(source: Source, pk: nat)
    | RefusedAfterDeleteAudit(pk: nat)
    | RefundFailedAudit(trigger: Trigger, pk: nat)
    | RevertedAudit(trigger: Trigger, pk: nat, payerRefunded: bool)
    | DisputeWonAudit(pk: nat)
    | PartialRefundAudit(pk: nat)
    | DisputeOpenAudit(pk: nat)

  datatype State = State(package: Package, payments: seq<Payment>, nextPk: nat, reimbursed: set<Shares.RecordId>,
                         receipts: seq<Receipt>, refunds: seq<Refund>, audit: seq<Audit>, notices: seq<Option<UserId>>,
                         shares: Shares.Table, clock: int)

  datatype Oracle = Oracle(rowFree: bool, refundAccepted: bool)

  /** What a Checkout Session reports; an absent field is the empty string or None. */
  datatype Session = Session(currency: string, amountTotal: Option<int>, intent: string)

  const CLAIM_STALENESS := 15 * 60

  // ----- Package and payment methods -----

  predicate Live(package: Package) {
    package.deletedAt.None?
  }

  predicate CanDelete(package: Package, user: UserId) {
    Live(package) && (user == package.creator || (package.status == Paid && package.recipient == Some(user)))
  }

  function ActiveRecords(package: Package): set<Shares.RecordId> {
    set r | r in package.records && r.active :: r.id
  }

  predicate AmountMatches(payment: Payment, session: Session) {
    var settledCurrency := Lower(if session.currency == "" then payment.currency else session.currency);
    && settledCurrency == Lower(payment.currency)
    && session.amountTotal.Some?
    && match payment.expectedCents
       case Some(expected) => session.amountTotal.value == expected
       case None => -1 <= session.amountTotal.value - ToStripeAmount(payment.amountPaid, payment.currency) <= 1
  }

  function CompletedFrom(payment: Payment, session: Session): Payment {
    payment.(completed := true, intent := if session.intent == "" then payment.intent else session.intent)
  }

  function Failed(payment: Payment): Payment {
    payment.(completed := false)
  }

  function WithPayment(s: State, i: nat, payment: Payment): State
    requires i < |s.payments|
  {
    s.(payments := s.payments[i := payment])
  }

  function Logged(s: State, entry: Audit): State {
    s.(audit := s.audit + [entry])
  }

  function RevokedShares(s: State): Shares.Table {
    Shares.RevokePackage(s.shares, s.package.records, s.package.recipient, s.package.creator, s.clock).0
  }

  function GrantedShares(s: State): Shares.Table {
    Shares.GrantPackage(s.shares, s.package.records, s.package.recipient, s.package.creator, s.package.expiresAt, s.clock).0
  }

  /** Only an open package whose row can be locked becomes paid. */
  function MarkAsPaid(s: State, payer: Option<UserId>, currency: string, rowFree: bool): State {
    if s.package.status != Open || !rowFree then s
    else
      s.(package := s.package.(status := Paid, paidBy := payer, paidAt := Some(s.clock)),
         reimbursed := s.reimbursed + ActiveRecords(s.package),
         receipts := if payer.Some? then s.receipts + [Receipt(payer.value, currency, 0)] else s.receipts,
         shares := RevokedShares(s))
  }

  function MarkReceipts(receipts: seq<Receipt>, payer: Option<UserId>): seq<Receipt> {
    seq(|receipts|, i requires 0 <= i < |receipts| =>
      if Some(receipts[i].payer) == payer then receipts[i].(refundMarks := receipts[i].refundMarks + 1) else receipts[i])
  }

  /** Only a paid package whose row can be locked reopens. */
  function MarkAsRefunded(s: State, rowFree: bool): State {
    if s.package.status != Paid || !rowFree then s
    else
      s.(package := s.package.(status := Open, paidBy := None, paidAt := None),
         reimbursed := s.reimbursed - ActiveRecords(s.package),
         receipts := MarkReceipts(s.receipts, s.package.paidBy),
         shares := GrantedShares(s))
  }

  function PayerCurrency(payment: Payment): string {
    if payment.currency == "" then "usd" else payment.currency
  }

  // ----- Settlement, refund, reversal, restoration -----

  /** Refunds are only ever asked for a completed payment with a payment intent. */
  predicate Refunds(payment: Payment, accepted: bool) {
    payment.completed && payment.intent != "" && accepted
  }

  function WithRefund(s: State, i: nat, trigger: Trigger, accepted: bool): State
    requires i < |s.payments|
  {
    if Refunds(s.payments[i], accepted)
    then s.(refunds := s.refunds + [Refund(s.payments[i].pk, trigger, s.payments[i].intent)])
    else s
  }

  /** The payer of a package deleted mid-checkout is refunded instead of settled. */
  function RefuseDeleted(s: State, i: nat, accepted: bool): State
    requires i < |s.payments|
  {
    Logged(WithPayment(WithRefund(s, i, DeletedBeforeSettlement, accepted), i, Failed(s.payments[i])),
           RefusedAfterDeleteAudit(s.payments[i].pk))
  }

  function RefuseDuplicate(s: State, i: nat, accepted: bool): State
    requires i < |s.payments|
  {
    WithPayment(WithRefund(s, i, DuplicateSettlement, accepted), i, Failed(s.payments[i]))
  }

  /** Completing a row pays the package; only the first completion is logged and notified. */
  function CompleteAndPay(s: State, i: nat, session: Session, source: Source, o: Oracle): State
    requires i < |s.payments|
  {
    var payment := s.payments[i];
    var settled := MarkAsPaid(WithPayment(s, i, CompletedFrom(payment, session)), payment.payer, PayerCurrency(payment), o.rowFree);
    if payment.completed then settled
    else Logged(settled, SettlementAudit(source, payment.pk)).(notices := settled.notices + [payment.payer])
  }

  function ApplyPaidSession(s: State, i: nat, session: Session, source: Source, o: Oracle): (State, bool)
    requires i < |s.payments|
  {
    if !AmountMatches(s.payments[i], session) then (s, false)
    else if !Live(s.package) then (RefuseDeleted(s, i, o.refundAccepted), false)
    else if s.package.status == Paid && !s.payments[i].completed then (RefuseDuplicate(s, i, o.refundAccepted), false)
    else (CompleteAndPay(s, i, session, source, o), true)
  }

  function ReopenPackage(s: State, i: nat, payerRefunded: bool, trigger: Trigger, o: Oracle): State
    requires i < |s.payments|
  {
    Logged(MarkAsRefunded(WithPayment(s, i, Failed(s.payments[i])), o.rowFree),
           RevertedAudit(trigger, s.payments[i].pk, payerRefunded))
  }

  function RevertPayment(s: State, i: nat, refund: bool, trigger: Trigger, o: Oracle): State
    requires i < |s.payments|
  {
    var payment := s.payments[i];
    var refunded := refund && Refunds(payment, o.refundAccepted);
    if refund && payment.completed && !refunded then Logged(s, RefundFailedAudit(trigger, payment.pk))
    else ReopenPackage(if refund then WithRefund(s, i, trigger, o.refundAccepted) else s, i, refunded, trigger, o)
  }

  function RestorePayment(s: State, i: nat, o: Oracle): State
    requires i < |s.payments|
  {
    var payment := s.payments[i];
    var restored := MarkAsPaid(WithPayment(s, i, payment.(completed := true)), payment.payer, PayerCurrency(payment), o.rowFree);
    if payment.completed && s.package.status == Paid then restored else Logged(restored, DisputeWonAudit(payment.pk))
  }

  /** What a handler does once it has found its payment row. */
  datatype Action =
    | Nothing
    | Settle(at: nat, session: Session, source: Source)
    | FailAsync(at: nat)
    | Revert(at: nat, refund: bool, trigger: Trigger)
    | Restore(at: nat)
    | Note(entry: Audit)

  predicate InRange(s: State, action: Action) {
    (action.Settle? || action.FailAsync? || action.Revert? || action.Restore?) ==> action.at < |s.payments|
  }

  function Perform(s: State, action: Action, o: Oracle): State
    requires InRange(s, action)
  {
    match action
    case Nothing => s
    case Settle(i, session, source) => ApplyPaidSession(s, i, session, source, o).0
    case FailAsync(i) => WithPayment(s, i, Failed(s.payments[i]))
    case Revert(i, refund, trigger) => RevertPayment(s, i, refund, trigger, o)
    case Restore(i) => RestorePayment(s, i, o)
    case Note(entry) => Logged(s, entry)
  }

  // ----- Finding the payment row of an event -----

  function FindSession(payments: seq<Payment>, session: SessionId): (at: Option<nat>)
    ensures at.Some? ==> at.value < |payments| && payments[at.value].session == session
    ensures at.None? ==> forall p | p in payments :: p.session != session
  {
    if payments == [] then None
    else if payments[|payments| - 1].session == session then Some(|payments| - 1)
    else FindSession(payments[..|payments| - 1], session)
  }

  function FindPk(payments: seq<Payment>, pk: nat): (at: Option<nat>)
    ensures at.Some? ==> at.value < |payments| && payments[at.value].pk == pk
    ensures at.None? ==> forall p | p in payments :: p.pk != pk
  {
    if payments == [] then None
    else if payments[|payments| - 1].pk == pk then Some(|payments| - 1)
    else FindPk(payments[..|payments| - 1], pk)
  }

  /** The oldest row carrying a payment intent. */
  function FindIntent(payments: seq<Payment>, intent: string): (at: Option<nat>)
    ensures at.Some? ==> at.value < |payments| && payments[at.value].intent == intent
                         && forall p | p in payments[..at.value] :: p.intent != intent
    ensures at.None? ==> forall p | p in payments :: p.intent != intent
  {
    if payments == [] then None
    else
      var earlier := FindIntent(payments[..|payments| - 1], intent);
      if earlier.Some? then
        assert payments[..|payments| - 1][..earlier.value] == payments[..earlier.value];
        earlier
      else if payments[|payments| - 1].intent == intent then Some(|payments| - 1)
      else None
  }

  /** The newest row for which a predicate of the row holds. */
  function Newest(payments: seq<Payment>, wanted: Payment -> bool): (at: Option<nat>)
    ensures at.Some? ==> at.value < |payments| && wanted(payments[at.value])
                         && forall j | at.value < j < |payments| :: !wanted(payments[j])
    ensures at.None? ==> forall j | 0 <= j < |payments| :: !wanted(payments[j])
  {
    if payments == [] then None
    else if wanted(payments[|payments| - 1]) then Some(|payments| - 1)
    else Newest(payments[..|payments| - 1], wanted)
  }

  function LatestIncomplete(payments: seq<Payment>): (at: Option<nat>)
    ensures at.Some? ==> at.value < |payments| && !payments[at.value].completed
  {
    Newest(payments, (p: Payment) => !p.completed)
  }

  function LatestUnlinked(payments: seq<Payment>): (at: Option<nat>)
    ensures at.Some? ==> at.value < |payments| && payments[at.value].intent == ""
  {
    Newest(payments, (p: Payment) => p.intent == "")
  }

  /** Stripe's answer for a payment intent no row carries. */
  datatype IntentReply = IntentUnknown | IntentError | IntentMetadata(ours: bool)

  datatype ChargeReply = ChargeUnknown | ChargeError | ChargeOf(intent: string)

  /** A located row (after linking it to the intent, if need be), or an exception to be retried. */
  datatype Located = Located(state: State, at: Option<nat>) | Raised

  function LocateSession(s: State, id: string, unknownToStripe: bool): (found: Located)
    ensures found.Located? && found.at.Some? ==> found.at.value < |found.state.payments|
  {
    var at := FindSession(s.payments, Stripe(id));
    if at.Some? || unknownToStripe then Located(s, at) else Raised
  }

  function LocateIntent(s: State, intent: string, reply: IntentReply): (found: Located)
    ensures found.Located? && found.at.Some? ==> found.at.value < |found.state.payments|
  {
    var at := FindIntent(s.payments, intent);
    if at.Some? then Located(s, at)
    else
      match reply
      case IntentUnknown => Located(s, None)
      case IntentError => Raised
      case IntentMetadata(ours) =>
        var newest := LatestUnlinked(s.payments);
        if !ours || newest.None? then Located(s, None)
        else Located(WithPayment(s, newest.value, s.payments[newest.value].(intent := intent)), newest)
  }

  function LocateCharge(s: State, charge: ChargeReply, reply: IntentReply): (found: Located)
    ensures found.Located? && found.at.Some? ==> found.at.value < |found.state.payments|
  {
    match charge
    case ChargeUnknown => Located(s, None)
    case ChargeError => Raised
    case ChargeOf(intent) => if intent == "" then Located(s, None) else LocateIntent(s, intent, reply)
  }

  // ----- Stripe events -----

  datatype DisputeStatus = Won | Lost | Undecided

  datatype StripeEvent =
    | CheckoutCompleted(paid: bool, ours: bool, id: string, session: Session, unknownToStripe: bool)
    | AsyncSucceeded(ours: bool, id: string, session: Session, unknownToStripe: bool)
    | AsyncFailed(ours: bool, id: string, unknownToStripe: bool)
    | PaymentFailure(transfer: bool, intent: string, hasSource: bool, charge: ChargeReply, reply: IntentReply)
    | ChargeRefunded(intent: string, refundedCents: int, capturedCents: int, reply: IntentReply)
    | Dispute(closed: bool, verdict: DisputeStatus, hasCharge: bool, charge: ChargeReply, reply: IntentReply)
    | Unrelated

  datatype Plan = Act(state: State, action: Action) | Retry

  function Locate(s: State, event: StripeEvent): (found: Located)
    ensures found.Located? && found.at.Some? ==> found.at.value < |found.state.payments|
  {
    match event
    case CheckoutCompleted(paid, ours, id, _, unknown) => if paid && ours then LocateSession(s, id, unknown) else Located(s, None)
    case AsyncSucceeded(ours, id, _, unknown) => if ours then LocateSession(s, id, unknown) else Located(s, None)
    case AsyncFailed(ours, id, unknown) => if ours then LocateSession(s, id, unknown) else Located(s, None)
    case PaymentFailure(transfer, intent, hasSource, charge, reply) =>
      if intent != "" then LocateIntent(s, intent, reply)
      else if transfer && hasSource then LocateCharge(s, charge, reply)
      else Located(s, None)
    case ChargeRefunded(intent, _, _, reply) => if intent != "" then LocateIntent(s, intent, reply) else Located(s, None)
    case Dispute(_, _, hasCharge, charge, reply) => if hasCharge then LocateCharge(s, charge, reply) else Located(s, None)
    case Unrelated => Located(s, None)
  }

  /** The reaction to an event whose payment row is number `at`. */
  function Reaction(event: StripeEvent, at: nat, pk: nat): Action {
    match event
    case CheckoutCompleted(_, _, _, session, _) => Settle(at, session, PackagePaid)
    case AsyncSucceeded(_, _, session, _) => Settle(at, session, AsyncPaymentSucceeded)
    case AsyncFailed(_, _, _) => FailAsync(at)
    case PaymentFailure(transfer, _, _, _, _) => Revert(at, true, if transfer then TransferFailed else ChargeFailed)
    case ChargeRefunded(_, refundedCents, capturedCents, _) =>
      if refundedCents >= capturedCents then Revert(at, false, FullRefund) else Note(PartialRefundAudit(pk))
    case Dispute(closed, verdict, _, _, _) =>
      if verdict == Won then Restore(at)
      else if closed && verdict == Lost then Revert(at, false, DisputeLost)
      else Note(DisputeOpenAudit(pk))
    case Unrelated => Nothing
  }

  function PlanEvent(s: State, event: StripeEvent): (plan: Plan)
    ensures plan.Act? ==> InRange(plan.state, plan.action)
  {
    match Locate(s, event)
    case Raised => Retry
    case Located(linked, None) => Act(linked, Nothing)
    case Located(linked, Some(at)) => Act(linked, Reaction(event, at, linked.payments[at].pk))
  }

  // ----- Page-triggered sync and the periodic poll -----

  datatype SessionReply = SessionError | SessionReport(paid: bool, session: Session)

  /** Stripe is asked about a row; it does not know placeholder ids. */
  function PlanRefresh(s: State, at: Option<nat>, reply: SessionReply): (action: Action)
    requires at.Some? ==> at.value < |s.payments|
    ensures InRange(s, action)
  {
    if s.package.status != Open || at.None? then Nothing
    else if s.payments[at.value].session.Placeholder? || reply.SessionError? || !reply.paid then Nothing
    else Settle(at.value, reply.session, PaymentSynced)
  }

  // ----- Checkout -----

  /** One call of create_package_checkout up to the commit of its claim. `eligible` is the verdict of
      the unlocked checks made beforehand, `sessionOpen` Stripe's word on the newest real session. */
  datatype Attempt = Attempt(eligible: bool, payer: Option<UserId>, currency: string, uuid: nat,
                             expenses: seq<Checkout.Expense>, rates: ExchangeRates.Rates, sessionOpen: bool)

  datatype ClaimOutcome = NotPayable | Unavailable | Preparing | Resumed | RatesDown | NoPayableItems | Collision | Claimed(pk: nat)

  function Without(payments: seq<Payment>, i: nat): seq<Payment>
    requires i < |payments|
  {
    payments[..i] + payments[i + 1..]
  }

  function NewClaim(s: State, attempt: Attempt, items: Checkout.CheckoutItems): Payment {
    Payment(s.nextPk, attempt.payer, Placeholder(attempt.uuid), "", items.totalAmount, Some(items.totalCents),
            attempt.currency, false, s.clock)
  }

  function ItemsOf(s: State, attempt: Attempt): Result<Checkout.CheckoutItems, ExchangeRates.RateError> {
    Checkout.Items(attempt.expenses, s.package.title, attempt.currency, attempt.rates)
  }

  predicate FreshClaim(s: State, payment: Payment) {
    payment.session.Placeholder? && s.clock - payment.createdAt < CLAIM_STALENESS
  }

  /** A stale placeholder among the incomplete rows is deleted before the new claim is made. */
  function Reclaimed(s: State, latest: Option<nat>): State
    requires latest.Some? ==> latest.value < |s.payments|
  {
    if latest.Some? && s.payments[latest.value].session.Placeholder?
    then s.(payments := Without(s.payments, latest.value)) else s
  }

  function WithClaim(s: State, attempt: Attempt, items: Checkout.CheckoutItems): State {
    s.(payments := s.payments + [NewClaim(s, attempt, items)], nextPk := s.nextPk + 1)
  }

  /** An exception (no rates, a colliding id) rolls the deletion back; an empty checkout commits it. */
  function CommitClaim(s: State, attempt: Attempt, latest: Option<nat>): (State, ClaimOutcome)
    requires latest.Some? ==> latest.value < |s.payments|
  {
    var reclaimed := Reclaimed(s, latest);
    match ItemsOf(s, attempt)
    case Failure(_) => (s, RatesDown)
    case Success(items) =>
      if items.lineItems == [] then (reclaimed, NoPayableItems)
      else if FindSession(reclaimed.payments, Placeholder(attempt.uuid)).Some? then (s, Collision)
      else (WithClaim(reclaimed, attempt, items), Claimed(s.nextPk))
  }

  function ClaimCheckout(s: State, attempt: Attempt): (State, ClaimOutcome) {
    if !attempt.eligible then (s, NotPayable)
    else if s.package.status != Open then (s, Unavailable)
    else
      var latest := LatestIncomplete(s.payments);
      if latest.Some? && FreshClaim(s, s.payments[latest.value]) then (s, Preparing)
      else if latest.Some? && s.payments[latest.value].session.Stripe? && attempt.sessionOpen then (s, Resumed)
      else CommitClaim(s, attempt, latest)
  }

  /** The claim of `pk` while it still awaits its Stripe session. Each claim ends in one attach or abort. */
  function PendingClaim(s: State, pk: nat): (at: Option<nat>)
    ensures at.Some? ==> at.value < |s.payments|
  {
    var at := FindPk(s.payments, pk);
    if at.Some? && s.payments[at.value].session.Placeholder? then at else None
  }

  /** Pointing the claim at its session; saving a vanished row or a session id in use raises. */
  function Attach(s: State, pk: nat, session: string): (State, bool) {
    var at := PendingClaim(s, pk);
    if at.None? || FindSession(s.payments, Stripe(session)).Some? then (s, false)
    else (WithPayment(s, at.value, s.payments[at.value].(session := Stripe(session))), true)
  }

  function Abort(s: State, pk: nat): State {
    var at := PendingClaim(s, pk);
    if at.None? then s else s.(payments := Without(s.payments, at.value))
  }

  function Activate(s: State, rowFree: bool): State {
    if s.package.status == Queued && rowFree then s.(package := s.package.(status := Open)) else s
  }

  /** Access is revoked first; if that raises, the package stays undeleted. */
  function DeletePackage(s: State, user: UserId): (State, bool) {
    if !CanDelete(s.package, user) then (s, false)
    else
      var (shares, ok) := Shares.RevokePackage(s.shares, s.package.records, s.package.recipient, s.package.creator, s.clock);
      if ok then (s.(shares := shares, package := s.package.(deletedAt := Some(s.clock))), true)
      else (s.(shares := shares), false)
  }

  // ----- Steps and runs -----

  datatype Step =
    | Deliver(id: string, event: StripeEvent, crashed: bool)
    | Sync(pk: nat, reply: SessionReply)
    | Poll(reply: SessionReply)
    | Claim(attempt: Attempt)
    | AttachSession(claim: nat, session: string)
    | AbortClaim(claim: nat)
    | OpenQueued
    | Delete(user: UserId)

  /** A step, the answers it gets and the time elapsed since the step before. */
  datatype Moment = Moment(step: Step, oracle: Oracle, elapsed: nat)

  datatype World = World(state: State, processed: set<string>)

  function Ticked(s: State, elapsed: nat): State {
    s.(clock := s.clock + elapsed)
  }

  /** The settlement part of a step: Stripe events, sync and poll. */
  function PlanStep(w: World, m: Moment): (plan: Plan)
    ensures plan.Act? ==> InRange(plan.state, plan.action)
  {
    var s := Ticked(w.state, m.elapsed);
    match m.step
    case Deliver(id, event, crashed) =>
      if (id != "" && id in w.processed) || crashed then Act(s, Nothing) else PlanEvent(s, event)
    case Sync(pk, reply) => Act(s, PlanRefresh(s, FindPk(s.payments, pk), reply))
    case Poll(reply) => Act(s, PlanRefresh(s, LatestIncomplete(s.payments), reply))
    case _ => Act(s, Nothing)
  }

  function Handle(s: State, event: StripeEvent, o: Oracle): Option<State> {
    match PlanEvent(s, event)
    case Retry => None
    case Act(linked, action) => Some(Perform(linked, action, o))
  }

  function Next(w: World, m: Moment): World {
    var s := Ticked(w.state, m.elapsed);
    match m.step
    case Deliver(id, event, crashed) =>
      if (id != "" && id in w.processed) || crashed then w.(state := s)
      else
        (match Handle(s, event, m.oracle)
         case None => w.(state := s)
         case Some(done) => World(done, if id == "" then w.processed else w.processed + {id}))
    case Sync(pk, reply) => w.(state := Perform(s, PlanRefresh(s, FindPk(s.payments, pk), reply), m.oracle))
    case Poll(reply) => w.(state := Perform(s, PlanRefresh(s, LatestIncomplete(s.payments), reply), m.oracle))
    case Claim(attempt) => w.(state := ClaimCheckout(s, attempt).0)
    case AttachSession(pk, session) => w.(state := Attach(s, pk, session).0)
    case AbortClaim(pk) => w.(state := Abort(s, pk))
    case OpenQueued => w.(state := Activate(s, m.oracle.rowFree))
    case Delete(user) => w.(state := DeletePackage(s, user).0)
  }

  function Run(w: World, run: seq<Moment>): World
    decreases |run|
  {
    if run == [] then w else Next(Run(w, run[..|run| - 1]), run[|run| - 1])
  }

  /** The world after the first n steps of a run. */
  function After(w: World, run: seq<Moment>, n: nat): World
    requires n <= |run|
  {
    Run(w, run[..n])
  }

  lemma AfterStep(w: World, run: seq<Moment>, n: nat)
    requires n < |run|
    ensures After(w, run, n + 1) == Next(After(w, run, n), run[n])
  {
    assert run[..n + 1][..n] == run[..n];
  }

  lemma AfterNothing(w: World, run: seq<Moment>)
    ensures After(w, run, 0) == w
  {
    assert run[..0] == [];
  }

  lemma AfterPrefix(w: World, run: seq<Moment>, k: nat, n: nat)
    requires n <= k <= |run|
    ensures After(w, run[..k], n) == After(w, run, n)
  {
    assert run[..k][..n] == run[..n];
  }

  lemma {:induction false} RunConcat(w: World, first: seq<Moment>, rest: seq<Moment>)
    ensures Run(w, first + rest) == Run(Run(w, first), rest)
    decreases |rest|
  {
    if rest == [] {
      assert first + rest == first;
    } else {
      assert (first + rest)[..|first + rest| - 1] == first + rest[..|rest| - 1];
      RunConcat(w, first, rest[..|rest| - 1]);
    }
  }
}
