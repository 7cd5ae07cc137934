/** Payment dates, reimbursed marks and the access of the recipient over whole runs. */
module SettlementAccess {
  import opened Basics
  import opened Settlement
  import opened SettlementSafety
  import opened SettlementRuns
  import Shares

  // ----- Bookkeeping and access -----

  predicate NoLiveAccess(s: State) {
    s.package.recipient.Some? ==>
      forall r | r in s.package.records ::
        !Shares.ActiveReimbursement(s.shares, Shares.Key(r.id, s.package.recipient.value), s.clock)
  }

  /** A package is paid exactly when it has a payment date and its active records are marked
      reimbursed, its recipient has no live reimbursement grant while it is paid, and every share
      revocation in the trail keeps its own earlier grant. */
  ghost predicate Bookkept(s: State) {
    && Shares.Audited(s.shares)
    && (s.package.status == Paid <==> s.package.paidAt.Some?)
    && (if s.package.status == Paid then ActiveRecords(s.package) <= s.reimbursed else ActiveRecords(s.package) !! s.reimbursed)
    && (s.package.status == Paid ==> NoLiveAccess(s))
  }

  lemma RevocationClearsAccess(s: State, shares: Shares.Table)
    requires Shares.AllOwnedBy(s.package.records, s.package.creator)
    ensures NoLiveAccess(s.(shares := RevokedShares(s.(shares := shares))))
    ensures Shares.RevokePackage(shares, s.package.records, s.package.recipient, s.package.creator, s.clock).1
  {
    if s.package.recipient.Some? {
      Shares.RevokeAllSucceeds(shares, s.package.records, s.package.recipient.value, s.package.creator, s.clock);
      Shares.RevokeAllClears(shares, s.package.records, s.package.recipient.value, s.package.creator, s.clock, s.clock);
    }
  }

  lemma RevocationKeepsAudited(s: State)
    requires Shares.Audited(s.shares)
    ensures Shares.Audited(RevokedShares(s))
  {
    if s.package.recipient.Some? {
      Shares.RevokeAllKeepsAudited(s.shares, s.package.records, s.package.recipient.value, s.package.creator, s.clock);
    }
  }

  lemma MarkAsPaidKeepsBooks(s: State, payer: Option<UserId>, currency: string, rowFree: bool)
    requires Bookkept(s) && Shares.AllOwnedBy(s.package.records, s.package.creator)
    ensures Bookkept(MarkAsPaid(s, payer, currency, rowFree))
  {
    hide Shares.Audited;
    RevocationClearsAccess(s, s.shares);
    RevocationKeepsAudited(s);
  }

  lemma MarkAsRefundedKeepsBooks(s: State, rowFree: bool)
    requires Bookkept(s)
    ensures Bookkept(MarkAsRefunded(s, rowFree))
  {
    hide Shares.Audited;
    if s.package.recipient.Some? {
      Shares.GrantAllKeepsAudited(s.shares, s.package.records, s.package.recipient.value, s.package.creator, s.package.expiresAt, s.clock);
    }
  }

  lemma SettleKeepsBooks(s: State, i: nat, session: Session, source: Source, o: Oracle)
    requires i < |s.payments| && Bookkept(s) && Shares.AllOwnedBy(s.package.records, s.package.creator)
    ensures Bookkept(ApplyPaidSession(s, i, session, source, o).0)
  {
    hide AmountMatches, MarkAsPaid, PayerCurrency, Shares.Audited;
    var payment := s.payments[i];
    var completed := WithPayment(s, i, CompletedFrom(payment, session));
    assert Bookkept(completed);
    MarkAsPaidKeepsBooks(completed, payment.payer, PayerCurrency(payment), o.rowFree);
  }

  lemma RevertKeepsBooks(s: State, i: nat, refund: bool, trigger: Trigger, o: Oracle)
    requires i < |s.payments| && Bookkept(s)
    ensures Bookkept(RevertPayment(s, i, refund, trigger, o))
  {
    hide MarkAsRefunded, MarkReceipts, Shares.Audited;
    var paidBack := if refund then WithRefund(s, i, trigger, o.refundAccepted) else s;
    var failed := WithPayment(paidBack, i, Failed(s.payments[i]));
    assert Bookkept(failed);
    MarkAsRefundedKeepsBooks(failed, o.rowFree);
  }

  lemma RestoreKeepsBooks(s: State, i: nat, o: Oracle)
    requires i < |s.payments| && Bookkept(s) && Shares.AllOwnedBy(s.package.records, s.package.creator)
    ensures Bookkept(RestorePayment(s, i, o))
  {
    hide MarkAsPaid, PayerCurrency, Shares.Audited;
    var payment := s.payments[i];
    var completed := WithPayment(s, i, payment.(completed := true));
    assert Bookkept(completed);
    MarkAsPaidKeepsBooks(completed, payment.payer, PayerCurrency(payment), o.rowFree);
  }

  lemma PerformKeepsBooks(s: State, action: Action, o: Oracle)
    requires InRange(s, action) && Bookkept(s) && Shares.AllOwnedBy(s.package.records, s.package.creator)
    ensures Bookkept(Perform(s, action, o))
  {
    hide ApplyPaidSession, RevertPayment, RestorePayment, Shares.Audited;
    match action
    case Settle(i, session, source) => SettleKeepsBooks(s, i, session, source, o);
    case Revert(i, refund, trigger) => RevertKeepsBooks(s, i, refund, trigger, o);
    case Restore(i) => RestoreKeepsBooks(s, i, o);
    case FailAsync(_) =>
    case Nothing =>
    case Note(_) =>
  }

  lemma TickKeepsBooks(s: State, elapsed: nat)
    requires Bookkept(s)
    ensures Bookkept(Ticked(s, elapsed))
  {
  }

  lemma StepKeepsBooks(w: World, m: Moment)
    requires Bookkept(w.state) && Shares.AllOwnedBy(w.state.package.records, w.state.package.creator)
    ensures Bookkept(Next(w, m).state)
    ensures Next(w, m).state.package.records == w.state.package.records && Next(w, m).state.package.creator == w.state.package.creator
  {
    hide Perform, Locate, Reaction, ItemsOf, AmountMatches, Shares.Audited;
    var s := Ticked(w.state, m.elapsed);
    TickKeepsBooks(w.state, m.elapsed);
    match m.step
    case Delete(user) =>
      RevocationClearsAccess(s, s.shares);
      RevocationKeepsAudited(s);
    case Claim(_) =>
    case AttachSession(_, _) =>
    case AbortClaim(_) =>
    case OpenQueued =>
    case _ =>
      var plan := PlanStep(w, m);
      if plan.Act? {
        PlanOnlyLinks(w, m);
        assert Bookkept(plan.state);
        PerformKeepsBooks(plan.state, plan.action, m.oracle);
        PerformKeepsRows(plan.state, plan.action, m.oracle);
      }
  }

  /** Over every run, with no guard at all, the books are kept. */
  lemma {:induction false} RunKeepsBooks(w: World, run: seq<Moment>)
    requires Bookkept(w.state) && Shares.AllOwnedBy(w.state.package.records, w.state.package.creator)
    ensures Bookkept(Run(w, run).state)
    ensures Run(w, run).state.package.records == w.state.package.records && Run(w, run).state.package.creator == w.state.package.creator
    decreases |run|
  {
    hide Next, Bookkept;
    if run != [] {
      RunKeepsBooks(w, run[..|run| - 1]);
      StepKeepsBooks(Run(w, run[..|run| - 1]), run[|run| - 1]);
    }
  }

  // ----- When a closed package gives access again -----

  /** Granting the package now would give the recipient access to some record. */
  predicate GrantOpensAccess(s: State) {
    && s.package.recipient.Some? && s.package.recipient.value != s.package.creator
    && (s.package.expiresAt.None? || s.package.expiresAt.value > s.clock)
    && exists r :: r in s.package.records && r.active && !HasLiveRow(s, r)
  }

  /** The recipient's row for a record is live, whatever it was granted for. */
  predicate HasLiveRow(s: State, r: Shares.RecordRef)
    requires s.package.recipient.Some?
  {
    var key := Shares.Key(r.id, s.package.recipient.value);
    key in s.shares.rows && Shares.IsActive(s.shares.rows[key], s.clock)
  }

  lemma GrantOpensExactly(s: State)
    requires NoLiveAccess(s) && Shares.AllOwnedBy(s.package.records, s.package.creator)
    ensures NoLiveAccess(s.(shares := GrantedShares(s))) <==> !GrantOpensAccess(s)
  {
    if s.package.recipient.Some? {
      var recipient := s.package.recipient.value;
      if recipient == s.package.creator {
        Shares.GrantAllToCreator(s.shares, s.package.records, recipient, s.package.expiresAt, s.clock);
      } else {
        Shares.GrantAllExactly(s.shares, s.package.records, recipient, s.package.creator, s.package.expiresAt, s.clock);
        hide Shares.GrantAll;
        forall r | r in s.package.records && r.active && !HasLiveRow(s, r)
          ensures Shares.InGrantScope(s.shares, Shares.Key(r.id, recipient), s.package.records, recipient, s.clock)
        {
        }
      }
    }
  }

  /** The reversal of a paid package whose row can be locked, when granting would open access. */
  predicate Regrants(s: State, action: Action, o: Oracle)
    requires InRange(s, action)
  {
    && action.Revert? && RevertProceeds(s.payments[action.at], action.refund, o)
    && s.package.status == Paid && o.rowFree && GrantOpensAccess(s)
  }

  lemma MarkAsPaidKeepsRevoked(s: State, payer: Option<UserId>, currency: string, rowFree: bool)
    requires NoLiveAccess(s) && Shares.AllOwnedBy(s.package.records, s.package.creator)
    ensures NoLiveAccess(MarkAsPaid(s, payer, currency, rowFree))
  {
    RevocationClearsAccess(s, s.shares);
    hide RevokedShares, ActiveRecords;
  }

  /** Without access before it, an action leaves the recipient without access if and only if it does
      not reopen a paid package whose grants open access, deleted or not. */
  lemma PerformKeepsRevokedExactly(s: State, action: Action, o: Oracle)
    requires InRange(s, action) && NoLiveAccess(s) && Shares.AllOwnedBy(s.package.records, s.package.creator)
    ensures NoLiveAccess(Perform(s, action, o)) <==> !Regrants(s, action, o)
  {
    hide AmountMatches, MarkAsPaid, PayerCurrency, MarkReceipts, ActiveRecords, RevokedShares, GrantedShares;
    match action
    case Settle(i, session, _) =>
      var payment := s.payments[i];
      MarkAsPaidKeepsRevoked(WithPayment(s, i, CompletedFrom(payment, session)), payment.payer, PayerCurrency(payment), o.rowFree);
    case Restore(i) =>
      var payment := s.payments[i];
      MarkAsPaidKeepsRevoked(WithPayment(s, i, payment.(completed := true)), payment.payer, PayerCurrency(payment), o.rowFree);
    case Revert(i, refund, trigger) => ReversalKeepsRevokedExactly(s, i, refund, trigger, o);
    case FailAsync(_) =>
    case Nothing =>
    case Note(_) =>
  }

  lemma ReversalKeepsRevokedExactly(s: State, i: nat, refund: bool, trigger: Trigger, o: Oracle)
    requires i < |s.payments| && NoLiveAccess(s) && Shares.AllOwnedBy(s.package.records, s.package.creator)
    ensures NoLiveAccess(RevertPayment(s, i, refund, trigger, o)) <==> !Regrants(s, Revert(i, refund, trigger), o)
  {
    hide MarkReceipts, ActiveRecords;
    var paidBack := if refund then WithRefund(s, i, trigger, o.refundAccepted) else s;
    var failed := WithPayment(paidBack, i, Failed(s.payments[i]));
    assert failed.package == s.package && failed.shares == s.shares && failed.clock == s.clock;
    GrantsIgnorePayments(s, failed);
    GrantOpensExactly(s);
    hide GrantedShares, GrantOpensAccess;
  }

  lemma GrantsIgnorePayments(s: State, t: State)
    requires t.package == s.package && t.shares == s.shares && t.clock == s.clock
    ensures GrantedShares(t) == GrantedShares(s) && GrantOpensAccess(t) == GrantOpensAccess(s) && NoLiveAccess(t) == NoLiveAccess(s)
  {
  }

  /** Such a reversal leaves the recipient with live access to every active record, on a deleted
      package too. */
  lemma ReopeningRegrantsAccess(s: State, i: nat, refund: bool, trigger: Trigger, o: Oracle, r: Shares.RecordRef)
    requires i < |s.payments| && Regrants(s, Revert(i, refund, trigger), o)
    requires Shares.AllOwnedBy(s.package.records, s.package.creator)
    requires r in s.package.records && r.active
    ensures var after := RevertPayment(s, i, refund, trigger, o);
            after.package.deletedAt == s.package.deletedAt && after.package.status == Open && HasLiveRow(after, r)
  {
    hide MarkReceipts, ActiveRecords;
    Shares.GrantAllExactly(s.shares, s.package.records, s.package.recipient.value, s.package.creator, s.package.expiresAt, s.clock);
  }

  predicate StepRegrants(w: World, m: Moment) {
    var plan := PlanStep(w, m);
    plan.Act? && Regrants(plan.state, plan.action, m.oracle)
  }

  /** The same for a whole step of any kind; time passing only lets grants run out. */
  lemma StepKeepsRevokedExactly(w: World, m: Moment)
    requires NoLiveAccess(w.state) && Shares.AllOwnedBy(w.state.package.records, w.state.package.creator)
    ensures NoLiveAccess(Next(w, m).state) <==> !StepRegrants(w, m)
  {
    hide Perform, PlanEvent, PlanRefresh, GrantOpensAccess, RevertProceeds, ClaimCheckout, Attach, RevokedShares;
    var s := Ticked(w.state, m.elapsed);
    assert NoLiveAccess(s);
    var plan := PlanStep(w, m);
    if plan.Act? {
      PlanOnlyLinks(w, m);
      assert plan.state.package == s.package && plan.state.shares == s.shares && plan.state.clock == s.clock;
      PerformKeepsRevokedExactly(plan.state, plan.action, m.oracle);
    }
    match m.step
    case Delete(user) => DeletionClearsAccess(s, user);
    case Claim(attempt) => ClaimKeepsShares(s, attempt);
    case AttachSession(pk, session) => AttachKeepsShares(s, pk, session);
    case _ =>
  }

  lemma DeletionClearsAccess(s: State, user: UserId)
    requires Shares.AllOwnedBy(s.package.records, s.package.creator)
    ensures var (after, deleted) := DeletePackage(s, user);
            && deleted == CanDelete(s.package, user)
            && (deleted ==> !Live(after.package) && NoLiveAccess(after))
            && (!deleted ==> after == s)
  {
    RevocationClearsAccess(s, s.shares);
  }

  lemma ClaimKeepsShares(s: State, attempt: Attempt)
    ensures var after := ClaimCheckout(s, attempt).0;
            after.package == s.package && after.shares == s.shares && after.clock == s.clock
  {
    hide ItemsOf;
  }

  lemma AttachKeepsShares(s: State, pk: nat, session: string)
    ensures var after := Attach(s, pk, session).0;
            after.package == s.package && after.shares == s.shares && after.clock == s.clock
  {
  }

  /** Access is to end when a package is paid or deleted. */
  predicate ClosedMeansRevoked(s: State) {
    s.package.status == Paid || !Live(s.package) ==> NoLiveAccess(s)
  }

  lemma DeletionIsFinal(w: World, m: Moment)
    ensures !Live(w.state.package) ==> !Live(Next(w, m).state.package)
    ensures Live(w.state.package) && !Live(Next(w, m).state.package) ==> m.step.Delete?
  {
    hide Perform, PlanEvent, PlanRefresh, ClaimCheckout, Attach;
    var s := Ticked(w.state, m.elapsed);
    var plan := PlanStep(w, m);
    if plan.Act? {
      PlanOnlyLinks(w, m);
      PerformKeepsDeletion(plan.state, plan.action, m.oracle);
    }
    match m.step
    case Claim(attempt) => ClaimKeepsShares(s, attempt);
    case AttachSession(pk, session) => AttachKeepsShares(s, pk, session);
    case _ =>
  }

  lemma PerformKeepsDeletion(s: State, action: Action, o: Oracle)
    requires InRange(s, action)
    ensures Live(Perform(s, action, o).package) == Live(s.package)
  {
    hide AmountMatches, MarkReceipts, ActiveRecords, RevokedShares, GrantedShares;
  }

  /** A step leaves paid and deleted packages closed to the recipient if and only if it is not a
      reversal that regrants access on a deleted package. */
  lemma StepKeepsClosedExactly(w: World, m: Moment)
    requires Bookkept(w.state) && ClosedMeansRevoked(w.state)
    requires Shares.AllOwnedBy(w.state.package.records, w.state.package.creator)
    ensures ClosedMeansRevoked(Next(w, m).state) <==> Live(w.state.package) || !StepRegrants(w, m)
  {
    StepKeepsBooks(w, m);
    DeletionIsFinal(w, m);
    if !Live(w.state.package) {
      StepKeepsRevokedExactly(w, m);
    } else if m.step.Delete? {
      DeletionClearsAccess(Ticked(w.state, m.elapsed), m.step.user);
    }
    hide Shares.Audited, NoLiveAccess, StepRegrants, DeletePackage;
  }

  /** No step of the run regrants access on a deleted package. */
  predicate NeverRegrantsDeleted(w: World, run: seq<Moment>) {
    forall n | 0 <= n < |run| :: Live(After(w, run, n).state.package) || !StepRegrants(After(w, run, n), run[n])
  }

  /** Over every run, a paid or deleted package stays closed to its recipient at every point if and
      only if no step reopens it once it is deleted. */
  lemma {:induction false} RunKeepsClosedExactly(w: World, run: seq<Moment>)
    requires Bookkept(w.state) && ClosedMeansRevoked(w.state)
    requires Shares.AllOwnedBy(w.state.package.records, w.state.package.creator)
    ensures (forall n | 0 <= n <= |run| :: ClosedMeansRevoked(After(w, run, n).state)) <==> NeverRegrantsDeleted(w, run)
  {
    hide Next, Run, Bookkept, ClosedMeansRevoked, StepRegrants;
    AfterNothing(w, run);
    if run != [] {
      var shorter := run[..|run| - 1];
      RunKeepsClosedExactly(w, shorter);
      forall n | 0 <= n <= |shorter|
        ensures After(w, shorter, n) == After(w, run, n)
      {
        AfterPrefix(w, run, |shorter|, n);
      }
      AfterStep(w, run, |shorter|);
      RunKeepsBooks(w, run[..|shorter|]);
      if ClosedMeansRevoked(After(w, run, |shorter|).state) {
        StepKeepsClosedExactly(After(w, run, |shorter|), run[|shorter|]);
      }
    }
  }

  /** A package as it is created satisfies every invariant of the protocol. */
  lemma FreshPackageIsSafe(package: Package)
    requires package.status != Paid && package.paidAt.None?
    ensures var s := State(package, [], 0, {}, [], [], [], [], Shares.Table(map[], []), 0);
            WellFormed(s) && Joint(s) && PendingIsNewest(s) && Bookkept(s) && ClosedMeansRevoked(s)
  {
    Shares.EmptyTableIsAudited();
  }
}
