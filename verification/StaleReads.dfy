/** Settlement from a package and payment that were read before other steps took place.

    Sync and poll read both, ask Stripe, and only then settle, in no transaction of their own; the
    status checks use what was read, while the writes and the locked transition see the stored rows. */
module StaleReads {
  import opened Basics
  import opened Settlement
  import opened SettlementSafety

  function RefundSeen(s: State, row: Payment, trigger: Trigger, accepted: bool): State {
    if Refunds(row, accepted) then s.(refunds := s.refunds + [Refund(row.pk, trigger, row.intent)]) else s
  }

  function RefuseSeen(s: State, row: Payment, i: nat, trigger: Trigger, accepted: bool): State
    requires i < |s.payments|
  {
    WithPayment(RefundSeen(s, row, trigger, accepted), i, Failed(s.payments[i]))
  }

  /** The completed flag and the intent are written, the latter from the copy when Stripe names none. */
  function CompleteSeen(s: State, row: Payment, i: nat, session: Session, source: Source, o: Oracle): State
    requires i < |s.payments|
  {
    var completed := s.payments[i].(completed := true, intent := CompletedFrom(row, session).intent);
    var settled := MarkAsPaid(WithPayment(s, i, completed), row.payer, PayerCurrency(row), o.rowFree);
    if row.completed then settled
    else Logged(settled, SettlementAudit(source, row.pk)).(notices := settled.notices + [row.payer])
  }

  /** apply_paid_session on stored row i, decided by the package `seen` and the copy `row` of the payment. */
  function SettleFrom(s: State, seen: Package, row: Payment, i: nat, session: Session, source: Source, o: Oracle): (State, bool)
    requires i < |s.payments|
  {
    if !AmountMatches(row, session) then (s, false)
    else if !Live(seen) then
      (Logged(RefuseSeen(s, row, i, DeletedBeforeSettlement, o.refundAccepted), RefusedAfterDeleteAudit(row.pk)), false)
    else if seen.status == Paid && !row.completed then (RefuseSeen(s, row, i, DuplicateSettlement, o.refundAccepted), false)
    else (CompleteSeen(s, row, i, session, source, o), true)
  }

  /** When the status, the deletion mark and the payment are still as they were read, this is the
      serial settlement step. */
  lemma FreshReadSettlesSerially(s: State, seen: Package, row: Payment, i: nat, session: Session, source: Source, o: Oracle)
    requires i < |s.payments| && row == s.payments[i]
    requires seen.status == s.package.status && Live(seen) == Live(s.package)
    ensures SettleFrom(s, seen, row, i, session, source, o) == ApplyPaidSession(s, i, session, source, o)
  {
    hide AmountMatches, MarkAsPaid;
  }

  /** What the stored rows must be like for a settlement decided by an earlier read. */
  predicate StaleAllowed(s: State, seen: Package, row: Payment, i: nat, session: Session, o: Oracle)
    requires i < |s.payments|
  {
    AmountMatches(row, session) ==>
      if !Live(seen) || (seen.status == Paid && !row.completed) then Allowed(s, FailAsync(i), o) else Allowed(s, Restore(i), o)
  }

  lemma CompleteSeenExactly(s: State, row: Payment, i: nat, session: Session, source: Source, o: Oracle)
    requires Joint(s) && i < |s.payments|
    ensures Joint(CompleteSeen(s, row, i, session, source, o)) <==> Allowed(s, Restore(i), o)
  {
    hide RevokedShares, ActiveRecords, PayerCurrency;
    var after := CompleteSeen(s, row, i, session, source, o);
    assert OnlyFlag(s, after, i, true);
    CompletedOnly(s, after, i, true);
    assert after.payments[i].completed;
  }

  lemma RefuseSeenExactly(s: State, row: Payment, i: nat, trigger: Trigger, o: Oracle)
    requires Joint(s) && i < |s.payments|
    ensures Joint(RefuseSeen(s, row, i, trigger, o.refundAccepted)) <==> Allowed(s, FailAsync(i), o)
  {
    CompletedOnly(s, RefuseSeen(s, row, i, trigger, o.refundAccepted), i, false);
  }

  lemma LoggingKeepsJoint(s: State, entry: Audit)
    ensures Joint(Logged(s, entry)) == Joint(s)
  {
    assert SomeCompleted(Logged(s, entry)) == SomeCompleted(s);
  }

  /** Whatever was read and however long ago, the joint invariant survives the settlement if and only
      if the stored rows allow it: a refusal may not hit the completed payment of a live package, and a
      completion needs an open package that can be locked or no other completed payment. */
  lemma StaleSettlementKeepsJointExactly(s: State, seen: Package, row: Payment, i: nat, session: Session, source: Source, o: Oracle)
    requires Joint(s) && i < |s.payments|
    ensures Joint(SettleFrom(s, seen, row, i, session, source, o).0) <==> StaleAllowed(s, seen, row, i, session, o)
  {
    hide AmountMatches, CompleteSeen, RefuseSeen, Joint, Allowed, Logged;
    CompleteSeenExactly(s, row, i, session, source, o);
    RefuseSeenExactly(s, row, i, DeletedBeforeSettlement, o);
    RefuseSeenExactly(s, row, i, DuplicateSettlement, o);
    LoggingKeepsJoint(RefuseSeen(s, row, i, DeletedBeforeSettlement, o.refundAccepted), RefusedAfterDeleteAudit(row.pk));
  }

  /** A payment read while its package was open completes a second time over when another payment has
      paid for the package in between. */
  lemma StaleReadCompletesTwice(s: State, seen: Package, row: Payment, i: nat, k: nat, session: Session, source: Source, o: Oracle)
    requires i < |s.payments| && k < |s.payments| && i != k && s.payments[k].completed
    requires s.package.status == Paid && seen.status == Open && Live(seen) && AmountMatches(row, session)
    ensures var (after, settled) := SettleFrom(s, seen, row, i, session, source, o);
            settled && after.package.status == Paid && !AtMostOneCompleted(after)
  {
    hide AmountMatches;
    var after := SettleFrom(s, seen, row, i, session, source, o).0;
    assert after.payments[i].completed && after.payments[k].completed;
  }
}
