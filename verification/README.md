# Verity: settlement, money, merges and storage, verified

A Dafny model of four parts of Verity and proofs of what they keep.

* **Settlement** (`Settlement.dfy`, `SettlementEffects.dfy`, `SettlementSafety.dfy`, `SettlementRuns.dfy`, `SettlementAccess.dfy`,
  `SettlementRefunds.dfy`, `SettlementAmounts.dfy`, `SettlementWitnesses.dfy`, `FirstSettlement.dfy`, `Delivery.dfy`,
  `StaleReads.dfy`, `StaleRuns.dfy`, `StripeLedger.dfy`, `SettlementStore.dfy`, `Shares.dfy`). A reimbursement package moves between queued, open and paid
  while it collects payment rows. The steps are a checkout claim, its attachment to a Stripe session or its abort,
  activation, deletion, a Stripe event, a page-triggered sync and a poll. `Settlement` holds the state and the step
  functions, `SettlementEffects` says what each step does to rows, package and books without naming them, `SettlementStore` the rows as objects whose methods carry out the same steps in place (`Store.Execute`
  runs any list of steps), `Shares` the recipient's grants and their audit trail.
* **Money** (`Money.dfy`, `Checkout.dfy`, `PlatformFee.dfy`). Rounding, minor units, strict conversion, line items
  and the platform fee, over exact rationals (`real`). ROUND_HALF_UP is roundTiesToAway and ROUND_CEILING is
  roundTowardPositive, sections 4.3.1 and 4.3.2 of IEEE 754-2008.
* **Merges** (`Merge.dfy`, `Matching.dfy`, `Scoring.dfy`, `MergeStore.dfy`). Merging document records into Plaid records, undoing
  merges, scoring and choosing candidates.
* **Storage** (`Storage.dfy`). The per-user byte counter behind uploads and deletions.

`dafny verify dfyconfig.toml` checks everything.

## What a run may assume

Steps run one after the other. That is what the code's transactions arrange for activation, a checkout claim, a Stripe
event and the status transitions. Attach, abort, deletion, sync and poll run in no transaction of their own
(reimbursements/tasks.py:39-138, reimbursements/services.py:242-260, reimbursements/models.py:247-269): that nothing
happens between their writes, and that what they read first is still so when they write, is an assumption of the runs.
Sync and poll read the package before they ask Stripe, and the completed flag is committed before the transition to
paid. `StaleReads` and `StaleRuns` drop the assumption about the read: tasks read, wait while any steps happen, and then
settle from their copies. They say exactly when the joint invariant survives such a run, show a run on which a stale
read completes a second payment, and prove that a task nothing disturbs is the serial step. The settlement itself stays
one step.

A settlement step carries an oracle: whether the package row could be locked (`select_for_update(skip_locked=True)`
returns nothing otherwise) and whether Stripe accepted a refund call. Events carry what the Stripe lookups answer.
Time only moves forward, so creation order is primary-key order, and placeholder session ids are unknown to Stripe.
The refund ledger of a state has one entry for each accepted call of a step that committed. `StripeLedger` has Stripe's
side: the keys (reason, intent) of all accepted calls, those of attempts that were rolled back included. A crash is taken
to come after the handler's work; one that comes before a refund call is an attempt whose call was not accepted.

A merge targets a Plaid record, and a document is handed to it only for a record that has documents. The callers hand
over one of the record's own (records/views/merges.py:94, records/views/create.py:121-134, records/services.py:193-196).

The joint invariant (`SettlementSafety.Joint`) is: rows exist only once the package has left the queue, at most one
payment is completed, a completed payment belongs to a paid package, a live paid package has a completed payment. It
does not hold on every run. `StepAllowed` is a test on the stored rows, the event's row and the lock, and a step keeps
the invariant if and only if it passes. What it rules out, each with a concrete state or family in
`SettlementWitnesses`:

* a failure, full refund or lost dispute resolved to a payment that is not the completed one;
* a dispute won on such a payment;
* an async failure for a completed payment;
* a settlement, reversal or restoration that finds the package row locked;
* aborting a claim that a won dispute, routed by package metadata, has completed before its session existed.

Where the code and its comments differ the model follows the code, and the exact condition is proved:

* `apply_paid_session` says a refused capture is refunded; the refund helper returns early for a payment that is not
  completed, so it is refunded only after a completion (`RefusedCaptureIsNotRefunded`, `DuplicateCaptureIsKept`).
* A payment can be refunded twice, and can be completed after its refund, because sync, poll, a late webhook or a won
  dispute complete a reversed payment again (`RefundsAreFinalExactly`, `CompletedOnceExactly`, `OnePaymentIsRefundedTwice`).
* Access is to end with payment and deletion, but a reversal on a deleted package grants it again
  (`RunKeepsClosedExactly`, `RefundRegrantsDeletedPackage`).
* A claim made on top of a placeholder that a won dispute has completed leaves two pending rows
  (`RunKeepsPendingExactly`, `ClaimOverCompletedClaim`).
* Undoing merges out of order restores documents but leaves a Plaid record with the snapshot restored last
  (`AnyOrderUndoLeavesLastSnapshot`), and an archived one with what it had at archival (`ArchivalFreezesFields`).
* `billing/storage.py` says the counter stays accurate over every deletion; the signal subtracts the copy's bytes even
  when its row is gone, so two deletions of one document through copies read earlier subtract them twice
  (`RunKeepsExactIff`, `DoubleDeletionSubtractsTwice`).
* `reconcile_storage_usage` does not repair a negative counter of a user without documents (`RepairRestoresExactIff`).

## Model

| member | source | states |
|---|---|---|
| Settlement.FindSession | reimbursements/webhooks.py:114-117 | the row carrying a session id, or proof that none does |
| Settlement.FindIntent | reimbursements/webhooks.py:228-234 | the oldest row carrying a payment intent, or proof that none does |
| Settlement.Newest | reimbursements/services.py:174-176 | the newest row with a property: no later row has it |
| SettlementEffects.AmountMatchesExactly | reimbursements/models.py:545-599 | a session pays for a row iff the currencies agree and the amount is exactly the expected one, or within one unit for a row without an expectation |
| SettlementEffects.AttemptSettles | reimbursements/webhooks.py:362-395 | a new paid checkout or async-success event for a row's session, a sync of it or a poll finding it newest completes exactly that row with the session's intent, on a live unpaid package, and pays an open package that can be locked: its columns, reimbursed marks and receipt |
| SettlementEffects.AttemptRefused | reimbursements/webhooks.py:133-173 | a wrong amount or a duplicate changes nothing, a repeat only records its intent, and on a deleted package the row ends incomplete with a refund iff it was completed, has an intent and Stripe accepts |
| SettlementEffects.AsyncFailureClears | reimbursements/webhooks.py:378-396 | a failed asynchronous payment clears the flag of its row and nothing else |
| SettlementEffects.StaleAttemptSettles | reimbursements/models.py:601-615 | a settlement from copies succeeds iff the copies allow it and then completes the stored row with the session's intent or the copy's |
| SettlementEffects.FailureRefunds | reimbursements/webhooks.py:411-446 | a failed transfer or charge refunds a completed row once for its intent and reverses it, leaves it when the refund is not accepted, and reverses an incomplete row without a refund |
| SettlementEffects.FullReversalReopens | reimbursements/webhooks.py:259-308 | a full external refund or lost dispute leaves the row incomplete and reopens a paid package that can be locked: its columns, reimbursed marks and one refund mark on exactly the previous payer's receipts |
| SettlementEffects.WonDisputeRestores | reimbursements/webhooks.py:342-359 | a won dispute completes its row and pays an open package that can be locked |
| SettlementEffects.MinorEventsAreNoted | reimbursements/webhooks.py:449-564 | a partial refund or undecided dispute adds one audit entry and leaves package and rows as they were but for a newly linked intent |
| SettlementEffects.UnrelatedEventsChangeNothing | reimbursements/webhooks.py:362-564 | an event about no payment of the package is marked as handled and changes nothing |
| SettlementEffects.UnresolvedEventsAreRetried | reimbursements/webhooks.py:107-130 | an unknown session that Stripe knows, or a failing look-up, changes nothing and is not marked |
| SettlementEffects.UnheardChangesNothing | reimbursements/webhooks.py:592-601 | a delivery handled before or cut short changes nothing |
| SettlementEffects.IdleRefreshChangesNothing | reimbursements/tasks.py:39-138 | a sync or poll without an awaited row and a paid session for it changes nothing |
| SettlementEffects.SettledThenFailedIsRefunded | reimbursements/webhooks.py:311-339 | a settlement naming an intent, then an accepted failure for that intent, records exactly one refund for that row and intent and reopens the package |
| SettlementEffects.ClaimTurnsAway | reimbursements/services.py:158-191 | each refusal of a checkout is given exactly in its case: not payable, not open, a claim of under fifteen minutes, a session that is still open and is resumed; none changes anything |
| SettlementEffects.ClaimProceeds | reimbursements/services.py:187-206 | otherwise the outcome is decided by rates, payable items and the id; a made claim is one new row with these terms and all rows but a stale placeholder stay |
| SettlementEffects.AttachExactly | reimbursements/services.py:256-260 | attaching succeeds iff the claim's row is still a placeholder and no row has the session, and writes that row's session only |
| SettlementEffects.AbortExactly | reimbursements/services.py:247-255 | aborting removes exactly the claim's row, if it is still a placeholder |
| SettlementEffects.OpeningAndDeletion | reimbursements/models.py:222-269 | a queued lockable package opens; a live package is deleted by its creator, or by its recipient once paid |
| SettlementSafety.DriftChecksDecideAgreement | reimbursements/reconciliation.py:142-174 | the two daily agreement checks report nothing exactly when their two clauses hold, so never on a state with the joint invariant |
| SettlementSafety.SettleExactly | reimbursements/webhooks.py:133-195 | settling keeps the joint invariant iff an open package's row can be locked |
| SettlementSafety.FailAsyncExactly | reimbursements/webhooks.py:395-396 | an async failure keeps it iff it does not hit the completed payment of a live package |
| SettlementSafety.RevertExactly | reimbursements/webhooks.py:259-308 | a reversal keeps it iff it stops for want of a refund, or names the completed payment, or none is completed, with the locked-row case told apart |
| SettlementSafety.RestoreExactly | reimbursements/webhooks.py:342-359 | a won dispute keeps it iff it names the completed payment or none is completed, and an open package's row can be locked |
| SettlementSafety.RemovalExactly | reimbursements/services.py:187 | deleting a row keeps it unless the row backs a live paid package |
| SettlementSafety.ClaimKeepsJoint | reimbursements/services.py:164-206 | no checkout claim can break it |
| SettlementSafety.DeleteKeepsJoint | reimbursements/models.py:247-269 | no package deletion can break it |
| SettlementSafety.LocateOnlyLinks | reimbursements/webhooks.py:211-256 | resolving the row of an event changes nothing but a newly linked intent |
| SettlementSafety.StepKeepsJointExactly | reimbursements/webhooks.py:581-601 | any step of any kind keeps the joint invariant iff it is allowed |
| SettlementSafety.RunKeepsJointExactly | reimbursements/reconciliation.py:142-174 | over every run, the invariant holds throughout iff every step was allowed |
| SettlementSafety.StepKeepsBackingExactly | reimbursements/reconciliation.py:142-154 | the backing of a live paid package alone survives a step iff it is not a late async failure, an aborted completed claim or a reversal that finds the row locked, hitting the only completed payment |
| SettlementSafety.RunKeepsBackingExactly | reimbursements/reconciliation.py:142-154 | the same over every run |
| SettlementWitnesses.SiblingFailureReopensPaidPackage | reimbursements/webhooks.py:297-298 | a failed charge on an abandoned session reopens a package another payment has paid for |
| SettlementWitnesses.SiblingDisputeCompletesTwice | reimbursements/webhooks.py:342-349 | a dispute won on an abandoned session completes a second payment |
| SettlementWitnesses.LateAsyncFailureUnbacksPackage | reimbursements/webhooks.py:395 | an async failure after completion leaves a paid package without a completed payment |
| SettlementWitnesses.AbortedClaimUnbacksPackage | reimbursements/services.py:247-251 | an aborted claim can be the payment that backs a paid package |
| SettlementWitnesses.LockedRowSettlesOnOpenPackage | reimbursements/models.py:285-292 | every settlement that cannot lock the row completes its payment on a package that stays open |
| SettlementRuns.PerformKeepsRows | reimbursements/models.py:601-620 | reactions write nothing of a row but its completed flag and intent, and nothing of a package but status, payer and dates |
| SettlementAccess.FreshPackageIsSafe | reimbursements/models.py:81-98 | a package as created satisfies every invariant |
| SettlementRuns.StepKeepsWellFormed | reimbursements/models.py:518-540 | every step keeps rows in key order with distinct sessions, and keys are never reused |
| SettlementRuns.RunKeepsWellFormed | reimbursements/models.py:518-540 | so does every run |
| SettlementRuns.ClaimIsExclusive | reimbursements/services.py:168-206 | a claim is made only on an open package and is then the newest and only pending row; a fresh claim blocks and changes nothing; a stale one is deleted unless the block rolls back |
| SettlementRuns.ClaimKeepsPendingExactly | reimbursements/services.py:173-206 | a claim attempt leaves at most one pending row, the newest, iff it does not make a claim on top of a placeholder row that is completed |
| SettlementRuns.RunKeepsPendingExactly | reimbursements/services.py:168-206 | over every run there is at most one pending row and it is the newest, at every point, iff no such claim is made |
| SettlementRuns.RunKeepsClaimsExclusive | reimbursements/services.py:168-206 | the same on every run in which completed payments belong to a paid package whenever a claim is attempted |
| SettlementWitnesses.ClaimOverCompletedClaim | reimbursements/services.py:173-206 | a concrete run, a dispute won on a claim while the package row is locked and another claim, leaves two pending rows |
| SettlementRuns.ReclaimedNeverAttaches | reimbursements/services.py:256-260 | a deleted claim stays deleted over every run and attaching its session fails and changes nothing |
| SettlementAccess.RunKeepsBooks | reimbursements/models.py:271-352 | over every run of a package of its creator's own records, without any guard on the steps: paid iff it has a payment date, active records marked reimbursed iff paid, no live reimbursement grant for the recipient while paid, audit trail of shares matched |
| SettlementAccess.PerformKeepsRevokedExactly | reimbursements/models.py:331-374 | without access before it, an action leaves the recipient without access iff it does not reopen a paid, unexpired package with an active record the recipient has no live row for |
| SettlementAccess.ReopeningRegrantsAccess | reimbursements/models.py:365-369 | such a reversal gives the recipient live access to every active record again, deleted package or not |
| SettlementAccess.StepKeepsRevokedExactly | reimbursements/services.py:323-362 | the same for every kind of step |
| SettlementAccess.DeletionClearsAccess | reimbursements/models.py:247-269 | a deletion succeeds iff the user may delete, and then ends the recipient's access |
| SettlementAccess.RunKeepsClosedExactly | reimbursements/services.py:350-362 | over every run of a package of its creator's own records a paid or deleted package is closed to its recipient at every point iff no step regrants access on a deleted package |
| SettlementWitnesses.RefundRegrantsDeletedPackage | reimbursements/models.py:365-369 | a concrete run from a sound state that settles, deletes and fully refunds a package shows its record to the recipient again |
| SettlementRefunds.PerformRefundsOnlyReversals | reimbursements/webhooks.py:311-339 | an action issues at most one refund, for a payment it takes from completed to failed |
| SettlementRefunds.RefundsAreConserved | reimbursements/webhooks.py:273-298 | on every run, for every payment, refunds plus its completed flag never exceed its completions |
| SettlementRefunds.CompletedByActionExactly | reimbursements/webhooks.py:133-195 | an incomplete payment is completed by an action iff it is a matching settlement of it on a live package that is not paid, or a dispute won on it |
| SettlementRefunds.CompletedByStepExactly | reimbursements/tasks.py:67-95 | the same for every kind of step |
| SettlementRefunds.CompletedOnceExactly | reimbursements/webhooks.py:342-359 | on every run a payment is completed at most once iff no step completes it again |
| SettlementRefunds.RefundedAtMostOnce | reimbursements/webhooks.py:311-339 | such a run refunds the payment at most once and does not complete it afterwards, whatever happens to others |
| SettlementRefunds.RefundsAreFinalExactly | reimbursements/webhooks.py:311-339 | at every point of every run a payment is refunded at most once and not completed if it is, iff no step completes it after its refund |
| SettlementWitnesses.OnePaymentIsRefundedTwice | reimbursements/tasks.py:83-88 | a concrete run that refunds one payment twice under different idempotency keys |
| SettlementRefunds.ReofferedSettlementCompletesAgain | reimbursements/tasks.py:83-88 | a settlement offered again for a reversed payment of a live open package completes it again without any refund being taken back |
| SettlementRefunds.RefusedCaptureIsNotRefunded | reimbursements/webhooks.py:141-173 | refusing a settlement calls for a refund iff the package is deleted and the payment was completed before, with an intent and Stripe's consent |
| SettlementWitnesses.DuplicateCaptureIsKept | reimbursements/webhooks.py:164-173 | a concrete second session that settles after the package was paid for is refused and nothing is refunded |
| SettlementRefunds.ReopeningReturnsTheMoney | reimbursements/webhooks.py:259-298 | an allowed step that reopens a paid package refunds its completed payment in that step, unless the event is a full external refund or a lost dispute |
| SettlementRuns.StepKeepsRealRow | reimbursements/services.py:187 | a row with a real session stays under its key and session through every step, and on a deleted package keeps its intent |
| StripeLedger.AttemptFollowsPlan | reimbursements/webhooks.py:311-339 | an attempt refunds at most once, for a completed payment with an intent that it reverses or that belongs to a deleted package |
| StripeLedger.RecordedRefundsAreMade | reimbursements/tasks.py:34-35 | over every run Stripe has made every refund the books record, and no other unless an attempt was rolled back |
| StripeLedger.SettlementRetriesShareKey | reimbursements/webhooks.py:141-149 | over every run all settlement events of one session refund it under one key |
| StripeLedger.RetriesShareKey | reimbursements/services.py:96-107 | over every run all attempts at one event, rolled back or not and whatever happens in between, refund under one key |
| StripeLedger.EventRefundsOnce | reimbursements/webhooks.py:268 | so retries never double-refund: one event has at most one refund key |
| StripeLedger.ThreeReasons | reimbursements/webhooks.py:149 | Stripe refunds one intent at most once for each of three reasons |
| SettlementAmounts.EveryRowFromItsClaim | reimbursements/services.py:199-206 | every row created in a run still expects the total and currency of the claim that created it |
| SettlementAmounts.SettlementIsExact | reimbursements/models.py:545-599 | whenever a step settles a payment created in the run, the session charged exactly the sum of the unit amounts of the line items of its claim, in the claim's currency |
| FirstSettlement.MismatchChangesNothing | reimbursements/webhooks.py:135-137 | a settlement attempt that matches nothing changes nothing |
| FirstSettlement.FirstMatchSettles | reimbursements/webhooks.py:175-195 | the first paid session of the right amount for a row completes exactly that row with its intent, pays the package and adds one receipt if the payer is registered, one notice and one audit entry |
| FirstSettlement.FirstSettlementWins | reimbursements/webhooks.py:133-195 | over every list of webhook, sync and poll attempts on an unsettled package, all later attempts leave that state fixed up to the recorded intent of the settled row |
| FirstSettlement.NoMatchNoSettlement | reimbursements/tasks.py:67-95 | if no attempt matches, package and payments stay as they were |
| Delivery.DeliveriesRefineOnceEach | reimbursements/webhooks.py:581-601 | runs with duplicates, retries and crashes reach the state of a marker-free run that handles each event at its first delivery that gets through, and the markers are the events it has handled |
| Delivery.EachEventCommitsOnce | reimbursements/webhooks.py:592-601 | an identified event is handled exactly once iff some delivery of it gets through |
| Delivery.UnidentifiedEventsRepeat | reimbursements/webhooks.py:592-601 | an event without an id is handled at each delivery |
| SettlementStore.PaymentRow.CompleteFromSession | reimbursements/models.py:601-615 | sets the completed flag and records the session's intent if it has one |
| SettlementStore.PaymentRow.MarkFailed | reimbursements/models.py:617-620 | clears the completed flag and nothing else |
| SettlementStore.PackageRow.Activate | reimbursements/models.py:222-239 | opens exactly a queued package whose row is free and reports it |
| SettlementStore.Store.MarkAsPaid | reimbursements/models.py:271-329 | the paid transition of the protocol, done in place |
| SettlementStore.Store.MarkAsRefunded | reimbursements/models.py:331-374 | the reopening transition of the protocol, done in place |
| SettlementStore.Store.DeletePackage | reimbursements/models.py:247-269 | soft deletion after revocation, refused when revocation raises |
| SettlementStore.Store.RefundCapturedPayment | reimbursements/webhooks.py:311-339 | one ledger entry iff the payment is completed, has an intent and Stripe accepts |
| SettlementStore.Store.ApplyPaidSession | reimbursements/webhooks.py:133-195 | settles as the protocol does and returns whether it did |
| SettlementStore.Store.RevertPackagePayment | reimbursements/webhooks.py:259-308 | reverts as the protocol does |
| SettlementStore.Store.RestorePaidPayment | reimbursements/webhooks.py:342-359 | restores as the protocol does |
| SettlementStore.Store.PaymentForPaymentIntent | reimbursements/webhooks.py:211-242 | finds or links the row as the protocol does |
| SettlementStore.Store.PaymentOf | reimbursements/webhooks.py:362-523 | finds the row each kind of event is about |
| SettlementStore.Store.React | reimbursements/webhooks.py:362-564 | each kind of event has the protocol's reaction on its row |
| SettlementStore.Store.ProcessStripeEvent | reimbursements/webhooks.py:581-601 | handler and marker commit together, and an exception leaves the world as it was |
| StaleReads.FreshReadSettlesSerially | reimbursements/tasks.py:67-95 | a settlement decided by copies that are still current is the serial settlement step |
| StaleReads.StaleSettlementKeepsJointExactly | reimbursements/tasks.py:67-95 | a settlement decided by copies of any age keeps the joint invariant iff a refusal does not hit the completed payment of a live package and a completion finds an open lockable package or no other completed payment |
| StaleReads.StaleReadCompletesTwice | reimbursements/webhooks.py:164 | a payment read while its package was open is completed although another one has paid for it since |
| StaleRuns.RunKeepsJointExactly | reimbursements/tasks.py:39-138 | over every interleaving of steps with tasks that read first and settle later the joint invariant holds at every point iff every event was allowed |
| StaleRuns.UndisturbedTaskIsSerial | reimbursements/tasks.py:39-138 | a task that settles right after its read is the serial sync or poll |
| StaleRuns.CopiesKeepTheirRows | reimbursements/tasks.py:54-60 | the stored row of a waiting task with a real session never vanishes |
| SettlementWitnesses.StaleSyncCompletesTwice | reimbursements/webhooks.py:164 | a concrete run on which a sync that read too early completes a second payment |
| SettlementStore.Store.ReadForSync | reimbursements/tasks.py:47-60 | a sync starts only from an open package and an existing payment |
| SettlementStore.Store.ReadForPoll | reimbursements/tasks.py:120-127 | the poll takes the newest incomplete payment, whatever the package has become |
| SettlementStore.Store.SettleCopy | reimbursements/tasks.py:67-95 | the answer from Stripe is applied from the copy to the row with its key |
| SettlementStore.Store.SettleFrom | reimbursements/webhooks.py:133-195 | the code on copies read earlier does exactly that to the stored rows |
| SettlementStore.Store.Refresh | reimbursements/tasks.py:67-95 | settles an open package's row from Stripe's report as the protocol does, when nothing changed since the read |
| SettlementStore.Store.SyncPaymentStatus | reimbursements/tasks.py:39-64 | one sync is one step of the protocol, when nothing happens during it |
| SettlementStore.Store.ReconcilePendingPayments | reimbursements/tasks.py:99-138 | one poll of the package is one step of the protocol, when nothing happens during it |
| SettlementStore.Store.ClaimCheckout | reimbursements/services.py:164-214 | claims as the protocol does, with its outcome |
| SettlementStore.Store.AttachSession | reimbursements/services.py:256-260 | attaches the session unless the claim is gone or the id is taken |
| SettlementStore.Store.AbortClaim | reimbursements/services.py:247-255 | deletes the claim if it is still there |
| SettlementStore.Store.Execute | reimbursements/tasks.py:15-35 | carrying out any list of steps in place is the run of the protocol |
| Shares.RevokeAllExactly | reimbursements/services.py:350-362 | a completed revocation stamps exactly the recipient's live reimbursement grants on the records and leaves every other row as it was |
| Shares.RevokeAllClears | reimbursements/services.py:350-362 | afterwards the recipient has no live reimbursement grant on any of the records, then or later |
| Shares.RevokeAllSucceeds | records/shares.py:290-306 | revoking by the owner of all records cannot raise |
| Shares.GrantAllExactly | reimbursements/services.py:323-347 | granting writes the package's terms to exactly the recipient's rows on active records that are not live already, leaves every other row as it was, and gives live access to every active record unless the package has expired |
| Shares.PackageGrantsViewing | reimbursements/services.py:323-347 | a package grants viewing with documents, for reimbursement, from its creator until it expires |
| Shares.RevocationSparesOthers | reimbursements/services.py:350-362 | revoking for a package leaves grants for another purpose, user or record, and grants no longer live, as they were |
| Shares.EveryRunIsAudited | records/shares.py:121-163 | over every run of grants, revocations, expiries and package cycles rows are never removed, the trail only grows and every revocation has its own earlier unmatched grant |
| Shares.GrantOutcome | records/shares.py:121-163 | who is refused a grant, when a live row is kept, and what a new or reactivated row and its entry are |
| Shares.RevokeOutcome | records/shares.py:290-306 | only the owner revokes, and an unrevoked row is stamped and logged once |
| Shares.GrantLifetime | records/models.py:619-640 | a grant is live up to, but not at, its expiry, and never after its revocation |
| Shares.ShareTable.Grant | records/shares.py:121-163 | creates, keeps or reactivates the pair's row, or refuses, as specified |
| Shares.ShareTable.Reactivate | records/shares.py:101-118 | the row becomes a fresh grant with the latest settings |
| Shares.ShareTable.Revoke | records/shares.py:290-306 | stamps an unrevoked row once and logs it, only for the owner |
| Shares.ShareTable.GrantPackageAccess | reimbursements/services.py:323-347 | the loop over active records is the specified fold |
| Shares.ShareTable.RevokePackageAccess | reimbursements/services.py:350-362 | the loop over live grants is the specified fold |
| Rounding.HalfUp | core/currencies.py:186 | the nearest integer, ties away from zero |
| Rounding.Ceiling | reimbursements/money.py:109-111 | the least integer not below the value |
| Currencies.MinorUnitRoundTrip | core/currencies.py:182-193 | minor to major to minor units is the identity for every integer and currency |
| Currencies.MajorUnitRoundTrip | core/currencies.py:182-193 | major to minor to major loses at most half a minor unit, and nothing iff the amount is whole in minor units |
| Currencies.UnitsByCode | core/currencies.py:153-160 | how many minor units a currency has, by its code |
| ExchangeRates.ConversionRoundsOnce | core/exchange_rates.py:118-146 | strict conversion followed by minor units is a single rounding of the exact amount, and loses nothing after a real conversion |
| ExchangeRates.RefusesExactlyWithoutRate | core/exchange_rates.py:118-146 | conversion fails iff the amount is not zero, the codes differ and one of them has no rate or rate zero; otherwise it is the exact amount rounded once |
| Checkout.StrictConvertedTotal | reimbursements/checkout.py:133-143 | the loop computes the strict total or the first missing rate |
| Checkout.BuildLineItems | reimbursements/checkout.py:54-79 | the loop computes the specified items; every unit amount is positive, in the payer's currency, and their sum is the total |
| Checkout.ItemsAreSound | reimbursements/checkout.py:54-130 | the same for both branches, and a checkout is empty iff its total is not positive |
| Checkout.RoundingErrorBound | reimbursements/checkout.py:66-78 | the billed total is within half a minor unit per billable record of the exact converted sum, dropped records included |
| Checkout.CrossCurrencyTotalIsExact | reimbursements/checkout.py:66-78 | when every record is in another currency, the decimal total equals the billed total exactly |
| Checkout.RefusesExactlyWithoutRates | reimbursements/checkout.py:82-90 | the per-record branch raises iff some billable record in another currency lacks a rate |
| Checkout.TotalRefusesExactlyWithoutRates | reimbursements/checkout.py:133-143 | the fallback raises iff some active record with a non-zero balance in another currency lacks a rate |
| Checkout.LineItemsAreBilledRecords | reimbursements/checkout.py:82-111 | the line items are, in order, one for each billable record worth at least half a unit, with its title, its merchant and its exact amount to the nearest unit |
| Checkout.FallbackBillsTheTotal | reimbursements/checkout.py:114-130 | when there are none the package is one item for its total, or nothing if that is not positive |
| Checkout.TotalErrorBound | reimbursements/checkout.py:133-143 | that total counts every active record, negative balances too, to half a unit each |
| PlatformFee.FeeBounds | reimbursements/money.py:99-131 | 0 ≤ fee ≤ total, at least the real formula unless capped, below it plus two units |
| PlatformFee.NetMarginGuaranteed | reimbursements/money.py:86-96 | unless estimated Stripe cost and margin exceed the total, the fee minus that cost is at least the percentage and the minimum; if they do, the fee is the total |
| PlatformFee.FeeIsMonotone | reimbursements/money.py:99-131 | the fee never falls as the total grows, for any sensible schedule |
| PlatformFee.TakeHomeNeverDropsByMoreThanOne | reimbursements/money.py:36-43 | at the default rates the creator's take-home never falls by more than one unit as the total grows |
| PlatformFee.TakeHomeCanDrop | reimbursements/money.py:109-119 | the drop of one unit is attained |
| PlatformFee.ComputeFitsTheCharge | reimbursements/money.py:54-61 | with positive rates the computed fee lies between 0 and the total, and is refused exactly for want of a rate |
| PlatformFee.ComputeFollowsFormula | reimbursements/money.py:99-131 | the fee is the documented formula with the dollar constants at the payer's rates, to less than three units above and one below, or the whole charge |
| PlatformFee.DefaultFees | reimbursements/money.py:36-61 | the default fee on 100.00 and 10.00 dollars |
| MergeSafety.InactiveExactlyInOneLog | records/matching.py:280-289 | a document record is inactive iff it is in an active log, and then in only one |
| MergeSafety.DuplicateMergeNeverFires | records/models.py:442-449 | the unique-active-merge constraint can never fire, and a merge succeeds iff both records exist and the document record is mergeable |
| MergeSafety.UndoReturnsDocumentRecord | records/matching.py:220-225 | undoing a merge makes its document record active and without a Plaid id, its fields unchanged |
| MergeSafety.UndoIsIdempotent | records/matching.py:308-310 | a repeated undo changes nothing and says so |
| MergeSafety.RunKeepsInv | records/matching.py:242-340 | every run of merges, undos and archivals keeps active logs disjoint and their documents on their Plaid record; logs are only appended |
| MergeSafety.AnyOrderUndoRestoresOwnership | records/matching.py:272-281 | once no merge is active, whatever the order of undos and archivals, every document link and every document record is as at the start |
| MergeSafety.ForeignDocumentIsTaken | records/matching.py:330-334 | undoing a merge that was given any document restores all links iff the record had documents of its own; otherwise it drags the document along |
| MergeSafety.UndoInvertsMerge | records/matching.py:300-340 | undo inverts the merge just made: records, links and earlier logs are as before |
| MergeSafety.UnwoundIsInvariant | records/matching.py:242-340 | no interleaving of merges and newest-first undos changes the state that unwinding all merges leads back to |
| MergeSafety.NewestFirstRestoresEverything | records/matching.py:242-340 | when all merges have been undone newest first, every restorable field, activity flag and document link is as at the start |
| MergeSafety.AnyOrderUndoLeavesLastSnapshot | records/matching.py:210-217 | once no merge is active, whatever the order of undos, an active Plaid record has the fields of the snapshot in the log undone last, so it is restored iff those are the original ones |
| MergeSafety.OldestLastRestoresFields | records/matching.py:300-340 | it is restored when the first merge into it is the one undone last, in whatever order the others were |
| MergeSafety.UndoKeepsArchivedFields | records/matching.py:323-325 | no undo changes an archived Plaid record |
| MergeSafety.ArchivedFieldsOverRun | records/matching.py:323-325 | over every run an archived Plaid record keeps its fields but for the merges that still go into it |
| MergeSafety.ArchivalFreezesFields | records/matching.py:323-325 | a run that archives it in between leaves it the fields it had at archival plus the later merges |
| MergeSafety.OldestFirstLeavesFirstMerge | records/matching.py:210-217 | the smallest stale case: undoing the older of two merges first leaves the fields of the first merge |
| Matching.Score | records/matching.py:54-103 | the score lies between 0 and 120 |
| Matching.ScoreIsSymmetric | records/matching.py:35-103 | the score is symmetric whenever the text ratio is |
| Scoring.ScoreAddsUp | records/matching.py:54-103 | balances, dates, merchants and titles are scored on their own |
| Scoring.BalanceTiers | records/matching.py:63-70 | what equal balances, balances within one and within three are worth |
| Scoring.DateTiers | records/matching.py:72-79 | what the same day, the next and up to three days apart are worth |
| Scoring.MerchantTiers | records/matching.py:81-90 | what merchants alike to 0.9, 0.7, 0.5 and 0.3 are worth |
| Scoring.TitleTiers | records/matching.py:92-101 | what titles alike to 0.9, 0.7, 0.5 and 0.3 are worth |
| Scoring.SimilarityCases | records/matching.py:31-45 | short texts must be equal, texts of very different length are unlike, otherwise the ratio decides |
| Scoring.CloserNeverScoresLower | records/matching.py:54-103 | moving a balance, date or text closer never lowers the score |
| Scoring.SameDaySameBalanceMatches | records/matching.py:54-103 | equal balances on the same day reach 70 and so a merge |
| Scoring.FarApartNeedsTexts | records/matching.py:54-103 | balances over three apart and dates three or more days apart cannot reach 55 without merchants alike to 0.9 and titles to 0.7 |
| Scoring.CandidatesExactly | records/matching.py:106-134 | the candidates are exactly the active rows of the user, of the wanted kind and in the date window, up to the limit of the query |
| Scoring.RankedMatchesExactly | records/matching.py:154-179 | an automatic merge takes exactly those of them that score at least 55 |
| Scoring.MatchesStayWithUser | records/matching.py:120-134 | automatic matching never joins records of two users |
| Scoring.BestMatchRule | records/matching.py:131-151 | none if all score below 55, the first of at least 95 if there is one, else the first of the highest score |
| Matching.BestIsUnique | records/matching.py:131-151 | the choice rule determines the match |
| Matching.FindBestPlaidMatch | records/matching.py:114-151 | the first candidate scoring at least 95, else the first of the highest score if that is at least 55, else none |
| Matching.FindDocumentMatches | records/matching.py:154-179 | exactly the candidates scoring at least 55, in descending order |
| Matching.SortDescendingRanks | records/matching.py:178 | the ranking is a descending permutation that keeps ties in query order |
| Matching.ChosenFieldsAppend | records/matching.py:228-239 | one more merged record is one more application of its fields to the last-qualifying and first-non-empty choices |
| Matching.MergeEachMergesAll | records/matching.py:376-384 | every match is merged; fields end as the last qualifying values, payment method as the first non-empty one, all documents on the Plaid record |
| Matching.AutoMatchMergesEveryMatch | records/matching.py:359-384 | the same from the candidate pool on, in ranking order, so the lowest-scoring document wins |
| MergeStore.RecordRow.ApplyDocFieldsOf | records/matching.py:228-239 | overwrites the five fields in place as specified |
| MergeStore.RecordRow.RestoreFromSnapshot | records/matching.py:210-217 | restores exactly the five snapshot fields |
| MergeStore.RecordRow.Reactivate | records/matching.py:220-225 | reactivates the row and clears its Plaid id |
| MergeStore.Store.MergeDocument | records/matching.py:242-297 | merges in place exactly as specified, with its outcome |
| MergeStore.Store.UndoMerge | records/matching.py:300-340 | undoes in place exactly as specified, and reports whether it did |
| MergeStore.Store.TryMatchDocumentRecord | records/matching.py:343-356 | merges into the best Plaid record, or changes nothing when there is none |
| MergeStore.Store.TryMatchPlaidRecord | records/matching.py:359-384 | merges every match in ranking order and returns the merged records |
| Storage.SaveKeepsExact | documents/signals.py:31-53 | every save keeps the counter equal to the sum, stale copies included, and the clamp does nothing |
| Storage.DeleteKeepsExactIff | documents/signals.py:56-61 | deleting through a copy, its row present or gone, keeps the counter exact iff the copy's size, capped by the counter, is what the row counts for |
| Storage.SaveStoresSize | documents/signals.py:31-53 | what each kind of save stores, that other rows stay, and that the owner's counter moves by exactly that |
| Storage.DeleteRemovesRow | documents/signals.py:56-61 | a deletion removes the document's row, if it is there, and no other |
| Storage.RunKeepsExactIff | documents/signals.py:31-61 | over every run of saves and deletions from copies of any age the counter is the sum at every point iff every deletion subtracts what its row counts for |
| Storage.RunKeepsExact | billing/storage.py:39-53 | so it is when only fresh copies are deleted |
| Storage.DoubleDeletionSubtractsTwice | documents/views/detail.py:116-120 | a concrete double deletion through two copies leaves the counter wrong |
| Storage.RepairRestoresExactIff | billing/storage.py:56-88 | repair makes every counter exact iff no user without documents has a negative one, and a scoped repair touches no other user |
| Storage.Counter.AdjustStorageUsage | billing/storage.py:39-53 | adds the delta to one user's counter, clamped at zero |
| Storage.Counter.SnapshotStorageState | documents/signals.py:31-44 | records what was counted before: the stored size, or the copy's own for a save without file_size |
| Storage.Counter.SyncStorageCounter | documents/signals.py:47-53 | applies the difference between the copy's size and the recorded one |
| Storage.Counter.SaveDocument | documents/signals.py:31-53 | a save with both its signals is the specified one |
| Storage.Counter.DeleteDocument | documents/signals.py:56-61 | a deletion with its signal, which subtracts whether or not a row was hit, is the specified one |
| Storage.Counter.RunChecks | documents/services/validation.py:66-148 | which of the six verdicts is given, exactly; a confirmed upload of known size fits the quota and the counter stays exact; anything else leaves counter and rows alone |
| Storage.Counter.ReconcileStorageUsage | billing/storage.py:56-88 | the loop performs the specified repair and counts the rows it updated |

## Left out

- Stripe, Plaid, R2, Gemini, Dramatiq, Redis and e-mail calls: only their answers appear, in events and oracles.
- Views, forms, filters, templates, admin and migrations.
- Other steps between the writes of a sync, poll, attach, abort or deletion, and a crash between them.
- Waiting for row locks: a step either gets the row or, with `skip_locked`, does not.
- The interplay of several packages: one package is modelled, so an event whose metadata names another package finds no row, and the poll's loop over packages is one step per package.
- `can_be_paid_by` runs before the claim's lock on a possibly stale package, so its verdict enters a claim as a flag.
- Editing or archiving a packaged record: which of a package's records are active, and who owns them, is fixed.
- `account.updated` events, which touch no package or payment.
- The per-payment comparison with Stripe in the daily reconciliation and the daily deduplication of its findings.
- Amounts, titles, dates and notes texts of payer receipts beyond payer, currency and refund marks, and the title-and-merchant fallback that finds legacy receipts.
- The rounding of `amount_paid` to two decimals on storage, read only for legacy rows without an expected amount.
- The order in which the share query lists a package's grants: the records are visited in package order, which matters only if a revocation raises.
- Lenient `convert`/`convert_batch`, display totals and detail pages, notification texts, Python's 28-digit decimal context, non-ASCII case folding.
- rapidfuzz: an unspecified ratio, assumed symmetric where symmetry is claimed; the float comparisons of similarity are exact.
- Archiving a document record, and hard deletion, editing, unarchiving and manual relinking of records and documents between a merge and its undo.
- The Plaid synchronisation that rebuilds records for a bulk update.
- Notes, extensions and hashes of documents; upload links; billing plans behind the storage limit, which is a parameter.
