# Seller platform: billing, sessions, catalogue exchange and analytics, in Dafny

A model of the parts of the seller platform whose guarantees are about state kept right over long
runs or under interleaving, with proofs of those guarantees. `dafny verify dfyconfig.toml` checks
the project.

Services that change rows are classes whose methods change fields; each method is proved against
functions on the tables, and the theorems about runs are proved about those functions. Protocols
are transition systems: a run is any sequence of enabled steps, so a theorem about runs holds for
every order of calls and every time a sweep starts. Where the code reads in one statement and
writes in another, the two are separate steps, and anything may come in between, for: the rows
every billing sweep reads at its start; the pending check of a plan-fee request and its insert;
the look at a request (a seller's or a supplier's), the transaction that decides it, and the two
restores after it; the two statements of a non-payment pause; the existence check, the read and the commit of an invoice; the lock, the sum and the insert of a
guarded write; the subscription row of a supplier's debit; the two balances of the
reconciliation; the counter and the payout of a referral (`ReferralCalls`); and the validation and
rotation of a refresh, and the count and the creation of a session (`SessionCalls`). Within
one such step, and within one store's or one subscription's turn of a notice sweep, reads and
writes are not taken apart: a turn of a billing sweep reads the balance or the exemption and acts
on it at once, and writes all the notices it owes together.

| files | what they model |
|---|---|
| `Common`, `Text`, `Calendar` | small datatypes; ECMA-262 white space; days, months (section 21.4.1 of ECMA-262) and billing intervals |
| `BillingTables`, `GraceLadder`, `PlanFees`, `Retention` | the plan-fee tables and what each service call does to them |
| `Lifecycle`, `LifecycleRuns`, `PaymentRuns`, `LifecycleRaces` | all of those calls and sweeps as one transition system, the theorems over its runs, and runs that fail |
| `LowBalanceSweep`, `BillingServices` | the low-balance sweep as a whole; the same services as objects that loop over rows |
| `Ledger`, `LedgerRuns`, `SubscriptionRefund` | the ledger, its cached balance, concurrent transactions, reconciliation, the refund |
| `Invoices`, `InvoiceRuns`, `InvoiceCalls`, `InvoicesServices` | monthly invoices, with a seller's turn as one step and taken apart |
| `GuardedInserts`, `SupplierWallet`, `SupplierTopUps`, `EmailCampaigns`, `Products` | lock, add up, decide, insert, commit; its three instances; and the supplier's top-ups, which take no lock |
| `Sessions`, `SessionRuns`, `SessionLifetimes`, `SessionCalls`, `DeviceLimits`, `SessionServices`, `RefreshProtocol`, `RefreshOutcomes` | sessions in Redis, lifetimes that vary, logins and token rotation as one step and taken apart, and the browser's shared refresh against it |
| `Csv`, `ProductExport`, `ProductImport`, `ProductRoundTrip`, `StockImport` | CSV, product export and import, stock import |
| `Analytics`, `TopProducts`, `Segments`, `Referrals`, `ReferralCalls`, `WorkerPool` | charts, rankings, customer segments, referral payouts alone and overlapping, the load generator's pool |

Money is in the smallest currency unit, so `round2` of a sum is the sum; a share of an amount is
rounded half up, as `Math.round` does. Times are whole milliseconds (whole seconds for Redis) on
one clock. A table is a map or a sequence of rows, a statement or a `$transaction` is one step,
and a list of rows that a query returns comes in any order. Random ids and tokens are parameters
that must not have been issued before, and the hash of a token is identified with the token.
Settings are constants of a run; where a lowered limit matters, the run starts after it was lowered.

## Where the code and its own words differ

The model follows the code in each of these; the lemma named says exactly when they part.

- A non-payment pause is said to be the only thing that starts the retention clock, but it stamps
  every unstamped paused store of the seller, whatever that was paused for
  (`GraceLadder.OtherPausesGetStamped`).
- A verified plan fee is said to restart the retention window. It does exactly when the balance is
  below the warning threshold and the store is the seller's only one to restore, with no other active
  (`PaymentRuns.PaymentClearsStampExactly`). At or above the threshold the balance restore comes first
  and the stamp stays, for the next pause too (`PaymentRuns.LeftoverStampExpiresEarly`); and with a
  second store, such as one paused over the store limit, the index refuses the restore and both stay on
  the clock (`LifecycleRaces.PaidForNothing`). The gateway's own verification restores nothing
  (`PaymentRuns.GatewayPaymentRestoresNothing`).
- Warnings are said to belong to one pause episode. A sweep that writes after a payment has
  overtaken its read carries a flag over (`LifecycleRuns.FlagsStayCurrentExactly`,
  `LifecycleRaces.FlagCarriedOver`). Each is said to be sent once; of two sweeps that both read the
  store before either writes, both send it (`LifecycleRuns.SentAgainExactly`,
  `PaymentRuns.RemindedAgainExactly`, `LifecycleRaces.WarnedTwice`).
- Three warnings are said to come before a deletion. The sweep warns the stores it finds paused as it
  starts, and deletes what it finds expired once the warnings are out: a store that a balance restore
  put back on sale with its old stamp, and that is stopped again in between, is deleted with whatever
  other sweeps had sent about it, which may be nothing (`LifecycleRuns.DeletedStoreWasWarned`,
  `LifecycleRuns.FlagExactly`, `LifecycleRaces.DeletedUnwarned`).
- A payment is said to restore the stores at once. The verification, the balance check and the
  plan-fee restore commit one after another, and only the last saves a store from a deletion under way
  (`LifecycleRuns.DeletedExactly`, `LifecycleRaces.DeletedAfterPayment`). That restore looks for the
  stamp, which the pause writes after it has stopped the stores: of a fee carried through in between,
  nothing is seen, and the stamp follows (`LifecycleRuns.RestoreMovesExactly`,
  `LifecycleRuns.StampTakesExactly`, `LifecycleRaces.PaidThenStamped`).
- A request is said to be resolved once, and one at a time to be pending per seller. Both checks are
  made before the write they guard: overlapping decisions count one fee twice
  (`PaymentRuns.DecidedOnceExactly`, `LifecycleRaces.VerifiedTwice`), or credit a supplier's top-up twice
  (`SupplierTopUps.BalanceExactly`, `SupplierTopUps.CreditedTwice`), and overlapping requests without
  a reference are both pending (`PaymentRuns.OnePendingExactly`, `LifecycleRaces.TwoPending`); the
  cooldown of a reference closes the second gap for as long as it lasts
  (`PaymentRuns.PromptNeverOvertaken`).
- `postLedgerEntry` is said to be the one function that creates wallet entries. The subscription
  refund and the discount chargeback
  (apps/api/src/trust-safety/subscription-abuse.service.ts:134-136) insert directly, and the cached
  balance falls short by exactly that (`LedgerRuns.DriftIsWhatBypassed`,
  `LedgerRuns.DirectInsertIsReported`).
- Reconciliation is said to flag drift. It also flags a balance that moves between its two reads
  (`LedgerRuns.TornReadAlarm`, `LedgerRuns.TopUpRaisesFalseAlarm`).
- One commission invoice per seller and month is promised. A group invoice of the same month, made
  first, takes its place for good (`InvoiceRuns.NeverBilled`, `InvoiceRuns.GroupInvoiceFirst`), and
  two overlapping runs make two (`InvoiceCalls.SecondInvoiceExactly`) that can ask for one entry
  twice (`InvoiceCalls.AttachedOnceExactly`, `InvoiceCalls.OverlapBillsTwice`). Which entries are
  billed at all is `InvoiceRuns.BilledInRunExactly`.
- Paying an invoice is said to lift the suspension it caused. It lifts every suspension of the seller,
  another overdue invoice's and an admin's included (`InvoicesServices.OnePaidLiftsAll`).
- A group invoice is said to bill the active sponsored members. It counts active memberships, which the
  sweep of an unpaid group invoice leaves as they are while it ends the sponsorships
  (`InvoicesServices.SponsoredExactly`, `InvoicesServices.BilledUnsponsored`).
- Referral payouts are said to be capped. The counter is read before the transaction that increments
  it, so overlapping accruals can pass the cap (`ReferralCalls.CapKeptExactly`,
  `ReferralCalls.PaidPastTheCap`).
- The campaign quota is said to be reserved under a lock. The worker that records the live audience
  takes no lock and does not look at the quota (`EmailCampaigns.MonthlyQuotaExactly`,
  `GuardedInserts.RaiseOverdraws`).
- The supplier debit is said to close the check-then-write race. It does for the balance; two
  overlapping sweeps still take two fees for one period (`SupplierWallet.PeriodsGrantedExactly`,
  `SupplierWallet.TwoFeesForOnePeriod`).
- The password reset and the detection of a reused token are said to invalidate every session. They do
  with one lifetime per user (`SessionRuns.NoEarlierTokenValidates`). With several, they miss exactly
  the live sessions that are older than a moment at which the index key had run out
  (`SessionLifetimes.SurvivesRevocationExactly`, `SessionLifetimes.LongOutlivesReset`).
- Reuse detection is said to mean a copied token. It means that a pair accepted less than a day ago
  came again (`RefreshProtocol.ReusedExactly`, `RefreshProtocol.ReusedExactlyInOneTab`). A lost reply,
  two tabs refreshing at once, and a rotation refused by a device limit that was lowered below the
  number of ids in the index (an extra device slot taken away) each look the same
  (`RefreshProtocol.LostReplyLooksLikeTheft` and its two neighbours); with a fixed limit the last
  cannot happen (`RefreshProtocol.FixedLimitNeverTakenForReuse`). Two refreshes with one pair that
  overlap are both granted (`SessionCalls.ExchangedOnceExactly`, `SessionCalls.OnePairTwoSessions`).
- The device limit is said to count active sessions. It counts the index, where sessions that ran
  out by themselves stay (`Sessions.RefusedExactly`, `SessionRuns.MemberOrigin`,
  `SessionRuns.RefusedBelowLimit`); and it counts before it creates, so that overlapping logins pass it
  (`DeviceLimits.LimitKeptExactly`, `DeviceLimits.PastTheLimit`).
- A customer's location is said to be the most recent order's. It is the newest complete address
  (`Segments.MostRecentOrderExactly`).
- A self-export is said to round-trip. It does if and only if every product is whole
  (`ProductRoundTrip.SelfExportRoundTrips`; `ProductRoundTrip.SameExactly` says what that takes); the
  others lose exactly what `ProductRoundTrip.ImportOfExportText` states.

## Model

| member | source | states |
|---|---|---|
| `GraceLadder.NonPaymentPauses` | apps/api/src/billing/wallet-grace-ladder.service.ts:210-244 | a non-payment pause stops every selling store of the seller, never moves a stamp that is there, and touches no other seller |
| `GraceLadder.OtherPausesGetStamped` | apps/api/src/billing/wallet-grace-ladder.service.ts:203-219 | a store paused for another reason is put on the retention clock exactly when the seller has another store that is selling (the comment says never) |
| `GraceLadder.PaymentUndoesPause` | apps/api/src/billing/wallet-grace-ladder.service.ts:145-219 | for a lone store the plan-fee restore undoes the non-payment pause completely: status, stamp and flags |
| `GraceLadder.RestoreNeedsOneStore` | apps/api/src/billing/wallet-grace-ladder.service.ts:145-169 | the restore goes through if and only if it leaves at most one of the seller's stores active, as the partial unique index demands |
| `GraceLadder.LadderPausesExactly` | apps/api/src/billing/wallet-grace-ladder.service.ts:257-307 | a turn of the low-balance sweep stops a selling seller exactly below the floor, or below the threshold with a warning whose grace is over |
| `LifecycleRuns.LadderOrigin` | apps/api/src/billing/wallet-grace-ladder.service.ts:287-298 | in every run a warning that stands was given by an earlier turn of a sweep, which set the end of the grace with it |
| `LifecycleRuns.PausedOnlyAfterGrace` | apps/api/src/billing/wallet-grace-ladder.service.ts:262-304 | in every run a seller above the floor is paused for a low balance only a full grace window after a warning, although the sweep acts on rows read at its start |
| `Lifecycle.FloorCheckExactly` | apps/api/src/billing/wallet-grace-ladder.service.ts:193-200 | the floor check stops a selling seller if and only if the balance is below the floor |
| `PlanFees.DebitVisitExactly` | apps/api/src/billing/plan-fee-debit.service.ts:155-195 | a due, selling seller is stopped if and only if the plan has a price, its period ended at least the grace days ago, and the seller's stores do not all fit into free slots; if they do fit, the period moves on by one interval and every reminder is due again |
| `PlanFees.UndisturbedTurn` | apps/api/src/billing/wallet-grace-ladder.service.ts:210-219 | a debit turn taken in its two statements, stop and stamp, with nothing in between is the turn |
| `Retention.ExpiredIsFullyWarned` | apps/api/src/billing/retention.service.ts:96-122 | a row that is old enough to be deleted gets whatever it has not had of the warnings whose day the window reaches: all three, for windows of a week or more |
| `Retention.NoticeTimes` | apps/api/src/billing/retention.service.ts:96-122 | when each notice is due, in days: the warnings at 0, 7 and one day before the window closes, the win-backs at 3, 7 and 14, to a paused and stamped store that has not had it, and to no other |
| `Retention.FinalWarningOnLastDay` | apps/api/src/billing/retention.service.ts:96-139 | a warnings sweep in the last day before a store expires leaves the final warning on it, while the store is no candidate for deletion yet |
| `Retention.ShortWindowSkipsAWarning` | apps/api/src/billing/retention.service.ts:96-139 | for every shorter window some expired store is never owed the day-7 warning |
| `Retention.NotifyKeepsFlagsExactly` | apps/api/src/billing/retention.service.ts:105-120 | writing a flag from the row read earlier keeps the flags within the current pause episode if and only if the sweep started within that episode or owes nothing |
| `Retention.FreshNoticeIsInTime` | apps/api/src/billing/retention.service.ts:105-120 | written before anything else happens to the store, a notice is always in time |
| `Lifecycle.StoreStep` | apps/api/src/billing/wallet-grace-ladder.service.ts:112-219 | everything one step of any service can do to one store: deleted by the re-check, stamped for an overdue fee, restored by a paid fee, notified, or stamp kept and status changed only by a bare reactivation |
| `Lifecycle.NewStores` | apps/api/src/billing/wallet-grace-ladder.service.ts:112-244 | no step creates a store that is already paused or stamped |
| `Lifecycle.VisitedOnce` | apps/api/src/billing/retention.service.ts:110-120 | a sweep takes its turn on each row it has read once |
| `LifecycleRuns.StampOrigin` | apps/api/src/billing/wallet-grace-ladder.service.ts:210-219 | in every run, every retention stamp was set by the second statement of a non-payment pause that a debit sweep had begun, at that step's time, and has stood since |
| `LifecycleRuns.StopOrigin` | apps/api/src/billing/wallet-grace-ladder.service.ts:210-244 | behind a stamp that is still to be written is the turn of the same sweep that stopped the seller, who was selling, whose plan had a price and had ended the grace days before the sweep read it, and whose stores were not all free |
| `LifecycleRuns.StampTakesExactly` | apps/api/src/billing/wallet-grace-ladder.service.ts:210-219 | the stamp puts a store of the seller on the clock if and only if it is paused as the stamp is written, whatever has been paid since the pause began |
| `LifecycleRuns.DeletionTiming` | apps/api/src/billing/retention.service.ts:132-179 | in every run a deleted store was stamped a full retention window before the deleting sweep began, in a pause of a seller whose paid plan's period had ended the grace days before the debit sweep read it, and kept that stamp |
| `LifecycleRuns.StaysPausedExactly` | apps/api/src/billing/wallet-grace-ladder.service.ts:112-134 | within one stamp a store is off the clock at some point if and only if a balance restore or an over-limit reclaim reactivated it |
| `LifecycleRuns.LowBalanceNeverReactivates` | apps/api/src/billing/wallet-grace-ladder.service.ts:112-124 | below the warning threshold, no step but a reclaim reactivates a paused store without clearing its stamp |
| `LifecycleRuns.DeletedOnlyAfterUnbrokenPause` | apps/api/src/billing/retention.service.ts:132-179 | between the stamp and the deletion no plan-fee restore took the store off the clock, and it was paused without a break if and only if no bare reactivation came in between; with balances below the threshold and no reclaim in that time, it was |
| `Lifecycle.UndisturbedVerification` | apps/api/src/billing/wallet.controller.ts:215-253 | with nothing in between, the look, the transaction, the balance check and the plan-fee restore are verifyOne |
| `Lifecycle.UndisturbedRequest` | apps/api/src/billing/wallet.service.ts:369-399 | with nothing in between, the check and the insert of a plan-fee request are the request, or its refusal |
| `LifecycleRuns.PaidStoresLeaveTheClock` | apps/api/src/billing/wallet.controller.ts:222-231 | the plan-fee restore of a verification leaves none of the seller's stores on the retention clock, whatever came between the three commits |
| `LifecycleRuns.RestoreMovesExactly` | apps/api/src/billing/wallet-grace-ladder.service.ts:145-169 | a plan-fee restore that goes through moves a store of its seller if and only if the store is on the clock by then |
| `LifecycleRuns.RestoreFollowsPayment` | apps/api/src/billing/wallet.controller.ts:215-231 | behind every such restore is an earlier commit of the same call that verified a plan fee of that seller |
| `LifecycleRuns.FlagsStayCurrentExactly` | apps/api/src/billing/retention.service.ts:96-122 | in every run a store's sent flags have belonged to its current episode throughout if and only if no notice was written after a payment overtook the sweep's read |
| `LifecycleRaces.FlagCarriedOver` | apps/api/src/billing/retention.service.ts:96-122 | a run in which that happens: the store sells again with a warning already marked as sent |
| `LifecycleRuns.DeletedExactly` | apps/api/src/billing/retention.service.ts:132-179 | in every run the re-check of a store the query found expired deletes it if and only if it is paused at that moment and no plan-fee restore has taken it off the clock since the query |
| `LifecycleRaces.DeletedAfterPayment` | apps/api/src/billing/wallet.controller.ts:215-231 | a run in which a store is deleted between the commit that verifies its seller's fee and the restore |
| `LifecycleRaces.PaidThenStamped` | apps/api/src/billing/wallet-grace-ladder.service.ts:210-219 | a run in which a fee, verified and carried through between the two statements of the pause, leaves the store stopped and on the retention clock |
| `LifecycleRuns.DeletedStoreWasWarned` | apps/api/src/billing/retention.service.ts:89-157 | in every run, whatever was reactivated before: a deleted store that was paused as its sweep read the paused stores carries every warning the window leaves room for; otherwise it carries one if and only if another sweep sent it and no restore has cleared it since; and its flags belong to its episode if every notice was in time |
| `LifecycleRuns.FinalWarningComesFirst` | apps/api/src/billing/retention.service.ts:96-157 | in every run a warnings sweep that begins in that last day and reaches the store leaves the final warning on it until it is deleted, which only another sweep can do |
| `LifecycleRuns.FlagExactly` | apps/api/src/billing/retention.service.ts:96-122 | in every run a store carries a notice's flag if and only if a turn sent that notice about it and the store has been neither removed nor restored since |
| `LifecycleRaces.DeletedUnwarned` | apps/api/src/billing/retention.service.ts:89-157 | a run, for every retention window, that deletes a store no warning was ever sent about: a top-up put it back on sale with its old stamp, and it was stopped again after the sweep had read the paused stores |
| `LifecycleRuns.SentAgainExactly` | apps/api/src/billing/retention.service.ts:96-122 | after a notice has gone out, and until a plan-fee restore, a later turn sends it again if and only if its sweep had read the store by then, when the notice was due |
| `LifecycleRaces.WarnedTwice` | apps/api/src/billing/retention.service.ts:96-122 | a run of two overlapping sweeps that mail one warning twice about one pause |
| `LifecycleRuns.RestoreDefeatsDeletion` | apps/api/src/billing/retention.service.ts:159-174 | a restore between the candidate query and the re-check saves the store, even if it is paused again before the re-check |
| `PlanFees.VerifyEffect` | apps/api/src/billing/wallet.service.ts:454-513 | a verification resolves its own request only and credits its amount to its own seller only; if a fee was paid the period ends one interval after the verification, or for a renewal after its previous end, and every reminder is due again |
| `PlanFees.VerifyRefusedExactly` | apps/api/src/billing/wallet.service.ts:454-499 | which verifications are refused, and why: unknown, already decided, no subscription, or a renewal without a period |
| `PlanFees.RequestRefusedExactly` | apps/api/src/billing/wallet.service.ts:352-399 | which plan-fee requests are refused, and why: one pending, no subscription, or a first payment while new subscriptions are paused; any other is inserted as pending with the fee and no credit |
| `PlanFees.RequestKeepsPaidUp` | apps/api/src/billing/wallet.service.ts:369-399 | undisturbed, a request keeps the paid-period law and at most one request pending |
| `PlanFees.VerifyKeepsPaidUp` | apps/api/src/billing/wallet.service.ts:480-512 | a verification keeps the paid-period law: first payment starts the cycle, later ones stack |
| `PlanFees.InsertPends` | apps/api/src/billing/wallet.service.ts:390-399 | an insert keeps at most one request pending exactly when it finds none of that seller's |
| `PlanFees.VerifiedTwiceGrantsTwo` | apps/api/src/billing/wallet.service.ts:463-513 | the transaction does not look at the status again: run twice for one renewal it moves the period on by two cycles |
| `PlanFees.FreeFirstPaymentStartsNothing` | apps/api/src/billing/wallet.service.ts:480-512 | a first payment of nothing is verified, and counts as paid before, without starting a period |
| `PaymentRuns.PaidPeriodLaw` | apps/api/src/billing/wallet.service.ts:454-513 | in every run in which no two decisions on a plan-fee request of the seller overlap and the seller is not renewed for free, after n verified positive payments the period ends 12 n, 3 n or n months after the first verification, or 6 n to 7 n months for the half-yearly plan, at the same time of day and on the same day where the months have it, whatever the delays of the later payments |
| `PaymentRuns.OnePendingExactly` | apps/api/src/billing/wallet.service.ts:369-399 | in every run at most one plan-fee request of a seller is pending if and only if no call inserts one while another, inserted since it asked, is undecided |
| `PaymentRuns.PromptNeverOvertaken` | apps/api/src/platform-gateway/platform-gateway.service.ts:299-304 | two requests with references never overtake each other as long as each inserts before its cooldown is over |
| `LifecycleRaces.TwoPending` | apps/api/src/billing/wallet.service.ts:369-399 | two requests without a reference, both asked for before either is inserted, are both pending |
| `PaymentRuns.SecondDecisionExactly` | apps/api/src/billing/wallet.service.ts:454-467 | a decision commits on a request that is already decided if and only if another came between its look and its commit |
| `PaymentRuns.DecidedOnceExactly` | apps/api/src/billing/wallet.service.ts:454-548 | in every run a request is decided at most once if and only if no two decisions on it overlap |
| `LifecycleRaces.VerifiedTwice` | apps/api/src/billing/wallet.service.ts:454-513 | a run in which two overlapping verifications record one fee as two payments of a single period |
| `PaymentRuns.ResolvedForever` | apps/api/src/billing/wallet.service.ts:454-458 | in every run in which no two decisions on it overlap, a request that is verified or rejected never changes again |
| `PaymentRuns.RemindedAgainExactly` | apps/api/src/billing/renewal-reminders.service.ts:33-71 | after a reminder has gone out, and until a renewal, a later turn sends it again if and only if its sweep had read the subscription by then, when the reminder was due |
| `PaymentRuns.PaymentClearsStampExactly` | apps/api/src/billing/wallet.controller.ts:222-231 | undisturbed, a verified plan fee takes the stamp off a store of the seller if and only if the balance is below the warning threshold and the store is the only one to restore, with no other active; when it is reactivated and when the call fails are exact as well |
| `LifecycleRaces.PaidForNothing` | apps/api/src/billing/wallet.controller.ts:222-231 | a run in which the paid fee takes neither of two stores off the clock, one of them paused over the store limit |
| `PaymentRuns.LeftoverStampExpiresEarly` | apps/api/src/billing/wallet-grace-ladder.service.ts:210-219 | a stamp left behind that way is never moved: the next pause is deleted on the old clock |
| `PaymentRuns.GatewayPaymentRestoresNothing` | apps/api/src/billing/wallet.service.ts:406-412 | the gateway's automatic verification leaves every store as it was |
| `PaymentRuns.OneActiveThroughRun` | apps/api/prisma/migrations/20261010090000_single_active_store_per_seller/migration.sql:37-37 | in every run no seller ever has two active stores |
| `Calendar.AddMonthsLands` | apps/api/src/plans/plan-pricing.util.ts:106-115 | a billing step lands in exactly the month asked for, on the same day or that month's last, at the same time of day |
| `Calendar.GregorianCalendar` | apps/api/src/plans/plan-pricing.util.ts:106-115 | a day is 24 hours, 1 January 1970 is day 0, and the months have the Gregorian lengths |
| `Calendar.MonthBegins` | apps/api/src/billing/invoices.service.ts:11-15 | the start of a month is midnight of its first day |
| `Calendar.LandsOnce` | apps/api/src/plans/plan-pricing.util.ts:106-115 | month, clamped day and time of day leave one time to land at |
| `Calendar.IntervalLands` | apps/api/src/plans/subscriptions.service.ts:50-59 | a yearly, quarterly or monthly step lands 12, 3 or 1 months on, on the same day or the month's last, at the same time of day; a half-yearly one 15 days after landing 6 months on |
| `Calendar.CyclesLand` | apps/api/src/plans/subscriptions.service.ts:50-59 | n steps end 12 n, 3 n or n months on, never on a later day of the month, and on the same one up to the 28th; half-yearly ones 6 n to 7 n months on |
| `Calendar.CyclesIncrease` | apps/api/src/plans/subscriptions.service.ts:50-59 | more cycles end strictly later |
| `BillingServices.WalletGraceLadderService.CheckAndRestore` | apps/api/src/billing/wallet-grace-ladder.service.ts:112-134 | statement by statement it is the function the run theorems use, including the refused update |
| `BillingServices.WalletGraceLadderService.RestoreAfterPlanFeePayment` | apps/api/src/billing/wallet-grace-ladder.service.ts:145-179 | the update is the modelled restore, all or nothing |
| `BillingServices.WalletGraceLadderService.PauseActiveStoresForNonPayment` | apps/api/src/billing/wallet-grace-ladder.service.ts:210-219 | the two updates are the modelled pause, and the count is of the stores that were selling |
| `BillingServices.WalletGraceLadderService.CheckImmediateFloorPause` | apps/api/src/billing/wallet-grace-ladder.service.ts:193-200 | pauses exactly a selling seller below the floor |
| `BillingServices.WalletGraceLadderService.RunSweep` | apps/api/src/billing/wallet-grace-ladder.service.ts:257-307 | whatever the order of the sellers, exactly those below the floor or past their grace are stopped, those unwarned below the threshold warned, those recovered restored; the counters are the sizes of those sets; a restore the index refuses ends it there |
| `LowBalanceSweep.SweepIsExact` | apps/api/src/billing/wallet-grace-ladder.service.ts:268-307 | the sweep throws exactly when a seller to be restored has two stores that are not suspended, and otherwise does to every seller what its own row calls for |
| `LowBalanceSweep.RestoreFits` | apps/api/src/billing/wallet-grace-ladder.service.ts:119-122 | the index refuses a seller's restore exactly when two of its stores are not suspended |
| `BillingServices.PlanFeeDebitService.DebitDuePlanFees` | apps/api/src/billing/plan-fee-debit.service.ts:146-198 | in whatever order the rows come, a selling seller is stopped if and only if the plan has a price, its period ended at least the grace days ago and the stores do not all fit into free slots; the renewed ones move on, and the count is of the sellers stopped |
| `BillingServices.NoticeService.SendNotices` | apps/api/src/billing/retention.service.ts:104-121 | in whatever order, a store gets exactly the notices asked for whose day, in numbers, has come since its stamp and that it has not had; each is mailed once, and the counter is the number of mails |
| `BillingServices.RetentionService.SendWarnings` | apps/api/src/billing/retention.service.ts:96-122 | undisturbed, a paused store is mailed its first warning from the start, the second from day 7 and the last from the day before the window closes, each if it has not been sent |
| `BillingServices.RetentionService.DeleteStoreIfStillEligible` | apps/api/src/billing/retention.service.ts:159-174 | the re-check deletes exactly a store that is still paused under the expected stamp |
| `BillingServices.RetentionService.RunDeletionSweep` | apps/api/src/billing/retention.service.ts:132-157 | undisturbed, the sweep deletes exactly the paused stores stamped a full window ago, audits each once, and touches nothing else |
| `BillingServices.RenewalRemindersService.SendPreExpiryAndExpiryDayReminders` | apps/api/src/billing/renewal-reminders.service.ts:33-71 | undisturbed, a paid plan's reminders go out within 7, 3 and 1 days before its end and from its end on, each once |
| `BillingServices.RenewalRemindersService.SendWinbackReminders` | apps/api/src/billing/renewal-reminders.service.ts:73-98 | undisturbed, the win-back mails go out from days 3, 7 and 14 of the pause on, each once |
| `BillingServices.WalletService.VerifyTopUp` | apps/api/src/billing/wallet.service.ts:454-538 | the transaction is the modelled one, an exception in it changes nothing, and the result says whether it was a renewal |
| `BillingServices.WalletService.RequestPlanFeePayment` | apps/api/src/billing/wallet.service.ts:352-415 | cool-down, pending, missing subscription and paused-signups errors in the code's order, and a gateway verification right after the insert |
| `BillingServices.AdminWalletController.VerifyOne` | apps/api/src/billing/wallet.controller.ts:215-253 | verify, balance restore, plan-fee restore, in that order, each kept when a later one fails |
| `BillingServices.AdminWalletController.BulkDecide` | apps/api/src/billing/wallet.controller.ts:185-213 | every id is reported once, no request is decided twice, and requests that are not mentioned do not change |
| `Ledger.SignConvention` | apps/api/src/billing/wallet.service.ts:21-57 | each type named: eight debits lower by their amount, five credits raise by it, waivers and refunds are entered negative and raise, and the six dormant types do nothing |
| `Ledger.WalletService.PostLedgerEntry` | apps/api/src/billing/wallet.service.ts:166-178 | both writes happen, so nobody's cached balance drifts from their ledger |
| `Ledger.WalletService.GetBalance` | apps/api/src/billing/wallet.service.ts:128-131 | the cached balance is the ledger sum plus the drift, zero without a row |
| `Ledger.WalletService.ComputeLedgerBalance` | apps/api/src/billing/wallet.service.ts:140-148 | the fold over the seller's entries is the ledger sum |
| `Ledger.CommissionBounds` | apps/api/src/billing/ledger.service.ts:33-84 | commission is never negative, never more than the taxless order, and never more than without the launch discount, when it is the base rate's share to within half a unit |
| `Ledger.CommissionExactly` | apps/api/src/billing/ledger.service.ts:33-84 | the commission is the taxless total times the rate, to the nearest unit with halves up; the rate is the base rate, less the discount of a campaign that has one, has not expired and has room for the seller, and never negative |
| `Ledger.LedgerService.AccrueCommission` | apps/api/src/billing/ledger.service.ts:33-59 | one commission_accrued entry lowers the balance by its amount, the nearest unit to the taxless total times the rate that the campaign leaves |
| `Ledger.LedgerService.WaiveCommission` | apps/api/src/billing/ledger.service.ts:87-101 | whatever the sign of the amount, a waiver raises the balance by its size |
| `Ledger.LedgerService.ReverseCommissionForRefund` | apps/api/src/billing/ledger.service.ts:115-130 | a positive amount is given back once, anything else is a no-op |
| `Ledger.WalletReconciliationService.RunSweep` | apps/api/src/billing/wallet-reconciliation.service.ts:29-62 | reports exactly the sellers whose cache has drifted, once each, with the amounts, and leaves the wallet alone |
| `LedgerRuns.AgreesStep` | apps/api/src/billing/wallet.service.ts:166-178 | an open transaction's copy of a balance row stays the committed one plus its own posts, because nobody else can lock the row |
| `LedgerRuns.UndisturbedPost` | apps/api/src/billing/wallet.service.ts:166-178 | with nothing in between, a transaction of one post is postLedgerEntry |
| `LedgerRuns.DriftIsWhatBypassed` | apps/api/src/billing/wallet.service.ts:166-178 | in every run of interleaved transactions, cache minus ledger is minus the signed sum of what was inserted around postLedgerEntry |
| `LedgerRuns.ReportedExactly` | apps/api/src/billing/wallet-reconciliation.service.ts:35-48 | from an empty database the sweep reports a seller if and only if the bypassing inserts do not cancel out |
| `LedgerRuns.TornReadAlarm` | apps/api/src/billing/wallet-reconciliation.service.ts:37-43 | as the two balances are read in separate transactions, in either order, a false alarm is raised exactly when the balance moved between the reads |
| `LedgerRuns.DirectInsertIsReported` | apps/api/src/billing/subscription-refund.service.ts:124-133 | a run with one entry inserted around postLedgerEntry, whose seller is then reported |
| `LedgerRuns.TopUpRaisesFalseAlarm` | apps/api/src/billing/wallet-reconciliation.service.ts:37-43 | a run without any drift in which a top-up between the two reads is reported |
| `LedgerRuns.WithoutTheLockAnUpdateIsLost` | apps/api/src/billing/wallet.service.ts:159-164 | a read-then-write without the row lock loses one of two equal credits |
| `SubscriptionRefund.SubscriptionRefundService.CancelWithRefund` | apps/api/src/billing/subscription-refund.service.ts:30-121 | who gets the one-time refund and why others do not, its amount to the nearest unit, that the marker is set for ever, and that the cache falls behind by exactly the refund |
| `SubscriptionRefund.SubscriptionRefundService.PostRefund` | apps/api/src/billing/subscription-refund.service.ts:124-133 | the refund row is inserted without the cache, so the drift moves by minus the amount |
| `Invoices.PreviousMonthIsWhole` | apps/api/src/billing/invoices.service.ts:11-15 | a run bills a whole calendar month that is over; two runs bill the same month or disjoint ones |
| `Invoices.AttachedExactly` | apps/api/src/billing/invoices.service.ts:56-104 | a run attaches an entry if and only if it is an unattached commission entry of the month whose seller is on the list and has no invoice of any kind for the month |
| `Invoices.InvoiceSellerSound` | apps/api/src/billing/invoices.service.ts:79-99 | one seller's turn inserts nothing, or one pending invoice for the month that totals its entries and is due the grace days after the month's end, and keeps entries on invoices of their own seller and month |
| `Invoices.InvoiceAllSound` | apps/api/src/billing/invoices.service.ts:56-104 | a whole month's run keeps that, re-attaches nothing and re-bills nothing |
| `Invoices.TotalIsMinusContribution` | apps/api/src/billing/invoices.service.ts:88-88 | what an invoice asks for is what its entries took from the balance |
| `Invoices.AttachedAdds` | apps/api/src/billing/invoices.service.ts:80-94 | an invoice's total is a plain sum of its entries' amounts |
| `InvoiceCalls.AttachedOnceExactly` | apps/api/src/billing/invoices.service.ts:74-99 | in every run of interleaved turns, every entry stays on the invoice it was put on if and only if no two turns that share an entry overlap from read to commit |
| `InvoiceCalls.RebilledExactly` | apps/api/src/billing/invoices.service.ts:79-99 | a commit bills an entry again exactly when another turn's commit of it came after its read |
| `InvoiceCalls.SecondInvoiceExactly` | apps/api/src/billing/invoices.service.ts:74-99 | a commit gives a seller a second invoice for the month exactly when the first was inserted between its check and its commit |
| `InvoiceCalls.TotalsRightUnlessShared` | apps/api/src/billing/invoices.service.ts:80-98 | unless turns share an entry, every commission invoice says what its entries come to |
| `InvoiceCalls.UndisturbedTurn` | apps/api/src/billing/invoices.service.ts:74-99 | with nothing in between, a turn is the one step of the other invoice theorems |
| `InvoiceCalls.OverlapBillsTwice` | apps/api/src/billing/invoices.service.ts:74-99 | a run in which two overlapping runs ask for one commission twice, the entry being on the second invoice only |
| `InvoiceCalls.InvoiceNeverChanges` | apps/api/src/billing/invoices.service.ts:92-98 | in every run of interleaved turns an invoice changes in its status only |
| `InvoiceCalls.TotalsStayRight` | apps/api/src/billing/invoices.service.ts:88-98 | unless turns share an entry, a commission invoice's total is at all times the sum of its entries and minus their contribution |
| `InvoiceRuns.RerunChangesNothing` | apps/api/src/billing/invoices.service.ts:56-77 | billing a month again changes nothing, whatever happened since, unless an entry is dated into the closed month |
| `InvoiceRuns.BilledExactly` | apps/api/src/billing/invoices.service.ts:74-98 | billing the seller for the month bills an entry of it if and only if no invoice of theirs for the month stands in the way |
| `InvoiceRuns.BilledInRunExactly` | apps/api/src/billing/invoices.service.ts:56-104 | in every run a loose entry comes to be on an invoice if and only if some turn of its seller, for its month, found no invoice in the way |
| `InvoiceRuns.GroupInvoiceCounts` | apps/api/src/billing/invoices.service.ts:184-219 | a group invoice is an invoice of the leader for the month |
| `InvoiceRuns.NeverBilled` | apps/api/src/billing/invoices.service.ts:74-77 | an entry still loose when its seller has any invoice for the month is never billed in any continuation: a group invoice made first loses the leader's commission |
| `InvoiceRuns.GroupInvoiceFirst` | apps/api/src/billing/invoices.service.ts:184-219 | a run that leaves such an entry, for any leader of a team with members |
| `InvoicesServices.InvoicesService.InvoiceOne` | apps/api/src/billing/invoices.service.ts:79-99 | the two loops are the modelled attachment: the invoice totals its entries and is due the grace days after the month's end, and no balance changes |
| `InvoicesServices.InvoicesService.GenerateMonthlyInvoices` | apps/api/src/billing/invoices.service.ts:56-104 | the loop is the modelled run, counts the new invoices, and moves no money |
| `InvoicesServices.InvoicesService.GenerateMonthlyGroupInvoices` | apps/api/src/billing/invoices.service.ts:184-219 | in whatever order the teams come, exactly one new group invoice for each team with members that has none for the month, older invoices untouched, and none left to bill |
| `Invoices.GroupRunExactly` | apps/api/src/billing/invoices.service.ts:188-217 | each sponsored team is billed exactly once, and nobody else |
| `Invoices.GroupRerunIsIdle` | apps/api/src/billing/invoices.service.ts:191-194 | a run that finds no team to bill adds nothing |
| `InvoicesServices.InvoicesService.WaiveCommission` | apps/api/src/billing/invoices.service.ts:222-242 | refused without an accrued entry for the order; otherwise one negative entry that raises the balance |
| `InvoicesServices.InvoicesService.MarkPaid` | apps/api/src/billing/invoices.service.ts:149-175 | pays an existing unpaid invoice; a commission invoice then reactivates all suspended stores of its seller or, if the index refuses that, fails with the invoice paid |
| `InvoicesServices.InvoicesService.SweepOverdueInvoicesAndSuspend` | apps/api/src/billing/invoices.service.ts:120-146 | in whatever order, exactly the pending invoices past their due date become overdue, the sellers of the commission invoices among them stop selling, and the active members of the group invoices' teams are downgraded; the count is of the stores stopped |
| `InvoicesServices.SponsoredExactly` | apps/api/src/plans/subscriptions.service.ts:427-455 | a sponsored member keeps its sponsor through the sweep if and only if no group invoice of a team it is active in has fallen due, and otherwise pays for itself, at once if it had no period to wait for |
| `InvoicesServices.BilledUnsponsored` | apps/api/src/billing/invoices.service.ts:184-219 | the next group invoice of a team whose invoice fell due bills a seat for every active member, none of whom is sponsored any more |
| `InvoicesServices.OnePaidLiftsAll` | apps/api/src/billing/invoices.service.ts:158-163 | paying one of several overdue invoices lifts the whole suspension, and the next sweep stops the store again if and only if another invoice of the seller falls due that was not overdue yet |
| `GuardedInserts.LockInvariantStep` | apps/api/src/billing/supplier-wallet.service.ts:83-93 | what the lock owner counted cannot shrink before it commits, whatever else commits, unless a row is made to cost more |
| `GuardedInserts.TotalAppend` | apps/api/src/billing/supplier-wallet.service.ts:46-56 | what a check adds up is a plain sum: a committed row counts in every window it is dated in, and in no other |
| `GuardedInserts.MutualExclusion` | apps/api/src/billing/supplier-wallet.service.ts:83-93 | two transactions inside their critical sections are one |
| `GuardedInserts.NeverOverdrawn` | apps/api/src/billing/supplier-wallet.service.ts:76-94 | in every interleaving of guarded inserts with unlocked credits and lowered costs the headroom is never negative |
| `GuardedInserts.PairedWrites` | apps/api/src/billing/plan-fee-debit.service.ts:105-119 | committed inserts and their paired updates are one to one in every interleaving |
| `GuardedInserts.QuotaPerWindow` | apps/api/src/campaigns/email-campaigns.service.ts:94-105 | what is spent in any window stays within the limit when every row was checked over at least that window and none was raised |
| `GuardedInserts.RoomLeftExactly` | apps/api/src/campaigns/email-campaigns.service.ts:223-226 | when rows are also made to cost more without the lock, something is left of a window at every moment if and only if every rise was left over, the transaction in flight included |
| `GuardedInserts.NothingLeftOverdraws` | apps/api/src/campaigns/email-campaigns.service.ts:94-118 | and as soon as nothing is left, the transaction in flight takes the window over its limit within two steps |
| `GuardedInserts.RaiseOverdraws` | apps/api/src/campaigns/email-campaigns.service.ts:223-226 | a run in which a row amended without the lock takes the window over its limit |
| `GuardedInserts.MissingLockRowOverdraws` | apps/api/src/billing/supplier-wallet.service.ts:58-75 | without a row to lock, two interleaved debits overdraw every balance that covers one of them only |
| `SupplierWallet.SupplierWalletService.DebitIfSufficientBalance` | apps/api/src/billing/supplier-wallet.service.ts:76-94 | debits if and only if the sum of the entries covers the amount, and changes nothing otherwise |
| `SupplierWallet.SupplierWalletService.RequestTopUp` | apps/api/src/billing/supplier-wallet.service.ts:131-136 | a positive amount becomes a pending request, any other is refused |
| `SupplierWallet.SupplierWalletService.VerifyTopUp` | apps/api/src/billing/supplier-wallet.service.ts:149-163 | undisturbed, credits a pending supplier request once, the errors in the code's order |
| `SupplierTopUps.UndisturbedVerification` | apps/api/src/billing/supplier-wallet.service.ts:149-163 | the look and the transaction with nothing in between mark the request and credit its amount |
| `SupplierTopUps.DecidedOnceExactly` | apps/api/src/billing/supplier-wallet.service.ts:149-163 | in every run a supplier request is decided at most once if and only if no two decisions on it overlap from look to commit |
| `SupplierTopUps.BalanceExactly` | apps/api/src/billing/supplier-wallet.service.ts:149-163 | in every run the balance is at least the verified requests, each counted once, less the fees, and equal to that if and only if no two verifications of one request overlap |
| `SupplierTopUps.CreditedTwice` | apps/api/src/billing/supplier-wallet.service.ts:149-163 | a run in which two admins credit one top-up twice |
| `SupplierWallet.SupplierWalletService.DebitDueSupplierPlanFees` | apps/api/src/billing/plan-fee-debit.service.ts:87-125 | by itself, a sweep debits each due supplier who can pay once and moves it on by one interval, and leaves the rest as they were |
| `SupplierWallet.BalanceIsHeadroom` | apps/api/src/billing/supplier-wallet.service.ts:54-56 | the supplier's balance is the protocol's headroom |
| `SupplierWallet.SumAppend` | apps/api/src/billing/supplier-wallet.service.ts:46-56 | a supplier's balance is a plain sum: a top-up adds its amount, a plan fee takes its own |
| `SupplierWallet.DebitIsOneTransaction` | apps/api/src/billing/supplier-wallet.service.ts:76-94 | the debit is what an undisturbed transaction of the protocol does |
| `SupplierWallet.SupplierNeverOverdrawn` | apps/api/src/billing/supplier-wallet.service.ts:76-94 | in every interleaving of debits and top-ups the balance is never negative, and debits and period updates are as many |
| `SupplierWallet.PeriodsGrantedExactly` | apps/api/src/billing/plan-fee-debit.service.ts:88-117 | one period is granted per fee taken if and only if no two sweeps overlapped on the supplier: the row is read before the lock |
| `SupplierWallet.TwoFeesForOnePeriod` | apps/api/src/billing/plan-fee-debit.service.ts:88-117 | a run in which two overlapping sweeps take two fees and grant one period |
| `EmailCampaigns.EmailCampaignsService.Create` | apps/api/src/campaigns/email-campaigns.service.ts:72-118 | all or nothing: reserved exactly when it fits what remains of the month |
| `EmailCampaigns.EmailCampaignsService.ProcessCampaign` | apps/api/src/campaigns/email-campaigns.service.ts:180-245 | sent and failed add up to the recipients recorded in place of the reservation: the protocol's unlocked change of one row |
| `EmailCampaigns.RemainingIsHeadroom` | apps/api/src/campaigns/email-campaigns.service.ts:96-101 | what remains of the quota is the protocol's headroom |
| `EmailCampaigns.ReservedAdds` | apps/api/src/campaigns/email-campaigns.service.ts:96-99 | the reservations are a plain sum over the campaigns created since |
| `EmailCampaigns.MonthlyQuotaExactly` | apps/api/src/campaigns/email-campaigns.service.ts:86-118 | in every interleaving of create calls and of workers that record the live audience, a calendar month fits at every moment if and only if every audience that grew found its increase left over |
| `EmailCampaigns.FitsIsQuota` | apps/api/src/campaigns/email-campaigns.service.ts:94-105 | a month that fits is within the limit, and one that does not is over it once the create in flight has returned |
| `EmailCampaigns.MonthlyQuota` | apps/api/src/campaigns/email-campaigns.service.ts:86-118 | so it stays within the limit, calls straddling a month's end included, in every run in which no audience grows |
| `EmailCampaigns.SendingKeepsQuota` | apps/api/src/campaigns/email-campaigns.service.ts:223-226 | sending keeps the month within the limit if and only if the audience grew by no more than what remained |
| `Products.AssertUniqueAttributeKeys` | apps/api/src/catalog/products.service.ts:35-45 | accepts exactly keys that differ after trimming and lower-casing, and names the first repetition |
| `Products.ProductsService.Create` | apps/api/src/catalog/products.service.ts:73-138 | inserts exactly when no check fails, and then one more product within the limit |
| `Products.LimitIsHeadroom` | apps/api/src/catalog/products.service.ts:106-110 | the limit check refuses exactly when a cost of one exceeds the headroom |
| `Products.CountAppend` | apps/api/src/catalog/products.service.ts:106-110 | each product counts once, for its own store |
| `Products.ProductsWithinLimit` | apps/api/src/catalog/products.service.ts:89-138 | in every interleaving of create calls a store's products never outgrow the limit |
| `Sessions.DestroyAllEndsAll` | apps/api/src/auth/session.service.ts:209-215 | with the index covering the sessions, destroying by the index ends every session of the user |
| `Sessions.CreateCoversExactly` | apps/api/src/auth/session.service.ts:98-100 | creating a session keeps the index covering if and only if no live session of the user outlives it |
| `SessionLifetimes.SurvivesRevocationExactly` | apps/api/src/auth/session.service.ts:79-103 | in every run, whatever lifetimes each call chooses, a session alive when all its user's sessions are revoked, by a password reset or over a reused token, outlives that if and only if the index key ran out at some moment since the session was created |
| `SessionLifetimes.LongOutlivesReset` | apps/api/src/auth/session.service.ts:98-100 | a run in which it does, for every pair of a shorter and a longer lifetime |
| `Sessions.RefusedExactly` | apps/api/src/auth/auth.service.ts:457-467 | a login is refused exactly when live and stale ids together reach the limit |
| `Sessions.LimitRefusesExactly` | apps/api/src/auth/auth.service.ts:366-467 | a rotation of a valid pair is refused exactly when the user's other ids already fill the limit |
| `SessionRuns.MemberOrigin` | apps/api/src/auth/session.service.ts:79-116 | in every run an id in a user's index was created for that user, and is stale only because its lifetime ran out |
| `SessionRuns.RefusedBelowLimit` | apps/api/src/auth/auth.service.ts:457-467 | a run in which a login is refused under a limit of two with one live session, for every lifetime of two seconds or more |
| `SessionRuns.NeverRefused` | apps/api/src/auth/auth.service.ts:457-467 | in every run with a fixed limit a valid pair is granted its rotation |
| `Sessions.RotationKeepsDevice` | apps/api/src/auth/auth.service.ts:349-382 | a rotated session is the same device under a new id, first seen now and valid for its lifetime; the old pair answers as reused for 86,400 seconds and as unknown from then on |
| `Sessions.CreatedLives` | apps/api/src/auth/session.service.ts:79-103 | a created session validates and is indexed for exactly its lifetime, and no other session or index is touched |
| `SessionRuns.IndexSoundThroughout` | apps/api/src/auth/session.service.ts:79-103 | in every run, with one lifetime per user, every live session is in its user's index for at least as long as it lives |
| `SessionRuns.DeadStaysDead` | apps/api/src/auth/session.service.ts:118-139 | in every run an ended session never lives again |
| `SessionRuns.NoEarlierTokenValidates` | apps/api/src/auth/session.service.ts:209-215 | after a password reset or a detected reuse no pair issued before ever validates again |
| `SessionRuns.AcceptedThenReused` | apps/api/src/auth/session.service.ts:118-139 | an accepted pair answers as reused for exactly a day and as invalid afterwards |
| `SessionRuns.ReusedExactly` | apps/api/src/auth/session.service.ts:118-139 | in every run a pair is answered as reused if and only if it was accepted before, less than a day ago |
| `SessionCalls.ExchangedOnceExactly` | apps/api/src/auth/auth.service.ts:349-382 | in every run of interleaved refreshes a pair is exchanged at most once if and only if no two refreshes with it overlap from validation to rotation |
| `SessionCalls.UndisturbedRefresh` | apps/api/src/auth/auth.service.ts:349-382 | with nothing in between, validating, rotating out and issuing are the one-step refresh |
| `SessionCalls.UndisturbedIssue` | apps/api/src/auth/auth.service.ts:457-475 | with nothing in between, counting the devices and creating the session are the one-step issue, refused by the same guard |
| `DeviceLimits.LimitKeptExactly` | apps/api/src/auth/auth.service.ts:457-475 | in every run of overlapping logins and rotations a user's index has kept to a fixed limit if and only if at each creation the sessions that came since its count were fewer than the room it counted and the ones gone since |
| `DeviceLimits.ArrivedExactly` | apps/api/src/auth/auth.service.ts:457-475 | what a creation finds in the index beside what its count found is exactly what other calls created in between |
| `DeviceLimits.ApartKeepsLimit` | apps/api/src/auth/auth.service.ts:457-475 | live sessions never outnumber a fixed limit in a run in which no two creations for the user overlap from count to creation |
| `DeviceLimits.PastTheLimit` | apps/api/src/auth/auth.service.ts:457-475 | for every limit a run of two overlapping logins that ends one session past it |
| `SessionCalls.OnePairTwoSessions` | apps/api/src/auth/auth.service.ts:349-382 | a run in which two overlapping refreshes turn one pair into two live sessions |
| `SessionServices.SessionService.CreateSession` | apps/api/src/auth/session.service.ts:79-103 | the three Redis commands are the modelled step |
| `SessionServices.SessionService.CountActiveSessions` | apps/api/src/auth/session.service.ts:113-116 | at least the number of live sessions, and exactly that if and only if the index holds no ended one |
| `SessionServices.SessionService.ValidateRefreshToken` | apps/api/src/auth/session.service.ts:118-139 | valid, reused or invalid as modelled |
| `SessionServices.SessionService.TouchSession` | apps/api/src/auth/session.service.ts:142-149 | moves the last activity of a live session, and no expiry, token, owner or other key |
| `SessionServices.SessionService.ListSessions` | apps/api/src/auth/session.service.ts:152-168 | lists exactly the indexed sessions that are live |
| `SessionServices.SessionService.RevokeOwnSession` | apps/api/src/auth/session.service.ts:171-178 | ends the user's own live session and nobody else's |
| `SessionServices.SessionService.DestroySession` | apps/api/src/auth/session.service.ts:180-187 | the session and its index entry go |
| `SessionServices.SessionService.RotateOutSession` | apps/api/src/auth/session.service.ts:198-206 | a live session leaves its tombstone, then goes |
| `SessionServices.SessionService.DestroyAllSessionsForUser` | apps/api/src/auth/session.service.ts:209-215 | all indexed sessions and the index go |
| `SessionServices.AuthService.IssueTokens` | apps/api/src/auth/auth.service.ts:447-479 | refused at the limit without a change, otherwise one session more |
| `SessionServices.AuthService.Refresh` | apps/api/src/auth/auth.service.ts:349-382 | every branch of the rotation, including the refusal that has already destroyed the old session |
| `SessionServices.AuthService.CompletePasswordReset` | apps/api/src/auth/auth.service.ts:417-445 | a link works once and in time, and ends every session of its account |
| `RefreshProtocol.AtMostOneRefreshInFlight` | apps/web/lib/dashboard-api.ts:81-104 | however many requests fail at once, a tab never has two refreshes in flight |
| `RefreshProtocol.AtMostTwoSends` | apps/web/lib/dashboard-api.ts:132-151 | no request is sent more than twice |
| `RefreshProtocol.WorkShrinks` | apps/web/lib/dashboard-api.ts:81-151 | every step leaves less to do |
| `RefreshProtocol.RunsAreShort` | apps/web/lib/dashboard-api.ts:81-151 | a run of n requests has at most 12 n steps of its own, whatever is answered or lost |
| `RefreshProtocol.NeverStuck` | apps/web/lib/dashboard-api.ts:81-151 | while a request is unfinished, it or the refresh it waits for can move |
| `RefreshOutcomes.RetriedExactly` | apps/web/lib/dashboard-api.ts:146-151 | in every run a request whose first answer is a 401, and no other, waits for its tab's refresh, and is sent once more exactly if that ended with a new token |
| `RefreshOutcomes.ResultIsLastAnswer` | apps/web/lib/dashboard-api.ts:132-160 | in every run a request succeeds exactly if the last answer to it was a success |
| `RefreshProtocol.RefreshHandsOver` | apps/api/src/auth/auth.service.ts:349-382 | refreshing with the held pair does nothing or hands over to the next pair, and is never taken for reuse |
| `RefreshProtocol.ReusedExactly` | apps/api/src/auth/auth.service.ts:349-359 | in every run, with any number of tabs and whatever is lost or refused, a refresh is answered as reused if and only if its pair was accepted before, less than a day ago |
| `RefreshProtocol.ReusedExactlyInOneTab` | apps/api/src/auth/auth.service.ts:349-359 | in one tab: if and only if an earlier refresh was accepted, less than a day ago, and no new cookie has reached the browser since |
| `RefreshProtocol.TakenForReuseExactly` | apps/api/src/auth/auth.service.ts:351-359 | a run revokes the user's sessions over token theft exactly when some accepted pair is served again so soon |
| `RefreshProtocol.RefusedWithoutRoom` | apps/api/src/auth/auth.service.ts:457-467 | the held pair is refused by the device limit exactly when the user's other ids leave no room, which can be looked up before the call |
| `RefreshProtocol.FixedLimitNeverTakenForReuse` | apps/web/lib/dashboard-api.ts:81-104 | with a fixed limit, no run of one tab that loses no new cookie is taken for theft, and all of them are smooth |
| `RefreshProtocol.NeverTakenForReuse` | apps/web/lib/dashboard-api.ts:81-104 | in one tab, if no new cookie is lost and every rotation finds room, no run ends in reuse detection |
| `RefreshProtocol.CookieIsTheOneLiveToken` | apps/web/lib/dashboard-api.ts:81-104 | whenever no refresh is in flight the cookie is the server's one session, or that session has ended |
| `RefreshProtocol.SessionSurvives` | apps/web/lib/dashboard-api.ts:81-104 | and it has ended only by itself if nobody signed the user out elsewhere |
| `RefreshProtocol.RotatedPairIsReused` | apps/api/src/auth/auth.service.ts:349-382 | a pair whose rotation was carried out, granted or not, counts as stolen when it comes again |
| `RefreshProtocol.LostReplyLooksLikeTheft` | apps/web/lib/dashboard-api.ts:91-98 | a run with one lost reply that ends in reuse detection |
| `RefreshProtocol.LimitRefusalLooksLikeTheft` | apps/api/src/auth/auth.service.ts:366-382 | for every limit of one or more, a run without losses in which a rotation refused by it, the index being fuller, ends in reuse detection |
| `RefreshProtocol.TwoTabsLookLikeTheft` | apps/web/lib/dashboard-api.ts:74-81 | a run without losses in which two tabs refresh at once and end in reuse detection |
| `Csv.ToCsv` | apps/api/src/data-portability/csv.util.ts:19-25 | the pushed lines are the joined records |
| `Csv.QuotedExactly` | apps/api/src/data-portability/csv.util.ts:13-16 | a field is quoted if and only if it holds a quote, a comma or a line feed |
| `Csv.ReadsField` | apps/api/src/data-portability/csv.util.ts:13-16 | a written field reads back, but for a final carriage return that a line break swallows |
| `Csv.ReadsWhatSurvives` | apps/api/src/data-portability/csv.util.ts:13-25 | for every table at all, exactly what a reader for section 2 of RFC 4180 gets back |
| `Csv.RoundTripsExactly` | apps/api/src/data-portability/csv.util.ts:13-25 | the round trip holds if and only if no record is empty, the last is not one empty field, and no other ends in an unquoted carriage return |
| `Csv.RoundTripsWithoutCR` | apps/api/src/data-portability/csv.util.ts:13-25 | in particular for all fields free of carriage returns, with any quotes, commas and line feeds |
| `ProductExport.SlugHasNoOuterDashes` | apps/api/src/data-portability/csv-export.service.ts:33-39 | a slug is lower-case letters, digits and dashes, without a dash at either end |
| `ProductExport.HandleIsWords` | apps/api/src/data-portability/csv-export.service.ts:33-39 | a handle is the title's runs of letters and digits in lower case, joined by single dashes, and the first eight characters of the id |
| `ProductExport.SlugCharacters` | apps/api/src/data-portability/csv-export.service.ts:36 | the characters a slug keeps, one by one |
| `ProductExport.ExportColumns` | apps/api/src/data-portability/csv-export.service.ts:6-18 | the columns of the export, by name and in order |
| `ProductExport.HandleInjective` | apps/api/src/data-portability/csv-export.service.ts:33-39 | handles differ whenever the first eight characters of the ids do |
| `ProductExport.ExportProduct` | apps/api/src/data-portability/csv-export.service.ts:65-90 | the inner loops push one row per variant, at least one, and one per further image; what is in the cells of a variant and of the first row |
| `ProductExport.ExportProducts` | apps/api/src/data-portability/csv-export.service.ts:64-91 | the rows of all products in order |
| `ProductImport.GroupByHandle` | apps/api/src/data-portability/product-import.util.ts:57-65 | the Map keeps groups in order of first appearance |
| `ProductImport.GroupsPartition` | apps/api/src/data-portability/product-import.util.ts:57-65 | every row of the file is in the one group of its own handle, under its own number, and no row is lost |
| `ProductImport.AttributesExactly` | apps/api/src/data-portability/product-import.util.ts:87-92 | a variant has exactly the attributes its row fills in, the later of two with one name |
| `ProductImport.HandleIs` | apps/api/src/data-portability/product-import.util.ts:57-65 | the handle is the handle cell, else the title, else a name made of the row number |
| `ProductImport.RowsReadExactly` | apps/api/src/data-portability/product-import.util.ts:79-101 | which rows of a group are variants and with which cells, and which are errors |
| `ProductImport.RowsCounted` | apps/api/src/data-portability/product-import.util.ts:79-101 | each row with a price is one variant or one error |
| `ProductImport.GroupReadsExactly` | apps/api/src/data-portability/product-import.util.ts:70-110 | a group is a product if and only if a row has a title and a row is a variant; its title, description, variants and images, and its errors |
| `ProductImport.UnmappedExactly` | apps/api/src/data-portability/product-import.util.ts:30-55 | the header columns reported as unmapped are the ones not among the thirteen known |
| `ProductImport.ParseRows` | apps/api/src/data-portability/product-import.util.ts:78-102 | per row a variant, an error or nothing |
| `ProductImport.ParseProductImportCsv` | apps/api/src/data-portability/product-import.util.ts:54-114 | products, unmapped columns and errors of all groups in order |
| `ProductRoundTrip.GroupsAreBlocks` | apps/api/src/data-portability/product-import.util.ts:57-65 | grouping exported rows by handle recovers the products, in order |
| `ProductRoundTrip.BlockBack` | apps/api/src/data-portability/product-import.util.ts:70-111 | the importer makes of a product's rows the product, or one error if it has no variant |
| `ProductRoundTrip.ImportOfExport` | apps/api/src/data-portability/product-import.util.ts:54-114 | importing any exportable products gives back those with a variant, cut to two attributes and distinct images, and one error for each of the others |
| `ProductRoundTrip.ImportOfExportText` | apps/api/src/data-portability/csv-export.service.ts:41-46 | and so does the text of the export, written and read as CSV |
| `ProductRoundTrip.SameExactly` | apps/api/src/data-portability/csv-export.service.ts:71-90 | a product comes back as it was if and only if it has a variant, no third attribute, no image twice and no negative stock |
| `ProductRoundTrip.SelfExportRoundTrips` | apps/api/src/data-portability/csv-export.service.ts:41-46 | the text of an export of any exportable products, whatever quotes, line breaks or carriage returns their texts hold, imports to the products themselves without an error if and only if every product is whole |
| `StockImport.ParseStockImportCsv` | apps/api/src/data-portability/stock-import.util.ts:23-45 | updates and errors of all rows in order |
| `StockImport.OneOutcomePerRow` | apps/api/src/data-portability/stock-import.util.ts:28-42 | updates and errors are together as many as the rows, in row order |
| `Text.TrimExactly` | apps/api/src/data-portability/stock-import.util.ts:29-36 | trimming a cell takes off the blanks at its ends, all of them, and nothing else |
| `Text.BlankCodes` | apps/api/src/data-portability/stock-import.util.ts:29-36 | the blanks that are taken off, by number |
| `StockImport.UpdateFromItsRow` | apps/api/src/data-portability/stock-import.util.ts:28-42 | an update is parsed if and only if the row of its number has that SKU and a quantity that reads as the update's and is not negative |
| `StockImport.ErrorFromItsRow` | apps/api/src/data-portability/stock-import.util.ts:28-42 | an error is reported if and only if the row of its number has no SKU, or one whose quantity is absent, unreadable or negative |
| `StockImport.StockImportService.ProcessStockImport` | apps/api/src/data-portability/product-import.service.ts:146-167 | all of the file's updates, or none, exactly when some quantity for a SKU of the store is not whole |
| `StockImport.LastValueWins` | apps/api/src/data-portability/product-import.service.ts:147-155 | a matched variant ends with the last quantity for its SKU, any other keeps its own |
| `StockImport.LogTelescopes` | apps/api/src/data-portability/product-import.service.ts:153-165 | the logged entries chain from the quantity before to the quantity after, without a no-op |
| `StockImport.UnknownSkusAreErrors` | apps/api/src/data-portability/product-import.service.ts:148-152 | every unmatched SKU adds one error, and no entry is logged for it |
| `Analytics.BucketsTile` | apps/api/src/analytics/analytics.util.ts:41-57 | days, Monday weeks and months are gap-free and do not overlap |
| `Analytics.KeyIsStart` | apps/api/src/analytics/analytics.util.ts:41-49 | the key of a time is the start of the bucket that holds its day |
| `Analytics.StepIsNext` | apps/api/src/analytics/analytics.util.ts:51-57 | one step leads to the next bucket's start |
| `Analytics.BucketStarts` | apps/api/src/analytics/analytics.util.ts:41-49 | a bucket starts at the day itself, on a Monday, or on the first of the month |
| `Analytics.TotalOrders` | apps/api/src/analytics/analytics.util.ts:70-77 | the Map holds for each bucket the number of the orders placed on its days and the sum of their amounts, and no key for the others |
| `Analytics.BucketSalesOverTime` | apps/api/src/analytics/analytics.util.ts:64-94 | the guarded loop yields the chart, each point with the number of the orders placed from its start up to the next one's, and the sum of their amounts |
| `Analytics.ChartCoversRange` | apps/api/src/analytics/analytics.util.ts:79-93 | the loop reaches the end bucket if and only if the range is not inverted and spans at most 10,000 buckets, and else stops after 10,000 points; starts are strictly increasing |
| `Analytics.ChartConserves` | apps/api/src/analytics/analytics.util.ts:70-94 | counts and revenue add up to the number of the orders placed on the days shown and the sum of their amounts; to all orders' when all were placed within the range |
| `Analytics.OrderHasOnePoint` | apps/api/src/analytics/analytics.util.ts:70-94 | every order of the range lies in exactly one point |
| `Analytics.OneOrderOnePoint` | apps/api/src/analytics/analytics.util.ts:70-94 | a single order fills one point with exactly its amount and leaves the others empty |
| `TopProducts.ComputeTopProducts` | apps/api/src/analytics/analytics.util.ts:111-127 | totals, stable ranking and cut |
| `TopProducts.OneRowPerProduct` | apps/api/src/analytics/analytics.util.ts:112-123 | one row for each product sold and no other |
| `TopProducts.TotalsAdd` | apps/api/src/analytics/analytics.util.ts:112-123 | an item adds its quantity, and quantity times price, to its own product only |
| `TopProducts.TopIsTop` | apps/api/src/analytics/analytics.util.ts:124-126 | true totals under each product's first title, by revenue or by units as asked, ties in the order of first sale, and nothing left out beats what is in |
| `TopProducts.AggregateConserves` | apps/api/src/analytics/analytics.util.ts:113-123 | no revenue is lost or counted twice |
| `Segments.LocationIsNewestComplete` | apps/api/src/customer-segments/customer-segments.service.ts:191-212 | the location is that of a newest order with both city and country, if there is one |
| `Segments.MostRecentOrderExactly` | apps/api/src/customer-segments/customer-segments.service.ts:190-211 | it is the most recent order's, as the comment says, exactly when that order's address is complete or no order's is |
| `Segments.LatestOrderLocationsByCustomer` | apps/api/src/customer-segments/customer-segments.service.ts:191-212 | the Map holds exactly those locations for the candidates |
| `Segments.QueryDecides` | apps/api/src/customer-segments/customer-segment-matcher.util.ts:29-57 | nobody the pushed-down query leaves out matches, and without location criteria it decides alone |
| `Segments.MatchCustomers` | apps/api/src/customer-segments/customer-segments.service.ts:154-184 | the fast form returns exactly the customers the one definition accepts, in order |
| `Segments.MembersExactly` | apps/api/src/customer-segments/customer-segment-matcher.util.ts:29-57 | a customer is a member if and only if it is the store's, is within every bound given, bounds included, and is where the criteria say, whatever the case |
| `Referrals.ProgramCommissionService.AccrueReferralCommissionIfApplicable` | apps/api/src/billing/program-commission.service.ts:42-145 | counter and credit move together in every branch, and nobody's cache drifts |
| `Referrals.StudentClosedForm` | apps/api/src/billing/program-commission.service.ts:83-104 | the total is the flat amount times the lesser of the cap and the renewals |
| `Referrals.AmbassadorClosedForm` | apps/api/src/billing/program-commission.service.ts:115-145 | the total is the monthly amount times the lesser of the cap and the renewed months |
| `Referrals.EarnsExactly` | apps/api/src/billing/program-commission.service.ts:42-145 | what one payment earns in each program: nothing outside the window or without approval, the flat amount, the monthly amount for the months left, or the share of the fee to the nearest unit |
| `Referrals.MonthsRenewed` | apps/api/src/plans/plan-pricing.util.ts:90-95 | a renewal counts 12, 6, 3 or 1 months by its interval |
| `ReferralCalls.CapKeptExactly` | apps/api/src/billing/program-commission.service.ts:83-145 | in every run of overlapping accruals the counter keeps to its cap if and only if every payout still fits when it commits: what others committed since its read is within what the read left over |
| `ReferralCalls.CounterIsCommitted` | apps/api/src/billing/program-commission.service.ts:97-103 | in every run the counter and the credit move together |
| `ReferralCalls.ApartKeepsCap` | apps/api/src/billing/program-commission.service.ts:83-145 | so the cap holds when no accrual commits between another's read and its commit |
| `ReferralCalls.UndisturbedAccrual` | apps/api/src/billing/program-commission.service.ts:42-145 | with nothing in between, reading and committing is the accrual of the service |
| `ReferralCalls.PaidPastTheCap` | apps/api/src/billing/program-commission.service.ts:83-104 | a run in which two renewals that read the count before its last payout are both paid |
| `WorkerPool.EachIndexOnce` | apps/api/scripts/simulate/api-client.ts:126-135 | in every order of completion each index is handed out once, and at most min(concurrency, n) workers run |
| `WorkerPool.WorkShrinks` | apps/api/scripts/simulate/api-client.ts:129-132 | every step leaves less to do |
| `WorkerPool.RunsAreShort` | apps/api/scripts/simulate/api-client.ts:126-135 | a pool of n items ends within 2 n + min(concurrency, n) steps |
| `WorkerPool.EndsWithAllDone` | apps/api/scripts/simulate/api-client.ts:126-135 | when no step is left every item is done and every runner has returned |

## Left out

- HTTP controllers other than the two wallet decisions, guards, request validation, schedulers, queues and audit records: wiring without state of its own.
- Row-level security, connection handling and the list of delete statements behind one removed store: a table is a map and removal is one step.
- Cryptography, signed access tokens, cookies' attributes, multi-factor codes and rate limiters: a verdict or a fresh value is a parameter.
- Email delivery, object storage, PDF rendering and platform events: sending is appending to an outbox where it matters, nothing elsewhere.
- Floating-point rounding: amounts are integers, and the import's numbers are reals read and printed by host functions.
- Plan resolution and price computation: the amount due is a parameter, and so are a seller's exemption slots.
- Settings that change while a run is under way, and clocks that disagree: one set of settings and one clock per run.
- Supplier requests share their table with sellers' requests in the code; here each kind lives in its own component, so the owner-type refusals appear only in the supplier wallet.
- The unscheduled team-seat and device-slot debits of the monthly sweep: fixed debits without a decision.
- In the lifecycle the suspension by an overdue invoice and its end are the `SuspendStores` and `LiftSuspension` steps, not tied to particular invoices; what the sponsored seats change to is kept beside the invoices and not tied to the subscriptions of the lifecycle. A missing fallback plan or subscription, which would end the sweep with an error, is excluded: both exist from the start.
- `publish`, admin balance adjustments and transaction history pages: checks and reads next to the rest.
- A participant row that is missing when a referral accrues, which the code reports as an internal error.
- Redis rounds a remaining lifetime below one second; times are whole seconds here, so touching a session leaves its expiry unchanged.
- Commands inside one session operation are not interleaved with another's: each operation is one step of a run; a login is three steps and `refresh` four in `SessionCalls`, and both are one in `SessionRuns`, `SessionLifetimes` and `RefreshProtocol`. In particular a touch that writes back a session another call has just removed is not modelled.
- Two overlapping runs of the group invoices: one run bills each team once, and its existence check is read with its insert.
- The in-memory access token and the redirect to the login page: whether a retry succeeds is the server's answer, which is arbitrary.
- Requests of several users in one browser, and a login while requests are under way.
- `csv-parse` itself: the reader is a reference for section 2 of RFC 4180; its own trimming and its skipping of empty lines add nothing for records of eleven fields whose texts are trimmed.
- JavaScript orders integer-like attribute names first; attributes here are listed in the order the code reads them.
- Product SKUs are not unique in the schema; the stock import is modelled for stores in which they are.
- `exportOrders`, ad-spend and tracking imports: straight mappings.
- Repeat-customer, return and average-order rates, best sales times: quotients and maxima next to the charts.
- A worker that fails: it ends its runner, and the pool then rejects.
- Dashboards, search, notifications, themes, storefront fetchers and the admin copy of the shared refresh: projections, interface code or duplicates.
- BillingServices.RetentionService.SendWarnings: states the sweep undisturbed by other calls; interleaved with them it is the `StartNotices` and `NotifyOne` steps of the lifecycle.
- BillingServices.RetentionService.RunDeletionSweep: states the sweep undisturbed; interleaved it is the `QueryExpired` and `DeleteOne` steps.
- BillingServices.RenewalRemindersService.SendPreExpiryAndExpiryDayReminders: states the sweep undisturbed; interleaved it is the `StartReminders` and `RemindOne` steps.
- BillingServices.PlanFeeDebitService.DebitDuePlanFees: states the sweep undisturbed; interleaved it is the `StartDebitSweep`, `DebitRow` and `StampRow` steps.
- SupplierWallet.SupplierWalletService.DebitDueSupplierPlanFees: states one sweep by itself; overlapping sweeps are in `SupplierWallet.PeriodsGrantedExactly`.
- BillingServices.WalletGraceLadderService.RunSweep: states the sweep undisturbed; interleaved it is the `StartLadderSweep` and `LadderRow` steps.
- BillingServices.AdminWalletController.VerifyOne: states the action undisturbed; interleaved it is the `LookUp`, `Verify`, `CheckBalance` and `RestoreFee` steps.
- BillingServices.WalletService.RequestPlanFeePayment: states the call undisturbed; interleaved it is the `ClaimCooldown`, `AskFee`, `InsertFee` and `GatewayVerify` steps.
- InvoicesServices.InvoicesService.GenerateMonthlyInvoices: states one run by itself; overlapping runs are in `InvoiceCalls`.
- SessionServices.AuthService.Refresh: states the call undisturbed; interleaved it is the four steps of `SessionCalls`.
- SessionServices.AuthService.IssueTokens: states the call undisturbed; interleaved it is the `Count` and `Create` steps of `SessionCalls`, whose limit is `DeviceLimits.LimitKeptExactly`.
- SupplierWallet.SupplierWalletService.VerifyTopUp: states the call undisturbed; interleaved it is the `LookUp` and `Verify` steps of `SupplierTopUps`.
- InvoicesServices.InvoicesService.SweepOverdueInvoicesAndSuspend: states the sweep undisturbed by other calls, with one reading of the clock for the periods it starts.
- The two statements of a balance restore, first the seller's warning columns and then the stores, are one step of a run.
