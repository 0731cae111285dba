# Delivery marketplace: verified models of the money, search and review paths

The repository is a delivery marketplace: merchants publish orders, couriers accept and deliver them, a
background worker completes orders, closes weekly settlements and expires unanswered searches, and
administrators manage pricing rules and review couriers. This project models the parts of it whose
correctness is hard to see from any one function, and proves what they promise over every input, every run
and every interleaving.

`dafny verify dfyconfig.toml` checks everything.

## What is modelled

- **Splitting a payment over zones** (`Collation`, `JsNumbers`, `Apportionment`, `ZoneAttribution`). The
  apportionment is proved on ranked rows; the methods of `ZoneAttribution` follow the code's maps, sort and
  loops. Amounts are `int`, standing for the range in which JavaScript's numbers are exact (the product of an
  amount and a due below 2^53). Zone ids are lower-case UUIDs, on which `localeCompare` orders
  character by character; `Collation` is that order.
- **Settlement weeks** (`Calendar`, `WeeklyWindows`). The calendar arithmetic is that of sections 21.4.1 and
  21.4.3.4 of ECMA-262, for instants from 1970 on.
- **The finance worker** (`FinanceBooks`, `PaymentAllocation`, `BookInvariants`, `FinanceRows`, `Billing`,
  `Closing`, `CourierAccount`, `SettlementClock`, `Jobs`, `FinanceWorker`, and the runs of `FinanceFindings` and
  `OverlappingWeeks`). The tables are one value, each transaction a function on it; a run is any sequence of the
  worker's transactions and of the API's transactions on the same rows, with any clock. `FinanceWorker` is the
  worker as it is written: loops over candidate rows that may be stale or repeated, one transaction each, and
  anything committed by others in between. A transaction is atomic, and one that the database's constraints
  reject changes nothing. The settings row each transaction reads, the window the API computes and
  its count of remaining days are parameters. A payment is split oldest first over the periods its query returns;
  that query orders by the columns the code then sorts by, so the rows come sorted, and periods that start at the
  same instant come in any order. `CourierAccount` sets the account a courier is shown, which is added up from
  the ledger and the live payments, against the courier's periods; of the reversal
  entries, those that take a payment back are the ones without the metadata of an administrator's adjustment.
- **The courier app's session** (`TokenRotation`, `MobileSession`). Every function is cut at its awaits; the
  pieces of concurrent requests, logins, sign-outs, restores and rotations interleave in any order. The class
  has the source's two fields beside what is left of the suspended calls, and every method keeps it safe, the
  end of a `restore` exactly when the pair it has found is not spent. A save reaches storage some time before the
  await on it ends, and storage operations end in any order. A token is spent when it has been sent, or when the
  login that issued its pair has still to put it into memory, unless a rotation under way is about to replace what
  memory holds. The server issues each refresh token once.
- **Courier searches** (`CourierSearch`, `SearchRows`, `SearchSafety`, `AcceptanceWorker`). The expiry job, against
  acceptance, the merchant's retry, and every other change of an order.
- **Pricing rules** (`PricingRules`, `PricingSafety`, `PricingAdmin`, `PricingLog`, `PricingArchive`). Transactions run
  statement by statement at PostgreSQL's read-committed level: reads see what is committed, written rows stay locked,
  the initial read precedes the transaction, and any transaction may be rolled back at any point. `PricingAdmin`
  is the service as it is written, and each of its calls is a run of those statements.
- **Courier review** (`CourierReview`, `CourierDocuments`, `CourierAdmin`). The same, for one courier's profile, documents and
  verification events.
- **Logs** of audit entries, order events and verification events are read in the order of their commits. The rows
  themselves carry a creation time, which need not tell that order.
- **The merchant's map** (`TileCover`). The tile loop over real coordinates, with the projected centre as input.

The functions below are specifications that the rows of the next section speak about:
`FinanceBooks.CompleteOrder` (`apps/worker/src/phase-four-jobs.ts:47-151`), `FinanceBooks.CloseSettlement` and
`FinanceBooks.MarkOverdue` (`apps/worker/src/settlement-jobs.ts:15-127`, `136-152`), `FinanceBooks.Refresh`
(`apps/api/src/finance/settlement-projection.ts:5-59`), `FinanceBooks.FinalizeOrder`
(`apps/api/src/orders/order-finalization.service.ts:55-175`), `FinanceBooks.CloseByApi`,
`FinanceBooks.RecordPayment`, `FinanceBooks.ReversePayment` and `FinanceBooks.Adjust`
(`apps/api/src/finance/finance.service.ts:538-657`, `701-817`, `819-932`, `934-1088`), `CourierSearch.Publish`
and `CourierSearch.Retry` (`apps/api/src/orders/orders.service.ts:533-549`, `803-881`),
`CourierSearch.MerchantCancel` (`apps/api/src/orders/orders.service.ts:988-1064`), `CourierSearch.Accept`,
`CourierSearch.Proceed` and `CourierSearch.CourierCancel`
(`apps/api/src/courier-orders/courier-orders.service.ts:200-254`, `431-487`, `591-632`),
`PricingRules.Begin`, `PricingRules.Replace` and `PricingRules.Update`
(`apps/api/src/admin/phase-two-admin.service.ts:693-816`), and the statements of `CourierReview`
(`apps/api/src/admin/admin.service.ts:225-444`, `apps/api/src/courier/courier.service.ts:385-437`).

## What the proofs found

Each names the lemma that exhibits it, on a run from empty tables or from the start of the app where it is a
matter of runs, and the exact condition where there is one.

- **The worker and the API disagree on weeks.** The worker's windows run from Saturday at a fixed three hours
  ahead of UTC (`apps/worker/src/phase-four-jobs.ts:5-21`); `weeklySettlementBounds` in
  `apps/api/src/finance/finance-domain.ts:103-122` starts on Monday in the Africa/Cairo time zone. A courier can so
  have overlapping periods. A commission booked by the API can then stray from the worker's week
  (`OverlappingWeeks.StrayedCommission`), and an entry without a line goes to whichever period closes first
  (`Closing.FirstCloserTakes`; which of the two then overcharges, `Closing.FirstCloserOvercharges`).
  `Closing.NoStrays` is the exact condition under which a close bills its window.
- **A reversed payment is charged twice.** Reversing a payment both stops counting it as paid and appends a
  positive ledger entry without a line; closing a week gives that entry a line and adds it as an adjustment
  (`OverlappingWeeks.ChargedTwice`; exactly when, `Closing.ReachableCharges`). The courier's settlements then ask for
  more than the account the courier is shown (`OverlappingWeeks.PeriodsExceedLedger`; exactly when, and by how
  much, `CourierAccount.PeriodsAgreeWithLedgerExactly`). An administrator's reversal of the payment's ledger entry
  does not have this flaw (`Closing.ReversedEntryIsDebt`).
- **Credits can stop the completion job.** If adjustments have pushed an open period's balance below zero, the
  database's projection check rejects the running increment, and the exception ends the job
  (`FinanceFindings.CreditRun`; exactly when, `SettlementClock.CompletionFailsExactly`).
- **A clock that goes back books to closed weeks**, and if the week was PAID, the overdue job never sees the
  amount (`FinanceFindings.StaleClockRun`).
- **Negative amounts break the split.** With a negative amount an exact zone can be handed a unit
  (`Apportionment.NegativeAmount`). Payments are positive by constraint, so this is out of reach today.
- **A rotation under way undoes a sign-out** (`TokenRotation.RotationUndoesSignOut`), and a `restore` that ends with a
  spent pair sends a token twice: one that overlaps a rotation (`TokenRotation.OverlappingRestoreSendsTwice`), and
  one that finds a pair which a login has written but not yet put into memory
  (`TokenRotation.LoginFoundInStorageSendsTwice`). Exactly when, `TokenRotation.SingleUseExactly`.
- **A courier who gives an order back restarts the search without using up an attempt**, so a search can stay
  open for ever (`SearchSafety.ReopenedWithoutEnd`); the published transition table has no such edge.
- **An active pricing rule can be archived**, because archiving checks the status only before its transaction
  (`PricingArchive.ActiveRuleArchived`).
- **A retired pricing rule can come back as inactive**: an activation deactivates the rules it has listed by id, without
  looking at their status again, and one may have been deactivated and archived since
  (`PricingArchive.RetiredRuleRevived`).
- **Pricing rules cannot be deleted.** The trigger at
  `infrastructure/database/prisma/migrations/20260723160000_phase_2_orders_pricing_zones/migration.sql:544-546`
  rejects every deletion, so the deletion branch of `deletePricingRule` always fails. The model has both settings
  (`deletable`). Were deletion allowed, the audit log could end with "inactive" for a rule that is gone
  (`PricingLog.DeletedRuleLoggedInactive`).
- **A replacement request can be overtaken by a submission**: it then leaves an event that says changes were
  requested of a courier who is pending (`CourierReview.OvertakenReview`).

## Model

| member | source | states |
|---|---|---|
| Collation.Transitive | apps/api/src/admin/admin-operations-domain.ts:162 | the tie-breaking order of zone ids is transitive |
| Collation.Connected | apps/api/src/admin/admin-operations-domain.ts:162 | any two different zone ids are ordered one way or the other, so ties are always broken |
| Collation.FirstDifferenceDecides | apps/api/src/admin/admin-operations-domain.ts:162 | one id precedes another iff at the first place where they differ it has ended or has the smaller character |
| Apportionment.LeftoverRange | apps/api/src/admin/admin-operations-domain.ts:156-168 | flooring leaves at least 0 and fewer units than zones, and none exactly when every proportion is whole |
| Apportionment.Conservation | apps/api/src/admin/admin-operations-domain.ts:148-168 | the credits add up to the payment, for every amount |
| Apportionment.QuotaRule | apps/api/src/admin/admin-operations-domain.ts:148-168 | every credit is the floor or the ceiling of the exact proportion if and only if no negative amount meets an exact zone that is handed a unit |
| Apportionment.SupportingSlope | apps/api/src/admin/admin-operations-domain.ts:148-168 | giving a zone any number of units costs at least a line through its credit, with a slope taken at a remainder separating bumped from unbumped zones |
| Apportionment.CreditsAreClosest | apps/api/src/admin/admin-operations-domain.ts:148-168 | no division of the payment into whole units deviates less from the exact proportions |
| Apportionment.CloserDivision | apps/api/src/admin/admin-operations-domain.ts:153-168 | when a negative amount meets an exact zone, a strictly closer division exists, and this is one |
| Apportionment.NegativeAmount | apps/api/src/admin/admin-operations-domain.ts:153-168 | a negative amount whose split hands a unit to a zone with an exact proportion |
| Apportionment.Optimality | apps/api/src/admin/admin-operations-domain.ts:148-168 | the credits are a closest division if and only if no negative amount meets an exact zone that is handed a unit |
| Apportionment.NoOverCredit | apps/api/src/admin/admin-operations-domain.ts:148-168 | a payment that does not exceed the period's positive total credits no zone above its due |
| Apportionment.Monotone | apps/api/src/admin/admin-operations-domain.ts:148-168 | a zone that owes strictly more never receives less |
| ZoneAttribution.RankingUnique | apps/api/src/admin/admin-operations-domain.ts:133-163 | the ranking of an allocation is determined by the balances of its period's zones |
| ZoneAttribution.OrderIndependence | apps/api/src/admin/admin-operations-domain.ts:124-163 | permuting the lines, or adding lines of other periods, leaves an allocation's records as they were |
| ZoneAttribution.OutputDetermined | apps/api/src/admin/admin-operations-domain.ts:120-178 | two outputs that meet the specification are equal when each period paid for has the same lines in some order |
| ZoneAttribution.OutputConserves | apps/api/src/admin/admin-operations-domain.ts:114-178 | the whole output adds up to every allocation whose period has a zone that owes something |
| ZoneAttribution.EveryUnitAttributed | apps/api/src/admin/admin-operations-domain.ts:114-178 | an allocation is credited in full when some zone of its period owes something and not at all otherwise, and no zone gets more than its due from a payment within the total |
| ZoneAttribution.OddUnits | apps/api/src/admin/admin-operations-domain.ts:148-175 | of two records of an allocation the earlier has the larger remainder or, on a tie, the id that comes first; each credit is the floored proportion or one more, and the earlier gets its extra unit first |
| ZoneAttribution.TiesGoToFirstId | apps/api/src/admin/admin-operations-domain.ts:159-168 | of two zones that owe the same, the one whose id comes first is credited at least as much |
| ZoneAttribution.OutputInOrder | apps/api/src/admin/admin-operations-domain.ts:130-178 | the output is one block for each allocation, in the order of the allocations |
| ZoneAttribution.Sort | apps/api/src/admin/admin-operations-domain.ts:159-163 | the sort gives the same rows in the order of the comparator |
| ZoneAttribution.GroupByPeriod | apps/api/src/admin/admin-operations-domain.ts:124-129 | the map holds each period's lines in their order, and nothing for a period without lines |
| ZoneAttribution.DueByZone | apps/api/src/admin/admin-operations-domain.ts:133-139 | the map holds each zone's balance over the period's lines |
| ZoneAttribution.Positive | apps/api/src/admin/admin-operations-domain.ts:140-145 | exactly the zones with a positive balance remain, each once, with that balance |
| ZoneAttribution.Total | apps/api/src/admin/admin-operations-domain.ts:146-147 | the total of the positive balances, zero exactly when there is none |
| ZoneAttribution.Apportion | apps/api/src/admin/admin-operations-domain.ts:148-155 | one row for each positive zone, with its floored proportion and its remainder |
| ZoneAttribution.HandOut | apps/api/src/admin/admin-operations-domain.ts:156-168 | the bump loop ends with nothing left and gives the credits of the specification |
| ZoneAttribution.AttributeOne | apps/api/src/admin/admin-operations-domain.ts:131-175 | the records of one allocation: its credits over the ranked positive zones, none when there is none |
| ZoneAttribution.AttributePaymentsToZones | apps/api/src/admin/admin-operations-domain.ts:120-178 | the output is the records of each allocation in turn, as specified |
| Calendar.YearLength | apps/worker/src/phase-four-jobs.ts:9-13 | years follow each other with no gap, leap years as the Gregorian rule has them |
| Calendar.YearFromDay | apps/worker/src/phase-four-jobs.ts:10 | the year found is one that holds the day |
| Calendar.YearUnique | apps/worker/src/phase-four-jobs.ts:10 | no other year holds it |
| Calendar.MakeDayFindsMonth | apps/worker/src/phase-four-jobs.ts:9-13 | the day made for the first of a month has that year, that month and date 1 |
| Calendar.RoundTrip | apps/worker/src/phase-four-jobs.ts:9-13 | `Date.UTC` applied to the `getUTC*` fields of a day, shifted by any number of days, gives the day shifted by that number |
| Calendar.Epoch | apps/worker/src/phase-four-jobs.ts:9-13 | day 0 is the first of January 1970, and four centuries have 146097 days |
| Calendar.MonthLength | apps/worker/src/phase-four-jobs.ts:9-13 | how long each month is |
| WeeklyWindows.WindowHoldsNow | apps/worker/src/phase-four-jobs.ts:5-21 | a window holds its instant, lasts seven days and starts on a Saturday at 00:00 of the offset clock |
| WeeklyWindows.SaturdayStart | apps/worker/src/phase-four-jobs.ts:5-21 | in milliseconds since the epoch: which instants are the starts of windows, how long a window is, and when it falls due |
| WeeklyWindows.WindowsPartitionTime | apps/worker/src/phase-four-jobs.ts:5-21 | two instants have the same window when one lies in the other's, and otherwise windows that do not meet |
| WeeklyWindows.WindowsAreContiguous | apps/worker/src/phase-four-jobs.ts:5-21 | the end of a window is the start of the next |
| WeeklyWindows.DueAtMidnight | apps/worker/src/phase-four-jobs.ts:15-20 | a settlement falls due at a midnight of the offset clock, the grace days after its window ends |
| BookInvariants.IncrementIsRecomputed | apps/worker/src/phase-four-jobs.ts:120-147 | the running totals after a completion are those a recomputation from the lines gives |
| BookInvariants.NothingBooked | apps/worker/src/phase-four-jobs.ts:133-139 | a period no row refers to yet has nothing to add up, so creating it with the commission alone is right |
| BookInvariants.ClosersAgree | apps/api/src/finance/finance.service.ts:573-634 | an administrator's close writes the lines and totals that the worker's would; only status and version can differ |
| BookInvariants.StepKeepsTotals | apps/worker/src/settlement-jobs.ts:53-104 | every transaction of the worker or the API leaves every period's stored totals equal to the recomputed ones |
| BookInvariants.RunKeepsTotals | apps/worker/src/settlement-jobs.ts:53-104 | so does every run, in whatever order |
| Billing.StepBillsOnce | apps/worker/src/phase-four-jobs.ts:39-151 | every transaction keeps finalised orders, commission entries and counters in step, with one commission entry for each finalised order |
| Billing.GlobalConservation | apps/worker/src/phase-four-jobs.ts:39-151 | from empty tables, after any run: a courier's finalised orders, commission entries and commission lines add up to the same amount, and `completedOrdersCount` is the number of those orders |
| Billing.NothingUndone | apps/worker/src/settlement-jobs.ts:33-52 | the ledger only grows, lines are never moved or removed, and a finalised order never changes |
| Closing.CloseAddsMissing | apps/worker/src/settlement-jobs.ts:33-52 | closing adds a line for exactly the unlined entries of the window, and moves none |
| Closing.CloseBillsWindow | apps/worker/src/settlement-jobs.ts:33-52 | after a close the period's lines are exactly the ledger entries of its window if and only if no line had strayed |
| Closing.CloseTotalsAreWindowTotals | apps/worker/src/settlement-jobs.ts:54-104 | with no strays the totals written are the per-kind sums over the ledger window, and payments count once, by their live allocations |
| Closing.WorkerClosesItsWeeks | apps/worker/src/settlement-jobs.ts:33-118 | in every run of the jobs, closes, payments, reversals and order changes, a close bills exactly the courier's entries of the week |
| Closing.ChargesDebtsOnly | apps/worker/src/settlement-jobs.ts:54-97 | an up-to-date period charges its debts and no more if and only if none of its lines is the entry of a record that takes a payment back |
| Closing.ReachableCharges | apps/worker/src/settlement-jobs.ts:54-97 | the same in every reachable state |
| Closing.ReversedPaymentIsChargedAtClose | apps/api/src/finance/finance.service.ts:819-932 | from any sound state, a payment reversed in an open week is charged again when that week closes |
| Closing.ReversedEntryIsDebt | apps/api/src/finance/finance.service.ts:965-1033 | an administrator's reversal of a payment's entry charges nothing twice: the payment stays paid, debt and charge rise by its amount, and its record can no longer be reversed |
| Closing.FirstCloserTakes | apps/worker/src/settlement-jobs.ts:33-52 | of two periods closed in turn, the first bills exactly its own lines and the unlined entries of its window; the second the same, but for those the first has taken |
| Closing.FirstCloserOvercharges | apps/worker/src/settlement-jobs.ts:33-118 | the first of them charges more than its debts iff it so claims the entry of a payment taken back; the second charges its debts alone iff every such entry it claims went to the first |
| PaymentAllocation.AllocateAllocates | apps/api/src/finance/finance-domain.ts:211-231 | the parts of a payment stay within what each settlement owes, add up to the payment, and pay each settlement in full before a later one gets anything |
| PaymentAllocation.OldestFirstIsUnique | apps/api/src/finance/finance-domain.ts:211-231 | no other allocation does all three |
| PaymentAllocation.HandOut | apps/api/src/finance/finance-domain.ts:211-231 | the loop gives that allocation |
| PaymentAllocation.AllocateOldestSettlements | apps/api/src/finance/finance-domain.ts:195-232 | refuses an amount that is not positive or exceeds what is owed, and otherwise allocates as stated |
| BookInvariants.PartsWithinOwed | apps/api/src/finance/finance.service.ts:724-746 | a recorded payment is so split over the courier's closed periods that owe something |
| CourierAccount.StepKeepsAccounted | apps/api/src/finance/finance.service.ts:755-797 | every transaction keeps each entry on a line unless it records a payment or its being taken back, each payment the sum of its parts, and each courier's records of payments worth the live payments |
| CourierAccount.SummaryAddsUp | apps/api/src/finance/finance.service.ts:1426-1468 | in every reachable state the ledger's sum is the balance of the commissions, adjustments, waivers and payments shown, and what is shown as remaining is that balance or zero |
| CourierAccount.PeriodsAddUp | apps/api/src/finance/finance.service.ts:1426-1468 | in every reachable state a courier's periods add up to the commissions, payments and waivers shown, and to the adjustments shown plus the entries of payments taken back that have a line |
| CourierAccount.PeriodsAgreeWithLedgerExactly | apps/api/src/finance/finance.service.ts:1426-1468 | in every reachable state a courier's periods ask for at least what the ledger says is owed, and for just that iff none bills the entry of a payment taken back; the difference is those entries |
| OverlappingWeeks.StrayedCommission | apps/worker/src/settlement-jobs.ts:33-52 | a run from empty tables after which closing the worker's week misses a commission of its window |
| OverlappingWeeks.ChargedTwice | apps/worker/src/settlement-jobs.ts:33-118 | a run from empty tables after which a week owes a payment taken back and, in either closing order, the first of two later weeks to close charges it once more |
| OverlappingWeeks.PeriodsExceedLedger | apps/worker/src/settlement-jobs.ts:33-118 | a run from empty tables after which a courier's three periods ask for more than the ledger says is owed |
| SettlementClock.StepKeepsStatuses | apps/worker/src/settlement-jobs.ts:98-118 | closedAt is set iff the period is not open, and a closed period is PAID or WAIVED iff nothing remains and OVERDUE only past its due date; every transaction at an instant not before the closes so far keeps this so |
| SettlementClock.RunKeepsStatuses | apps/worker/src/settlement-jobs.ts:98-118 | so it is after every run with a clock that does not go back |
| SettlementClock.StatusAtClose | apps/worker/src/settlement-jobs.ts:105-112 | which status a close writes, by what remains and how far off the due date is |
| SettlementClock.CompletionFindsOpenPeriod | apps/worker/src/phase-four-jobs.ts:119-140 | a completion never finds its week closed while the clock does not go back |
| SettlementClock.NoCommissionInClosedPeriod | apps/worker/src/phase-four-jobs.ts:119-140 | over any run from empty tables with such a clock, neither a completion by the worker nor a finalisation by the API books a commission to a closed period |
| SettlementClock.ClosedStaysClosed | apps/worker/src/settlement-jobs.ts:26-32 | nothing reopens a period, and a closed one is not closed again |
| SettlementClock.ClosedAtMostOnce | apps/worker/src/settlement-jobs.ts:26-32 | over every run, whatever its clock, each period is closed at most once |
| SettlementClock.StaleClockBooksToClosedPeriod | apps/worker/src/phase-four-jobs.ts:119-132 | a completion whose clock reads an instant of a week already closed is not refused but books to the closed period, unless credits have pushed it below zero |
| SettlementClock.CommissionInPaidPeriodIsNeverOverdue | apps/worker/src/settlement-jobs.ts:140-150 | a commission booked to a PAID week leaves it PAID with an amount remaining, which the overdue job passes over |
| FinanceFindings.StaleClockRun | apps/worker/src/phase-four-jobs.ts:119-132 | a run from empty tables in which a completion with an older clock books to a week closed as PAID, which no later overdue job changes |
| SettlementClock.OverdueJobCompletes | apps/worker/src/settlement-jobs.ts:136-152 | after the job every closed unpaid period due before now is OVERDUE, and a second run changes nothing |
| FinanceRows.StepKeepsRow | apps/worker/src/settlement-jobs.ts:98-149 | no step changes a period's due date or an existing closing time, none changes a row without raising its version, and only closes set a closing time, to their instant and after the end |
| FinanceRows.RowsFollow | apps/worker/src/settlement-jobs.ts:98-149 | so over every run from a reachable state |
| FinanceRows.CompletionWrites | apps/worker/src/phase-four-jobs.ts:62-151 | a completion is skipped unless the order is delivered, undisputed, assigned, not final and past its deadline; when done it writes exactly the final order, one entry, one line, the counter and the row of the courier's week, whose due date, status and version are stated |
| FinanceRows.FinalizationWrites | apps/api/src/orders/order-finalization.service.ts:55-175 | the same for the API's finalisation of a disputed or returned order |
| FinanceRows.CloseWrites | apps/worker/src/settlement-jobs.ts:21-118 | the worker closes a period exactly when it is open and over, and writes only its missing lines and its row, with the closing time and the next version |
| FinanceRows.ApiCloseWrites | apps/api/src/finance/finance.service.ts:573-634 | an administrator does so exactly when, besides, the version submitted is current |
| FinanceRows.OverdueWrites | apps/worker/src/settlement-jobs.ts:136-152 | each eligible row gets OVERDUE and the next version, with totals, due date and closing time as before; nothing else changes |
| FinanceRows.PaymentWrites | apps/api/src/finance/finance.service.ts:724-797 | with the query's list a payment is recorded exactly when positive and no more than what is owed; one payment, oldest first, one negative entry, and the periods paid brought up to date |
| FinanceRows.PaymentReduces | apps/api/src/finance/finance.service.ts:786-797 | a payment lowers what each period owes by its part |
| FinanceRows.ReversalWrites | apps/api/src/finance/finance.service.ts:853-915 | when a payment is reversed, and the payment row and entry that are written |
| FinanceRows.AdjustmentWrites | apps/api/src/finance/finance.service.ts:965-1058 | when an adjustment, waiver or reversal is booked, as one entry with one line |
| FinanceRows.RefreshWrites | apps/api/src/finance/settlement-projection.ts:5-59 | a refresh brings exactly the named periods up to date, each with its next version |
| FinanceRows.StatusAfterRefresh | apps/api/src/finance/finance-domain.ts:234-265 | which status a refresh gives, by totals, due date and remaining days |
| SettlementClock.IncrementAllowedExactly | infrastructure/database/prisma/migrations/20260726190000_phase_3_marketplace_accounting/migration.sql:346-358 | the running increment passes the projection check iff the period's balance is not negative or nothing is added |
| SettlementClock.CompletionFailsExactly | apps/worker/src/phase-four-jobs.ts:114-140 | a due completion throws iff there is no settings row, the commission is negative, or its week's balance is below zero |
| FinanceFindings.CreditRun | apps/worker/src/phase-four-jobs.ts:120-140 | a run from empty tables after which a due completion fails because a credit has pushed its week below zero |
| SettlementClock.CompletionsOnly | apps/worker/src/phase-four-jobs.ts:120-147 | a period of completions alone has commission = remaining = the sum of its lines |
| FinanceWorker.FinanceDatabase.CompleteOne | apps/worker/src/phase-four-jobs.ts:40-151 | one transaction is skipped unless the order may be completed, writes the final order and its entry when done, has the effect of the specification, and writes nothing when it fails |
| FinanceWorker.FinanceDatabase.CloseOne | apps/worker/src/settlement-jobs.ts:15-130 | one transaction closes the period iff it is open and over, with the closing time, the next version and the effect of the specification |
| FinanceWorker.FinanceDatabase.CompleteDeliveredOrders | apps/worker/src/phase-four-jobs.ts:23-151 | with any candidates, a settings row read anew in each transaction and anything committed in between, the job is a run whose count is the number of orders it completed, ended early only by a failing transaction |
| FinanceWorker.FinanceDatabase.CloseEligibleSettlements | apps/worker/src/settlement-jobs.ts:3-134 | likewise for the closing job |
| FinanceWorker.FinanceDatabase.MarkOverdueSettlements | apps/worker/src/settlement-jobs.ts:136-152 | each eligible row gets OVERDUE and its next version and keeps its totals, due date and closing time, every other row is unchanged, and the number returned is the number of rows changed |
| FinanceWorker.DuplicateIsSkipped | apps/worker/src/phase-four-jobs.ts:62-89 | an order the job has completed is skipped when it comes up again, however stale the list |
| FinanceWorker.CompletionsAreCounted | apps/worker/src/phase-four-jobs.ts:33-151 | the count is the number of orders the job's own transactions made final |
| FinanceWorker.ClosingsAreCounted | apps/worker/src/settlement-jobs.ts:14-134 | the count is the number of periods the job's own transactions closed |
| FinanceWorker.ClosingsAreDealtWith | apps/worker/src/settlement-jobs.ts:3-134 | when the closing job ends no candidate can still be closed at its instant, whatever was committed meanwhile, as long as the clocks of those who book commissions are not behind the job's |
| FinanceWorker.CompletionsAreDealtWith | apps/worker/src/phase-four-jobs.ts:23-151 | when the completion job ends, a candidate it has looked at that is still due at its instant, and that no other change has made so meanwhile, is one whose transaction failed |
| TokenRotation.StepIsSafe | apps/courier-mobile/mobile-session.ts:77-156 | each piece between awaits keeps one rotation in flight and every refresh token unsent until it is first sent, save the end of a `restore` that has found a spent pair |
| TokenRotation.RunIsSafe | apps/courier-mobile/mobile-session.ts:77-156 | so does every interleaving without such an end |
| TokenRotation.RefreshTokensAreSingleUse | apps/courier-mobile/mobile-session.ts:64-156 | under every interleaving in which no `restore` ends with a spent pair, no refresh token is sent twice and at most one rotation is under way |
| TokenRotation.RestoreIsSafeExactly | apps/courier-mobile/mobile-session.ts:64-75 | the end of a `restore` keeps a safe session safe if and only if the pair found is not spent: neither sent nor still being saved by a login, or about to be replaced by the rotation under way |
| TokenRotation.SingleUseExactly | apps/courier-mobile/mobile-session.ts:64-156 | in every reachable state in which a `restore` is about to end, tokens stay single-use in every continuation in which no later `restore` ends with a spent pair, if and only if the pair found is not spent |
| TokenRotation.RestoreFirstIsFresh | apps/courier-mobile/mobile-session.ts:64-75 | a run that restores before it does anything else never ends a `restore` with a spent pair |
| TokenRotation.OverlappingRestoreSendsTwice | apps/courier-mobile/mobile-session.ts:64-75 | a run from the start in which a `restore` that overlaps a rotation makes the first refresh token be sent twice |
| TokenRotation.LoginFoundInStorageSendsTwice | apps/courier-mobile/mobile-session.ts:77-81 | a run from the start in which a `restore` finds the pair a login is still saving, whose refresh token is then sent twice |
| TokenRotation.AtMostTwoCalls | apps/courier-mobile/mobile-session.ts:89-118 | no request is made more than twice, whatever is answered |
| TokenRotation.SignOutLastsExactly | apps/courier-mobile/mobile-session.ts:77-87 | a sign-out lasts until the next login if and only if no suspended call will still assign tokens |
| TokenRotation.SecondRefusalLastsExactly | apps/courier-mobile/mobile-session.ts:108-117 | a request refused a second time empties memory and starts a clear of storage; that ends the session until the next login iff nothing else suspended will still assign tokens |
| TokenRotation.SignOutAfterRestoreLasts | apps/courier-mobile/mobile-session.ts:64-87 | when a `restore` is all that is suspended, a sign-out after its end lasts |
| TokenRotation.RestoredSessionSignsOut | apps/courier-mobile/mobile-session.ts:64-87 | after the ordinary start from storage a sign-out lasts |
| TokenRotation.RotationUndoesSignOut | apps/courier-mobile/mobile-session.ts:77-87 | a run from the start in which a rotation under way brings the session back after a sign-out |
| MobileSession.MobileSession.RefreshAfterUnauthorized | apps/courier-mobile/mobile-session.ts:120-131 | a refresh token is sent only when no rotation is under way, for the access token that failed, and never one sent before; a caller told to wait waits for the rotation under way |
| MobileSession.MobileSession.FirstReply | apps/courier-mobile/mobile-session.ts:89-108 | keeps the session valid; what the request goes on to by the answer and what memory holds; an unauthorised answer for the held token, with no rotation under way, and nothing else sends a refresh token, never one sent before |
| MobileSession.MobileSession.Retry | apps/courier-mobile/mobile-session.ts:106-113 | keeps the session valid; exactly when the second call is made, that it is a request's last, and that one that waited makes it only after its rotation has succeeded |
| MobileSession.MobileSession.SecondReply | apps/courier-mobile/mobile-session.ts:108-117 | a second unauthorised answer empties memory and starts one more clear of storage; any other leaves both as they are; the request is over either way |
| MobileSession.MobileSession.RefreshReply | apps/courier-mobile/mobile-session.ts:143-155 | keeps the session valid; the pair being saved has a refresh token that was never sent, and memory changes only by being emptied on failure |
| MobileSession.MobileSession.RotationWritten | apps/courier-mobile/mobile-session.ts:77-79 | keeps the session valid; if storage changes, it holds a pair whose refresh token was never sent |
| MobileSession.MobileSession.RotationSaved | apps/courier-mobile/mobile-session.ts:77-81 | keeps the session valid; once the save has ended memory holds the pair saved, whose refresh token was never sent, and after a failed save it is empty |
| MobileSession.MobileSession.Settle | apps/courier-mobile/mobile-session.ts:126-128 | keeps the session valid; when the callback has run, no rotation is under way and the shared promise is given up |
| MobileSession.MobileSession.RestoreFinish | apps/courier-mobile/mobile-session.ts:64-75 | the session stays valid if and only if the pair found is not spent, and the `restore` is over |
| SearchSafety.AtMostTwoExpiries | apps/worker/src/order-acceptance-timeout.ts:70-90 | over every run an order expires at most twice, the second time for good, and is retried at most once |
| SearchSafety.EverySearchEndsOnce | apps/worker/src/order-acceptance-timeout.ts:36-110 | every search opened ends in exactly one of acceptance, expiry and cancellation, and there are as many as attempts and courier cancellations |
| SearchSafety.LogTellsRow | apps/worker/src/order-acceptance-timeout.ts:75-116 | folding an order's events gives its status, attempt count and version |
| SearchSafety.RankFalls | apps/worker/src/order-acceptance-timeout.ts:70-90 | the rank of attempts left and searching never rises, and falls with every expiry and every retry |
| SearchSafety.ReopenedWithoutEnd | apps/api/src/courier-orders/courier-orders.service.ts:600-632 | for every n there is a run in which n couriers give the order back and its first search is still open n windows later |
| SearchSafety.OpenFiveMinutes | apps/api/src/orders/order-domain.ts:11-42 | a search can be accepted for five minutes from its opening and is due from then on |
| SearchSafety.AcceptableOrDue | apps/api/src/courier-orders/courier-orders.service.ts:210-245 | at any instant a search can be accepted at its version exactly when it cannot expire |
| SearchSafety.StaleRequestFails | apps/api/src/courier-orders/courier-orders.service.ts:225-254 | a request made on a version that has passed changes nothing, whatever happened meanwhile |
| SearchSafety.OneRequestWins | apps/api/src/orders/orders.service.ts:827-857 | of two requests made on the same version of an order at most one succeeds |
| SearchSafety.LateAcceptIsRejected | apps/api/src/courier-orders/courier-orders.service.ts:210-254 | a courier who saw the order before it expired can never accept it afterwards |
| SearchSafety.CourierKeepsOrder | apps/worker/src/order-acceptance-timeout.ts:60-68 | an order with a courier never expires; only that courier's cancellation or the merchant's before pickup takes it away |
| SearchSafety.LogFollowsTable | apps/api/src/orders/order-domain.ts:110-139 | every recorded change is an edge of the published table, and no cancellation by a courier is |
| SearchSafety.EveryManagerIsToldOnce | apps/worker/src/order-acceptance-timeout.ts:118-154 | an expiry creates one new notification for each manager, saying whether it was final, and touches no other |
| SearchRows.PublishWrites | apps/api/src/orders/orders.service.ts:533-549 | a published order is searched for at once, in its first attempt, for five minutes |
| SearchRows.AcceptWrites | apps/api/src/courier-orders/courier-orders.service.ts:200-254 | exactly when a courier gets an order, and the row and event written |
| SearchRows.ExpireWrites | apps/worker/src/order-acceptance-timeout.ts:60-116 | exactly when a search expires, and the row and event written |
| SearchRows.RetryWrites | apps/api/src/orders/orders.service.ts:803-881 | exactly when a merchant may retry, and the row and event written |
| SearchRows.CourierCancelWrites | apps/api/src/courier-orders/courier-orders.service.ts:591-632 | exactly when a courier may give the order back, and the row and event written |
| SearchRows.MerchantCancelWrites | apps/api/src/orders/orders.service.ts:988-1064 | when a merchant's cancellation is free, when it makes the courier return the goods, and when it is refused |
| SearchRows.ProceedWrites | apps/api/src/courier-orders/courier-orders.service.ts:431-487 | the assigned courier alone moves the order, along eleven edges, at the version seen |
| SearchRows.ConcludeWrites | apps/api/src/orders/order-domain.ts:110-139 | a delivered or returned order is taken on along seven edges of the published table |
| AcceptanceWorker.SearchDatabase.NotifyManagers | apps/worker/src/order-acceptance-timeout.ts:118-154 | the loop adds one notification for each manager, final from the second attempt on, and leaves existing ones alone |
| AcceptanceWorker.SearchDatabase.ExpireOne | apps/worker/src/order-acceptance-timeout.ts:38-186 | one transaction expires the order iff it is searched for, unassigned and past its deadline, with the row, version and event it then writes |
| AcceptanceWorker.SearchDatabase.ExpireCourierAcceptanceWindows | apps/worker/src/order-acceptance-timeout.ts:22-205 | with any candidates and anything committed in between, the job is a run and counts the candidates it expired |
| AcceptanceWorker.CountIsGrowth | apps/worker/src/order-acceptance-timeout.ts:84-110 | the count is the number of version increments, and of COURIER_SEARCH_EXPIRED events, the job's own transactions made |
| AcceptanceWorker.CandidatesAreDealtWith | apps/worker/src/order-acceptance-timeout.ts:36-68 | when the job ends no candidate is still due, as long as other clocks are not behind the job's |
| AcceptanceWorker.UndisturbedJob | apps/worker/src/order-acceptance-timeout.ts:36-68 | without interference exactly the candidates stop being due |
| AcceptanceWorker.UndisturbedCount | apps/worker/src/order-acceptance-timeout.ts:35-187 | and the count is the number of distinct due candidates |
| PricingRules.OwnStepIsSound | apps/api/src/admin/phase-two-admin.service.ts:709-751 | a statement that takes only free locks keeps what every other transaction relies on |
| PricingSafety.CommitIsSound | apps/api/src/admin/phase-two-admin.service.ts:709-751 | a commit keeps one active rule in each zone and leaves no listed rule missed |
| PricingSafety.OneActiveRulePerZone | apps/api/src/admin/phase-two-admin.service.ts:693-753 | in every committed state of every interleaving each zone has at most one active rule, with no help from the unique index |
| PricingSafety.AdmitsExactly | apps/api/src/admin/phase-two-admin.service.ts:693-797 | which operation on a rule is let in, on what it is then to do, and at which statement it begins |
| PricingSafety.WriteFailsExactly | apps/api/src/admin/phase-two-admin.service.ts:740-803 | the write of the rule fails exactly when the row is gone or may not be deleted |
| PricingSafety.RolledBackForGood | apps/api/src/admin/phase-two-admin.service.ts:709-751 | a transaction rolled back has changed nothing, holds no lock and never changes anything |
| PricingSafety.ActiveRuleIsNeverDeleted | apps/api/src/admin/phase-two-admin.service.ts:801-808 | no step removes an active rule, although the first check is made outside the transaction |
| PricingSafety.CommitTouchesExactly | apps/api/src/admin/phase-two-admin.service.ts:709-751 | in every reachable state a commit gives its rule the status asked for or removes it, and touches no other rule but, for an activation, rules of its own zone, which become inactive |
| PricingArchive.ArchiveRetiresActiveExactly | apps/api/src/admin/phase-two-admin.service.ts:755-771 | an archiving is let in only for a rule that is not active, and its commit retires an active rule if and only if the rule has become active by the time its row is written |
| PricingArchive.ActiveRuleArchived | apps/api/src/admin/phase-two-admin.service.ts:755-771 | a run from an empty table in which a rule activated after it was let in is archived while active |
| PricingArchive.RetiredRuleRevived | apps/api/src/admin/phase-two-admin.service.ts:716-729 | a run in which a rule deactivated and archived after an activation had listed it is made inactive again |
| PricingSafety.LogDeterminesRules | apps/api/src/admin/phase-two-admin.service.ts:727-751 | folding the committed audit entries in the order of their commits gives the status or absence of every rule, replaced ones included |
| PricingSafety.CreationIsLogged | apps/api/src/admin/phase-two-admin.service.ts:611-623 | a creation keeps the log in agreement with every rule |
| PricingAdmin.PricingDatabase.ReplaceActive | apps/api/src/admin/phase-two-admin.service.ts:716-739 | exactly the zone's other active rules become inactive, every other rule stays, and each is audited |
| PricingAdmin.PricingDatabase.SetPricingStatus | apps/api/src/admin/phase-two-admin.service.ts:693-753 | when it fails and why; otherwise the rule has the status, the active rules of its zone it replaces are inactive, nothing else has changed, the audit log has grown by their entries and then its own, and the statements are those of one transaction |
| PricingAdmin.PricingDatabase.ArchivePricingRule | apps/api/src/admin/phase-two-admin.service.ts:755-773 | an active rule is refused, any other is retired and audited as archived, with no other rule changed, by one transaction |
| PricingAdmin.PricingDatabase.DeletePricingRule | apps/api/src/admin/phase-two-admin.service.ts:775-816 | an active rule is refused; one in use, and only such a one, is retired and audited as archived; any other is removed and audited as deleted if the database lets it; each by one transaction |
| PricingAdmin.SerialRun | apps/api/src/admin/phase-two-admin.service.ts:709-751 | a transaction that runs undisturbed has exactly the effect the code describes |
| PricingLog.DeletedRuleLoggedInactive | apps/api/src/admin/phase-two-admin.service.ts:716-739 | if rows can be deleted, a rule can be logged as inactive after its deletion |
| PricingLog.LastEntryTellsExactly | infrastructure/database/prisma/migrations/20260723160000_phase_2_orders_pricing_zones/migration.sql:507-546 | the last audit entry about a rule gives its state in every run if and only if the database refuses deletions |
| CourierReview.ReplayBreaksExactly | apps/api/src/admin/admin.service.ts:270-291 | a step keeps the replayed events in agreement with the status iff it is not the record of a replacement request that a submission has overtaken |
| CourierReview.LogReplays | apps/api/src/admin/admin.service.ts:243-305 | when each document review runs in one piece, replaying the events gives the courier's status after every run |
| CourierReview.OvertakenReview | apps/api/src/admin/admin.service.ts:270-291 | a run in which a review in two pieces leaves events that say otherwise |
| CourierReview.OneTransitionWins | apps/api/src/admin/admin.service.ts:374-401 | two transitions submitted with the same version cannot both succeed |
| CourierReview.RecordedMoveIsTrue | apps/api/src/admin/admin.service.ts:432-441 | the status an event says the courier left is the one the courier had when the write committed |
| CourierReview.OnlyAllowedMoves | apps/api/src/admin/admin.service.ts:345-368 | a courier moves only along the review's table, although a submission checks the status only when it reads |
| CourierReview.SubmissionAtOnce | apps/api/src/courier/courier.service.ts:385-437 | exactly when a submission puts a courier under review, and the row and event written |
| CourierReview.EditAtOnce | apps/api/src/courier/courier.service.ts:116-146 | exactly when an edit goes through; it changes the version only |
| CourierReview.OvertakenWriteFails | apps/api/src/admin/admin.service.ts:374-401 | a write overtaken by a newer version or by a lock writes nothing |
| CourierReview.RolledBackForGood | apps/api/src/admin/admin.service.ts:243-305 | a transaction rolled back has changed nothing, holds nothing and never writes |
| CourierReview.UploadWrites | apps/api/src/courier/courier.service.ts:273-332 | an upload adds a pending document and supersedes at most the one it names |
| CourierDocuments.VerdictsTell | apps/api/src/admin/admin.service.ts:238-291 | after every run a current document has the status its last recorded verdict names, pending when it has none; an approval is its last verdict; its review version counts its verdicts |
| CourierDocuments.ReviewableExactly | apps/api/src/admin/admin.service.ts:248-270 | in every reachable state a current document admits a review, at its own review version, iff its last verdict is not an approval |
| CourierDocuments.ApprovalIsFinal | apps/api/src/admin/admin.service.ts:248-270 | an approved document stays as it is until an upload supersedes it, and is never current again after that |
| CourierAdmin.CourierDatabase.TransitionCourier | apps/api/src/admin/admin.service.ts:308-445 | action by action: from which status it succeeds and to which it leads, when a reason or the papers are wanting, and the version and event written |
| CourierAdmin.CourierDatabase.ReviewDocument | apps/api/src/admin/admin.service.ts:225-306 | when each error is raised; the status each verdict gives the document; and that only a replacement request sends back a courier under review |
| TileCover.TilesForPoint | apps/merchant-web/app/open-map.ts:75-105 | the loops emit the tiles of the specification |
| TileCover.Doubles | apps/merchant-web/app/open-map.ts:87 | the number of tiles across the world is two to the power of the zoom level |
| TileCover.ExactCover | apps/merchant-web/app/open-map.ts:80-103 | every point of the view whose world row is on the map lies in exactly one tile, and that tile shows its part of the world |
| TileCover.CoveredExactly | apps/merchant-web/app/open-map.ts:88-90 | a point of the view is covered if and only if its world row is on the map |
| TileCover.TilesTouchView | apps/merchant-web/app/open-map.ts:83-101 | each tile reaches into the view, with column and row in [0, 2^zoom) |
| TileCover.WrappedIs | apps/merchant-web/app/open-map.ts:92 | wrapping with the truncating remainder gives the residue |
| TileCover.KeysDistinctExactly | apps/merchant-web/app/open-map.ts:91-94 | the keys are distinct if and only if the view is at most one world wide or shows no row |

## Left out

- 32-bit casts of the totals in the closing statement, and numbers beyond 2^53: amounts are unbounded.
- Serialisation failures and deadlocks: such a transaction changes nothing; in `FinanceWorker` the exception that ends the job is modelled for constraints and a missing settings row only.
- Candidate queries and their limit of 100 rows: the lists are arbitrary, so every query result is included.
- Notifications of the finance jobs, realtime publishing, and audit rows of orders and settlements: written beside the modelled rows, never read back.
- Idempotency keys: a replayed request returns the stored result.
- Time zones (`weeklySettlementBounds`, `cairoPeriodBounds`, the count of remaining Cairo days): they need time-zone data; the window and the count are parameters.
- Instants before 1970.
- The order of periods that start at the same instant, which the payment's query takes from their ids: any order is allowed.
- Payment proofs, which call the same accounting command.
- Cumulative over-credit across several payments to one period: rounding starts anew with each payment.
- `parseStoredTokens`: what is stored is a pair that was saved.
- Agreement of the session's memory and storage while a sign-out overlaps a rotation: the code does not keep it.
- Events that record no change of an order (its draft, its quote, a dispute resolved in favour of delivery).
- Prices, versions and families of pricing rules, which the database keeps immutable and unique.
- CourierReview.ReadTransition: the check of account, vehicles and documents is an input, as is that of a submission; service zones are not modelled.
- Service-zone deletion, prices of a delivery and of a return trip, map projection and the picker's reducer, screens, controllers and authentication.
