/** The finance tables and the transactions that change them: the worker's three jobs and the
    transactions of the API that touch the same rows.  A row id is the row's position. */
module FinanceBooks {
  import opened Options
  import opened Sums
  import opened PaymentAllocation
  import opened WeeklyWindows

  // ---------------------------------------------------------------- tables

  datatype OrderStatus = DELIVERED | DELIVERY_DISPUTED | RETURNED | COMPLETED | OTHER_STATUS

  datatype Order = Order(
    status: OrderStatus,
    finalizedAt: Option<int>,
    disputeDeadline: Option<int>,
    hasDispute: bool,
    courier: Option<string>,
    commission: int,
    version: nat)

  datatype EntryKind =
    COMMISSION_DUE | EXTERNAL_PAYMENT | ADJUSTMENT_DEBIT | ADJUSTMENT_CREDIT | WAIVER | REVERSAL

  datatype Entry = Entry(
    courier: string,
    order: Option<nat>,
    kind: EntryKind,
    amount: int,
    occurredAt: int,
    reverses: Option<nat>)

  /** Periods are unique by courier and window. */
  datatype PeriodKey = PeriodKey(courier: string, start: int, end: int)

  datatype PeriodStatus =
    OPEN | CLOSED | NOT_DUE | DUE_SOON | PARTIALLY_PAID | PAID | OVERDUE | WAIVED | ADJUSTED

  datatype Totals = Totals(commission: int, payments: int, adjustments: int, waived: int, remaining: int)

  datatype Period = Period(
    dueAt: int,
    totals: Totals,
    status: PeriodStatus,
    version: nat,
    closedAt: Option<int>)

  datatype Line = Line(period: PeriodKey, amount: int)

  /** A payment with its allocations to periods; `reverses` names the payment it takes back and
      `entry` its ledger entry. */
  datatype Payment = Payment(
    courier: string,
    amount: int,
    parts: map<PeriodKey, int>,
    reverses: Option<nat>,
    entry: nat)

  datatype Books = Books(
    orders: seq<Order>,
    ledger: seq<Entry>,
    periods: map<PeriodKey, Period>,
    lines: map<nat, Line>,
    payments: seq<Payment>,
    completedOrders: map<string, nat>)

  const EMPTY := Books([], [], map[], map[], [], map[])

  // ---------------------------------------------------------------- totals recomputed from the rows

  const COMMISSION_KINDS := {COMMISSION_DUE}
  const ADJUSTMENT_KINDS := {ADJUSTMENT_DEBIT, ADJUSTMENT_CREDIT, REVERSAL}
  const WAIVER_KINDS := {WAIVER}

  /** What row i of the ledger adds to a period's sum over some kinds, through its line. */
  function LineShare(ledger: seq<Entry>, lines: map<nat, Line>, key: PeriodKey, kinds: set<EntryKind>): nat -> int {
    (i: nat) =>
      if i < |ledger| && i in lines && lines[i].period == key && ledger[i].kind in kinds then ledger[i].amount else 0
  }

  function LineTotal(ledger: seq<Entry>, lines: map<nat, Line>, key: PeriodKey, kinds: set<EntryKind>): int {
    SumTo(|ledger|, LineShare(ledger, lines, key, kinds))
  }

  predicate Reversed(payments: seq<Payment>, p: nat) {
    exists q :: 0 <= q < |payments| && payments[q].reverses == Some(p)
  }

  /** What payment p contributes to a period: nothing when it is a reversal or has been reversed. */
  function PaidShare(payments: seq<Payment>, key: PeriodKey): nat -> int {
    (p: nat) =>
      if p < |payments| && payments[p].reverses == None && !Reversed(payments, p) && key in payments[p].parts
      then payments[p].parts[key] else 0
  }

  function Paid(payments: seq<Payment>, key: PeriodKey): int {
    SumTo(|payments|, PaidShare(payments, key))
  }

  function Abs(x: int): int { if x < 0 then -x else x }

  function AtLeastZero(x: int): int { if x < 0 then 0 else x }

  function Balance(t: Totals): int {
    t.commission + t.adjustments - t.waived - t.payments
  }

  function Recomputed(ledger: seq<Entry>, lines: map<nat, Line>, payments: seq<Payment>, key: PeriodKey): Totals {
    var commission := LineTotal(ledger, lines, key, COMMISSION_KINDS);
    var adjustments := LineTotal(ledger, lines, key, ADJUSTMENT_KINDS);
    var waived := Abs(LineTotal(ledger, lines, key, WAIVER_KINDS));
    var paid := Paid(payments, key);
    Totals(commission, paid, adjustments, waived, AtLeastZero(commission + adjustments - waived - paid))
  }

  // ---------------------------------------------------------------- database constraints

  /** The sign constraint of the ledger. */
  predicate SignAllowed(e: Entry) {
    match e.kind
    case COMMISSION_DUE => e.amount >= 0
    case ADJUSTMENT_DEBIT => e.amount > 0
    case EXTERNAL_PAYMENT => e.amount < 0
    case ADJUSTMENT_CREDIT => e.amount < 0
    case WAIVER => e.amount < 0
    case REVERSAL => e.amount != 0
  }

  /** The projection constraint of a settlement period. */
  predicate TotalsAllowed(t: Totals) {
    t.commission >= 0 && t.payments >= 0 && t.waived >= 0 && t.remaining == AtLeastZero(Balance(t))
  }

  // ---------------------------------------------------------------- worker transactions

  /** Committed with a change, committed without one, or rolled back by an exception. */
  datatype Outcome = Done | Skipped | Failed

  predicate MayComplete(b: Books, id: nat, now: int) {
    id < |b.orders| &&
    var o := b.orders[id];
    o.status == DELIVERED && o.finalizedAt == None && o.disputeDeadline.Some? && o.disputeDeadline.value <= now &&
    !o.hasDispute && o.courier.Some?
  }

  function CompletionEntry(o: Order, id: nat, now: int): Entry
    requires o.courier.Some?
  {
    Entry(o.courier.value, Some(id), COMMISSION_DUE, o.commission, now, None)
  }

  /** The period a completion at `now` is booked to. */
  function TargetPeriod(courier: string, now: nat, grace: int): PeriodKey {
    var w := WeeklyBounds(now, grace);
    PeriodKey(courier, w.periodStart, w.periodEnd)
  }

  /** The upsert of the settlement period: running totals go up by the commission. */
  function Incremented(b: Books, key: PeriodKey, dueAt: int, amount: int): Period {
    if key in b.periods then
      var p := b.periods[key];
      p.(totals := p.totals.(commission := p.totals.commission + amount, remaining := p.totals.remaining + amount),
         version := p.version + 1)
    else Period(dueAt, Totals(amount, 0, 0, 0, amount), OPEN, 1, None)
  }

  function CompletedCount(b: Books, courier: string): nat {
    if courier in b.completedOrders then b.completedOrders[courier] else 0
  }

  /** Row changes of a completion, once its guards and the constraints hold. */
  function Completed(b: Books, id: nat, entry: Entry, key: PeriodKey, period: Period, now: int): Books
    requires id < |b.orders|
  {
    var o := b.orders[id];
    b.(orders := b.orders[id := o.(status := COMPLETED, finalizedAt := Some(now), version := o.version + 1)],
       ledger := b.ledger + [entry],
       periods := b.periods[key := period],
       lines := b.lines[|b.ledger| := Line(key, entry.amount)],
       completedOrders := b.completedOrders[entry.courier := CompletedCount(b, entry.courier) + 1])
  }

  function CompletionOutcome(b: Books, id: nat, now: nat, grace: Option<int>): Outcome {
    if !MayComplete(b, id, now) then Skipped
    else if grace == None then Failed
    else
      var o := b.orders[id];
      var w := WeeklyBounds(now, grace.value);
      var key := TargetPeriod(o.courier.value, now, grace.value);
      if o.commission < 0 || !TotalsAllowed(Incremented(b, key, w.dueAt, o.commission).totals) then Failed else Done
  }

  /** One transaction of the completion job.  `grace` is the settings row in force, if there is one. */
  function CompleteOrder(b: Books, id: nat, now: nat, grace: Option<int>): Books {
    if CompletionOutcome(b, id, now, grace) != Done then b
    else
      var o := b.orders[id];
      var w := WeeklyBounds(now, grace.value);
      var key := TargetPeriod(o.courier.value, now, grace.value);
      Completed(b, id, CompletionEntry(o, id, now), key, Incremented(b, key, w.dueAt, o.commission), now)
  }

  predicate MayClose(b: Books, key: PeriodKey, now: int) {
    key in b.periods && b.periods[key].status == OPEN && key.end <= now
  }

  predicate InWindow(e: Entry, key: PeriodKey) {
    e.courier == key.courier && key.start <= e.occurredAt < key.end
  }

  /** Lines inserted by closing: one for every entry of the window that has none yet. */
  function Backfilled(b: Books, key: PeriodKey): map<nat, Line> {
    b.lines +
    map i: nat | i < |b.ledger| && i !in b.lines && InWindow(b.ledger[i], key) :: Line(key, b.ledger[i].amount)
  }

  function ClosingStatus(remaining: int, dueAt: int, now: int): PeriodStatus {
    if remaining == 0 then PAID
    else if dueAt < now then OVERDUE
    else if dueAt <= now + 2 * 86_400_000 then DUE_SOON
    else NOT_DUE
  }

  /** One transaction of the closing job. */
  function CloseSettlement(b: Books, key: PeriodKey, now: int): Books {
    if !MayClose(b, key, now) then b
    else
      var lines := Backfilled(b, key);
      var p := b.periods[key];
      var totals := Recomputed(b.ledger, lines, b.payments, key);
      b.(lines := lines,
         periods := b.periods[key := p.(totals := totals, status := ClosingStatus(totals.remaining, p.dueAt, now),
                                        closedAt := Some(now), version := p.version + 1)])
  }

  predicate BecomesOverdue(p: Period, now: int) {
    p.status in {CLOSED, NOT_DUE, DUE_SOON, PARTIALLY_PAID, ADJUSTED} &&
    p.totals.remaining > 0 && p.dueAt < now && p.closedAt.Some?
  }

  /** The single statement of the overdue job. */
  function MarkOverdue(b: Books, now: int): Books {
    b.(periods := map k | k in b.periods ::
      if BecomesOverdue(b.periods[k], now)
      then b.periods[k].(status := OVERDUE, version := b.periods[k].version + 1)
      else b.periods[k])
  }

  // ---------------------------------------------------------------- API transactions on the same rows

  /** The status the API derives after recomputing; `soon` is whether at most two Cairo days remain. */
  function RefreshedStatus(open: bool, t: Totals, dueAt: int, now: int, soon: bool): PeriodStatus {
    if open then OPEN
    else if t.remaining == 0 then (if t.waived > 0 && t.payments == 0 then WAIVED else PAID)
    else if now > dueAt then OVERDUE
    else if t.payments > 0 then PARTIALLY_PAID
    else if t.adjustments != 0 || t.waived > 0 then ADJUSTED
    else if soon then DUE_SOON else NOT_DUE
  }

  /** The API's projection refresh of the periods in `keys`. */
  function Refresh(b: Books, keys: set<PeriodKey>, now: int, soon: set<PeriodKey>): Books {
    b.(periods := map k | k in b.periods ::
      if k !in keys then b.periods[k]
      else
        var p, t := b.periods[k], Recomputed(b.ledger, b.lines, b.payments, k);
        p.(totals := t, status := RefreshedStatus(p.status == OPEN, t, p.dueAt, now, k in soon),
           version := p.version + 1))
  }

  /** Closing by an administrator, who names the version seen: the missing lines, a projection refresh of
      the period while it is still open, and its status. */
  function CloseByApi(b: Books, key: PeriodKey, version: nat, now: int, soon: set<PeriodKey>): Books {
    if !MayClose(b, key, now) || b.periods[key].version != version then b
    else
      var refreshed := Refresh(b.(lines := Backfilled(b, key)), {key}, now, soon);
      var p := refreshed.periods[key];
      refreshed.(periods := refreshed.periods[key :=
        p.(status := RefreshedStatus(false, p.totals, p.dueAt, now, key in soon), closedAt := Some(now),
           version := p.version + 1)])
  }

  /** Finalisation by the API, after a dispute or a return, into the window the API computed. */
  predicate MayFinalize(b: Books, id: nat, now: int, w: Bounds) {
    id < |b.orders| &&
    var o := b.orders[id];
    o.status in {DELIVERY_DISPUTED, RETURNED} && o.finalizedAt == None && o.courier.Some? && o.commission >= 0 &&
    w.periodStart <= now < w.periodEnd
  }

  function FinalizeOrder(b: Books, id: nat, now: int, w: Bounds, soon: set<PeriodKey>): Books {
    if !MayFinalize(b, id, now, w) then b
    else
      var o := b.orders[id];
      var key := PeriodKey(o.courier.value, w.periodStart, w.periodEnd);
      var period := if key in b.periods then b.periods[key] else Period(w.dueAt, Totals(0, 0, 0, 0, 0), OPEN, 1, None);
      Refresh(Completed(b, id, CompletionEntry(o, id, now), key, period, now), {key}, now, soon)
  }

  predicate Outstanding(b: Books, courier: string, k: PeriodKey) {
    k in b.periods && k.courier == courier && b.periods[k].status != OPEN && b.periods[k].totals.remaining > 0
  }

  function Owed(periods: map<PeriodKey, Period>): PeriodKey -> int {
    (k: PeriodKey) => if k in periods then periods[k].totals.remaining else 0
  }

  /** What the query for a payment returns: the courier's closed periods that still owe something, oldest
      first.  Periods that start together come in the order of their ids, which may be any. */
  predicate ListsOutstanding(b: Books, courier: string, owing: seq<PeriodKey>) {
    NoDuplicates(owing) &&
    (forall k :: k in owing ==> Outstanding(b, courier, k)) &&
    (forall k :: k in b.periods && Outstanding(b, courier, k) ==> k in owing) &&
    (forall i, j :: 0 <= i < j < |owing| ==> owing[i].start <= owing[j].start)
  }

  /** A payment may not exceed what the courier's closed periods owe. */
  predicate MayPay(b: Books, courier: string, amount: int, owing: seq<PeriodKey>) {
    ListsOutstanding(b, courier, owing) && 0 < amount <= SumBy(owing, Owed(b.periods))
  }

  function RecordPayment(
    b: Books, courier: string, amount: int, paidAt: int, owing: seq<PeriodKey>, now: int, soon: set<PeriodKey>): Books
  {
    if !MayPay(b, courier, amount, owing) then b
    else
      var parts := Allocate(owing, Owed(b.periods), amount);
      var paid := b.(payments := b.payments + [Payment(courier, amount, parts, None, |b.ledger|)],
                     ledger := b.ledger + [Entry(courier, None, EXTERNAL_PAYMENT, -amount, paidAt, None)]);
      Refresh(paid, parts.Keys, now, soon)
  }

  /** No entry takes back entry i; the database allows one at most. */
  predicate NotTakenBack(ledger: seq<Entry>, i: nat) {
    forall j :: 0 <= j < |ledger| ==> ledger[j].reverses != Some(i)
  }

  predicate MayReverse(b: Books, p: nat) {
    p < |b.payments| && b.payments[p].reverses == None && !Reversed(b.payments, p) &&
    NotTakenBack(b.ledger, b.payments[p].entry)
  }

  function ReversePayment(b: Books, p: nat, now: int, soon: set<PeriodKey>): Books {
    if !MayReverse(b, p) then b
    else
      var original := b.payments[p];
      var reversed := b.(
        payments := b.payments + [Payment(original.courier, original.amount, original.parts, Some(p), |b.ledger|)],
        ledger := b.ledger + [Entry(original.courier, None, REVERSAL, original.amount, now, Some(original.entry))]);
      Refresh(reversed, original.parts.Keys, now, soon)
  }

  /** An administrator's adjustment, waiver or reversal, booked to a chosen period of the courier. */
  predicate MayAdjust(b: Books, e: Entry, key: PeriodKey) {
    key in b.periods && e.courier == key.courier && SignAllowed(e) &&
    match e.kind
    case COMMISSION_DUE => false
    case EXTERNAL_PAYMENT => false
    case REVERSAL =>
      e.reverses.Some? && e.reverses.value < |b.ledger| &&
      b.ledger[e.reverses.value].courier == e.courier && e.amount == -b.ledger[e.reverses.value].amount &&
      NotTakenBack(b.ledger, e.reverses.value)
    case _ => e.reverses == None
  }

  function Adjust(b: Books, e: Entry, key: PeriodKey, now: int, soon: set<PeriodKey>): Books {
    if !MayAdjust(b, e, key) then b
    else
      Refresh(b.(ledger := b.ledger + [e], lines := b.lines[|b.ledger| := Line(key, e.amount)]), {key}, now, soon)
  }

  /** Everything else that happens to an order before it is finalised: creation, delivery, disputes,
      returns, cancellation, a change of courier. */
  predicate MayChange(b: Books, id: nat, o: Order) {
    o.finalizedAt == None && o.status != COMPLETED &&
    id <= |b.orders| && (id < |b.orders| ==> b.orders[id].finalizedAt == None)
  }

  function ChangeOrder(b: Books, id: nat, o: Order): Books {
    if !MayChange(b, id, o) then b
    else if id == |b.orders| then b.(orders := b.orders + [o])
    else b.(orders := b.orders[id := o])
  }

  // ---------------------------------------------------------------- runs

  datatype Step =
    | Complete(id: nat, now: nat, grace: Option<int>)
    | Close(key: PeriodKey, now: nat)
    | ApiClose(key: PeriodKey, version: nat, now: nat, soon: set<PeriodKey>)
    | Overdue(now: nat)
    | Finalize(id: nat, now: nat, window: Bounds, soon: set<PeriodKey>)
    | Pay(courier: string, amount: int, paidAt: int, owing: seq<PeriodKey>, now: nat, soon: set<PeriodKey>)
    | Reverse(payment: nat, now: nat, soon: set<PeriodKey>)
    | AdjustBy(entry: Entry, key: PeriodKey, now: nat, soon: set<PeriodKey>)
    | Change(id: nat, order: Order, now: nat)

  function Apply(b: Books, s: Step): Books {
    match s
    case Complete(id, now, grace) => CompleteOrder(b, id, now, grace)
    case Close(key, now) => CloseSettlement(b, key, now)
    case ApiClose(key, version, now, soon) => CloseByApi(b, key, version, now, soon)
    case Overdue(now) => MarkOverdue(b, now)
    case Finalize(id, now, window, soon) => FinalizeOrder(b, id, now, window, soon)
    case Pay(courier, amount, paidAt, owing, now, soon) => RecordPayment(b, courier, amount, paidAt, owing, now, soon)
    case Reverse(payment, now, soon) => ReversePayment(b, payment, now, soon)
    case AdjustBy(entry, key, now, soon) => Adjust(b, entry, key, now, soon)
    case Change(id, order, now) => ChangeOrder(b, id, order)
  }

  function Run(b: Books, steps: seq<Step>): Books
    decreases |steps|
  {
    if steps == [] then b else Run(Apply(b, steps[0]), steps[1..])
  }

  lemma {:induction false} RunConcat(b: Books, p: seq<Step>, q: seq<Step>)
    ensures Run(b, p + q) == Run(Run(b, p), q)
    decreases |p|
  {
    if p == [] {
      assert p + q == q;
    } else {
      assert (p + q)[0] == p[0] && (p + q)[1..] == p[1..] + q;
      RunConcat(Apply(b, p[0]), p[1..], q);
    }
  }

  /** The clock of a run never goes back, starting from t. */
  ghost predicate ClockFrom(steps: seq<Step>, t: int)
    decreases |steps|
  {
    steps == [] || (t <= steps[0].now && ClockFrom(steps[1..], steps[0].now))
  }
}
