/** Runs from empty tables on which the books go wrong, each the shortest of its kind. */
module FinanceFindings {
  import opened Options
  import opened Sums
  import opened Calendar
  import opened WeeklyWindows
  import opened FinanceBooks
  import opened BookInvariants
  import opened Closing
  import opened SettlementClock

  const COURIER := "c"

  /** The weeks of the worker that hold the epoch and the instant it ends. */
  const WEEK_ZERO := PeriodKey(COURIER, WeekStart(0), WeekStart(1))
  const WEEK_ONE := PeriodKey(COURIER, WeekStart(1), WeekStart(2))
  const SWITCH := WeekStart(1)

  /** The API's week around that instant: from Monday 29 December 1969 to Monday 5 January 1970, in
      Cairo, then two hours ahead of UTC. */
  const MONDAY_WEEK := PeriodKey(COURIER, -266_400_000, 338_400_000)
  const MONDAY_BOUNDS := Bounds(-266_400_000, 338_400_000, 943_200_000)

  const GRACE := 7
  const DUE_ZERO := WeekStart(1) + GRACE * MS_PER_DAY
  const DUE_ONE := WeekStart(2) + GRACE * MS_PER_DAY

  function Delivered(commission: int): Order {
    Order(DELIVERED, None, Some(0), false, Some(COURIER), commission, 1)
  }

  function ReturnedOrder(commission: int): Order {
    Order(RETURNED, None, None, false, Some(COURIER), commission, 1)
  }

  function Finished(o: Order, at: int): Order {
    o.(status := COMPLETED, finalizedAt := Some(at), version := o.version + 1)
  }

  function Commission(id: nat, amount: int, at: int): Entry {
    Entry(COURIER, Some(id), COMMISSION_DUE, amount, at, None)
  }

  /** One step more. */
  lemma Then(steps: seq<Step>, b: Books, s: Step, b': Books)
    requires Run(EMPTY, steps) == b && Apply(b, s) == b'
    ensures Run(EMPTY, steps + [s]) == b'
  {
    RunConcat(EMPTY, steps, [s]);
    assert Run(b, [s]) == Run(Apply(b, s), []);
  }

  lemma ThenComplete(steps: seq<Step>, b: Books, id: nat, now: nat)
    requires Run(EMPTY, steps) == b
    ensures Run(EMPTY, steps + [Complete(id, now, Some(GRACE))]) == CompleteOrder(b, id, now, Some(GRACE))
  {
    Then(steps, b, Complete(id, now, Some(GRACE)), CompleteOrder(b, id, now, Some(GRACE)));
  }

  lemma ThenAdjust(steps: seq<Step>, b: Books, e: Entry, key: PeriodKey, now: nat, soon: set<PeriodKey>)
    requires Run(EMPTY, steps) == b
    ensures Run(EMPTY, steps + [AdjustBy(e, key, now, soon)]) == Adjust(b, e, key, now, soon)
  {
    Then(steps, b, AdjustBy(e, key, now, soon), Adjust(b, e, key, now, soon));
  }

  lemma WeekOf(now: int, k: int)
    requires now >= 0 && WeekStart(k) <= now < WeekStart(k + 1)
    ensures WeeklyBounds(now, GRACE) == Bounds(WeekStart(k), WeekStart(k + 1), WeekStart(k + 1) + GRACE * MS_PER_DAY)
  {
    var m := WindowIsWeek(now, GRACE);
    if m < k {
      WeeksAscend(m, k);
    } else if k < m {
      WeeksAscend(k, m);
    }
  }

  predicate Counts(ledger: seq<Entry>, lines: map<nat, Line>, key: PeriodKey, kinds: set<EntryKind>, i: nat) {
    i < |ledger| && i in lines && lines[i].period == key && ledger[i].kind in kinds
  }

  lemma NoneCounts(ledger: seq<Entry>, lines: map<nat, Line>, key: PeriodKey, kinds: set<EntryKind>)
    requires forall j: nat :: j < |ledger| ==> !Counts(ledger, lines, key, kinds, j)
    ensures LineTotal(ledger, lines, key, kinds) == 0
  {
    forall j: nat | j < |ledger| ensures LineShare(ledger, lines, key, kinds)(j) == 0 {
      assert !Counts(ledger, lines, key, kinds, j);
    }
    Congruent(|ledger|, Zero(), LineShare(ledger, lines, key, kinds));
    SumOfZeros(|ledger|);
  }

  lemma OneCounts(ledger: seq<Entry>, lines: map<nat, Line>, key: PeriodKey, kinds: set<EntryKind>, i: nat)
    requires Counts(ledger, lines, key, kinds, i)
    requires forall j: nat :: j < |ledger| && j != i ==> !Counts(ledger, lines, key, kinds, j)
    ensures LineTotal(ledger, lines, key, kinds) == ledger[i].amount
  {
    forall j: nat | j < |ledger| && j != i ensures LineShare(ledger, lines, key, kinds)(j) == 0 {
      assert !Counts(ledger, lines, key, kinds, j);
    }
    DifferAt(|ledger|, Zero(), LineShare(ledger, lines, key, kinds), i);
    SumOfZeros(|ledger|);
  }

  /** The recomputed totals of a period with a single line, a commission. */
  lemma OneCommission(ledger: seq<Entry>, lines: map<nat, Line>, payments: seq<Payment>, key: PeriodKey, i: nat)
    requires Counts(ledger, lines, key, COMMISSION_KINDS, i)
    requires forall j :: j in lines && lines[j].period == key ==> j == i
    ensures var c, p := ledger[i].amount, Paid(payments, key);
            Recomputed(ledger, lines, payments, key) == Totals(c, p, 0, 0, AtLeastZero(c - p))
  {
    OneCounts(ledger, lines, key, COMMISSION_KINDS, i);
    NoneCounts(ledger, lines, key, ADJUSTMENT_KINDS);
    NoneCounts(ledger, lines, key, WAIVER_KINDS);
  }

  lemma PaidByFirst(payments: seq<Payment>, key: PeriodKey)
    requires |payments| == 1
    ensures Paid(payments, key) == PaidShare(payments, key)(0)
  {
    assert SumTo(1, PaidShare(payments, key)) == SumTo(0, PaidShare(payments, key)) + PaidShare(payments, key)(0);
  }

  // ---------------------------------------------------------------- the first order

  /** One order completed at the epoch. */
  function FirstBooked(commission: int): Books {
    Books([Finished(Delivered(commission), 0)], [Commission(0, commission, 0)],
          map[WEEK_ZERO := Period(DUE_ZERO, Totals(commission, 0, 0, 0, commission), OPEN, 1, None)],
          map[0 := Line(WEEK_ZERO, commission)], [], map[COURIER := 1])
  }

  function FirstOrder(commission: int): Books {
    Books([Delivered(commission)], [], map[], map[], [], map[])
  }

  lemma FirstChange(commission: nat)
    ensures Apply(EMPTY, Change(0, Delivered(commission), 0)) == FirstOrder(commission)
  {}

  lemma FirstCompletion(commission: nat)
    ensures CompleteOrder(FirstOrder(commission), 0, 0, Some(GRACE)) == FirstBooked(commission)
  {
    WeekOf(0, 0);
  }

  lemma FirstRun(commission: nat) returns (steps: seq<Step>)
    ensures Run(EMPTY, steps) == FirstBooked(commission)
  {
    FirstChange(commission);
    FirstCompletion(commission);
    Then([], EMPTY, Change(0, Delivered(commission), 0), FirstOrder(commission));
    steps := [] + [Change(0, Delivered(commission), 0)];
    ThenComplete(steps, FirstOrder(commission), 0, 0);
    steps := steps + [Complete(0, 0, Some(GRACE))];
  }

  /** ... whose week has been closed when it ended. */
  function FirstClosed(commission: int): Books {
    FirstBooked(commission).(periods := map[WEEK_ZERO :=
      Period(DUE_ZERO, Totals(commission, 0, 0, 0, commission), if commission == 0 then PAID else NOT_DUE, 2,
             Some(SWITCH))])
  }

  lemma FirstTotals(commission: nat)
    ensures var b := FirstBooked(commission);
            Backfilled(b, WEEK_ZERO) == b.lines &&
            Recomputed(b.ledger, b.lines, b.payments, WEEK_ZERO) == Totals(commission, 0, 0, 0, commission)
  {
    var b := FirstBooked(commission);
    OneCommission(b.ledger, b.lines, b.payments, WEEK_ZERO, 0);
  }

  lemma FirstClose(commission: nat)
    ensures CloseSettlement(FirstBooked(commission), WEEK_ZERO, SWITCH) == FirstClosed(commission)
  {
    FirstTotals(commission);
  }

  lemma ClosedRun(commission: nat) returns (steps: seq<Step>)
    ensures Run(EMPTY, steps) == FirstClosed(commission)
    ensures |steps| >= 1 && steps[|steps| - 1] == Close(WEEK_ZERO, SWITCH)
  {
    steps := FirstRun(commission);
    FirstClose(commission);
    Then(steps, FirstBooked(commission), Close(WEEK_ZERO, SWITCH), FirstClosed(commission));
    steps := steps + [Close(WEEK_ZERO, SWITCH)];
  }

  // ---------------------------------------------------------------- a clock that goes back

  /** A second order of 60, delivered after a week without commission has been closed as PAID. */
  function LateOrder(): Books {
    FirstClosed(0).(orders := [Finished(Delivered(0), 0), Delivered(60)])
  }

  function BookedLate(): Books {
    Books([Finished(Delivered(0), 0), Finished(Delivered(60), 0)], [Commission(0, 0, 0), Commission(1, 60, 0)],
          map[WEEK_ZERO := Period(DUE_ZERO, Totals(60, 0, 0, 0, 60), PAID, 3, Some(SWITCH))],
          map[0 := Line(WEEK_ZERO, 0), 1 := Line(WEEK_ZERO, 60)], [], map[COURIER := 2])
  }

  lemma LateChange()
    ensures Apply(FirstClosed(0), Change(1, Delivered(60), SWITCH)) == LateOrder()
  {}

  lemma LateCompletion()
    ensures CompleteOrder(LateOrder(), 1, 0, Some(GRACE)) == BookedLate()
  {
    WeekOf(0, 0);
  }

  lemma LateBookingStays(later: int)
    ensures MarkOverdue(BookedLate(), later) == BookedLate()
  {
    assert MarkOverdue(BookedLate(), later).periods == BookedLate().periods;
  }

  /** A week without commission is closed as PAID when it ends, and a completion by a worker whose clock
      is behind books 60 to it.  It stays PAID, and no later run of the overdue job changes it. */
  lemma StaleClockRun(later: int) returns (steps: seq<Step>)
    ensures |steps| >= 3 && steps[|steps| - 3] == Close(WEEK_ZERO, SWITCH)
    ensures steps[|steps| - 1] == Complete(1, 0, Some(GRACE)) && 0 < SWITCH
    ensures Run(EMPTY, steps) == BookedLate() && MarkOverdue(BookedLate(), later) == BookedLate()
  {
    var change, complete := Change(1, Delivered(60), SWITCH), Complete(1, 0, Some(GRACE));
    steps := ClosedRun(0);
    LateChange();
    Then(steps, FirstClosed(0), change, LateOrder());
    LateCompletion();
    ThenComplete(steps + [change], LateOrder(), 1, 0);
    steps := steps + [change] + [complete];
    LateBookingStays(later);
  }

  // ---------------------------------------------------------------- credits below zero

  const CREDIT := Entry(COURIER, None, ADJUSTMENT_CREDIT, -150, 0, None)

  function Credited(): Books {
    Books([Finished(Delivered(100), 0)], [Commission(0, 100, 0), CREDIT],
          map[WEEK_ZERO := Period(DUE_ZERO, Totals(100, 0, -150, 0, 0), OPEN, 2, None)],
          map[0 := Line(WEEK_ZERO, 100), 1 := Line(WEEK_ZERO, -150)], [], map[COURIER := 1])
  }

  lemma CreditTotals()
    ensures Recomputed(Credited().ledger, Credited().lines, [], WEEK_ZERO) == Totals(100, 0, -150, 0, 0)
  {
    OneCounts(Credited().ledger, Credited().lines, WEEK_ZERO, COMMISSION_KINDS, 0);
    OneCounts(Credited().ledger, Credited().lines, WEEK_ZERO, ADJUSTMENT_KINDS, 1);
    NoneCounts(Credited().ledger, Credited().lines, WEEK_ZERO, WAIVER_KINDS);
  }

  lemma CreditStep()
    ensures Adjust(FirstBooked(100), CREDIT, WEEK_ZERO, 0, {}) == Credited()
  {
    var unrefreshed := Credited().(periods := FirstBooked(100).periods);
    CreditTotals();
    RefreshOne(unrefreshed, WEEK_ZERO, 0, {});
    assert [Commission(0, 100, 0)] + [CREDIT] == Credited().ledger;
  }

  function CreditedAndDelivered(): Books {
    Credited().(orders := [Finished(Delivered(100), 0), Delivered(60)])
  }

  lemma CreditedChange()
    ensures Apply(Credited(), Change(1, Delivered(60), 0)) == CreditedAndDelivered()
  {}

  lemma CreditedCompletionFails()
    ensures MayComplete(CreditedAndDelivered(), 1, 0)
    ensures CompletionOutcome(CreditedAndDelivered(), 1, 0, Some(GRACE)) == Failed
  {
    WeekOf(0, 0);
  }

  /** After a credit of 150 on a week of 100, an order that is due cannot be completed: its transaction
      fails, and with it the job. */
  lemma CreditRun() returns (steps: seq<Step>)
    ensures Run(EMPTY, steps) == CreditedAndDelivered()
    ensures MayComplete(CreditedAndDelivered(), 1, 0)
    ensures CompletionOutcome(CreditedAndDelivered(), 1, 0, Some(GRACE)) == Failed
  {
    var credit, change := AdjustBy(CREDIT, WEEK_ZERO, 0, {}), Change(1, Delivered(60), 0);
    steps := FirstRun(100);
    CreditStep();
    ThenAdjust(steps, FirstBooked(100), CREDIT, WEEK_ZERO, 0, {});
    CreditedChange();
    Then(steps + [credit], Credited(), change, CreditedAndDelivered());
    steps := steps + [credit] + [change];
    CreditedCompletionFails();
  }
}
