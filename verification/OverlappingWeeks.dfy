/** A run from empty tables in which a week of the worker overlaps one of the API: a commission strays, and
    a payment taken back is charged again in whichever of the two weeks is closed first. */
module OverlappingWeeks {
  import opened Options
  import opened Sums
  import opened Calendar
  import opened WeeklyWindows
  import opened FinanceBooks
  import opened BookInvariants
  import opened Closing
  import opened PaymentAllocation
  import opened CourierAccount
  import opened FinanceFindings

  // ---------------------------------------------------------------- steps, on any tables

  /** One period refreshed. */
  function Refreshed(b: Books, key: PeriodKey, t: Totals, at: int): Books
    requires key in b.periods
  {
    var p := b.periods[key];
    b.(periods := b.periods[key := p.(
      totals := t, status := RefreshedStatus(p.status == OPEN, t, p.dueAt, at, false), version := p.version + 1)])
  }

  lemma OnePart(key: PeriodKey, owed: PeriodKey -> int, amount: int)
    requires owed(key) == amount > 0
    ensures Allocate([key], owed, amount) == map[key := amount]
  {
    assert Allocate([], owed, 0) == map[];
  }

  lemma PayGives(steps: seq<Step>, b: Books, amount: int, at: nat, key: PeriodKey, after: Books, t: Totals)
    requires Run(EMPTY, steps) == b && MayPay(b, COURIER, amount, [key])
    requires key in b.periods && b.periods[key].totals.remaining == amount
    requires after == b.(payments := b.payments + [Payment(COURIER, amount, map[key := amount], None, |b.ledger|)],
                         ledger := b.ledger + [Entry(COURIER, None, EXTERNAL_PAYMENT, -amount, at, None)])
    requires Recomputed(after.ledger, after.lines, after.payments, key) == t
    ensures Run(EMPTY, steps + [Pay(COURIER, amount, at, [key], at, {})]) == Refreshed(after, key, t, at)
  {
    OnePart(key, Owed(b.periods), amount);
    assert map[key := amount].Keys == {key};
    RefreshOne(after, key, at, {});
    Then(steps, b, Pay(COURIER, amount, at, [key], at, {}), Refreshed(after, key, t, at));
  }

  lemma ReverseGives(steps: seq<Step>, b: Books, q: nat, at: nat, key: PeriodKey, after: Books, t: Totals)
    requires Run(EMPTY, steps) == b && MayReverse(b, q) && b.payments[q].parts.Keys == {key} && key in b.periods
    requires var paid := b.payments[q];
             after == b.(payments := b.payments + [paid.(reverses := Some(q), entry := |b.ledger|)],
                         ledger := b.ledger + [Entry(paid.courier, None, REVERSAL, paid.amount, at, Some(paid.entry))])
    requires Recomputed(after.ledger, after.lines, after.payments, key) == t
    ensures Run(EMPTY, steps + [Reverse(q, at, {})]) == Refreshed(after, key, t, at)
  {
    RefreshOne(after, key, at, {});
    Then(steps, b, Reverse(q, at, {}), Refreshed(after, key, t, at));
  }

  lemma FinalizeGives(
    steps: seq<Step>, b: Books, id: nat, at: nat, w: Bounds, key: PeriodKey, rows: Books, t: Totals)
    requires Run(EMPTY, steps) == b && MayFinalize(b, id, at, w) && key !in b.periods
    requires key == PeriodKey(b.orders[id].courier.value, w.periodStart, w.periodEnd)
    requires rows == Completed(b, id, CompletionEntry(b.orders[id], id, at), key,
                               Period(w.dueAt, Totals(0, 0, 0, 0, 0), OPEN, 1, None), at)
    requires Recomputed(rows.ledger, rows.lines, rows.payments, key) == t
    ensures Run(EMPTY, steps + [Finalize(id, at, w, {})]) == Refreshed(rows, key, t, at)
  {
    RefreshOne(rows, key, at, {});
    Then(steps, b, Finalize(id, at, w, {}), Refreshed(rows, key, t, at));
  }

  lemma CompleteGives(steps: seq<Step>, b: Books, id: nat, at: nat, key: PeriodKey, k: int)
    requires Run(EMPTY, steps) == b && MayComplete(b, id, at) && b.orders[id].commission >= 0 && key !in b.periods
    requires WeekStart(k) <= at < WeekStart(k + 1)
    requires key == PeriodKey(b.orders[id].courier.value, WeekStart(k), WeekStart(k + 1))
    ensures var c := b.orders[id].commission;
            Run(EMPTY, steps + [Complete(id, at, Some(GRACE))])
            == Completed(b, id, CompletionEntry(b.orders[id], id, at), key,
                         Period(key.end + GRACE * MS_PER_DAY, Totals(c, 0, 0, 0, c), OPEN, 1, None), at)
  {
    WeekOf(at, k);
    ThenComplete(steps, b, id, at);
  }

  // ---------------------------------------------------------------- the rows there will be

  const PAYMENT := Entry(COURIER, None, EXTERNAL_PAYMENT, -100, SWITCH, None)
  const TAKEN_BACK := Entry(COURIER, None, REVERSAL, 100, SWITCH, Some(1))
  const PARTS := map[WEEK_ZERO := 100]
  const PAID := [Payment(COURIER, 100, PARTS, None, 1)]
  const PAYMENTS := [Payment(COURIER, 100, PARTS, None, 1), Payment(COURIER, 100, PARTS, Some(0), 4)]
  const LEDGER :=
    [Commission(0, 100, 0), PAYMENT, Commission(1, 60, SWITCH), Commission(2, 40, SWITCH), TAKEN_BACK]
  const LINES := map[0 := Line(WEEK_ZERO, 100), 2 := Line(WEEK_ONE, 60), 3 := Line(MONDAY_WEEK, 40)]

  function WeekZero(paid: int, status: PeriodStatus, version: nat): Period {
    Period(DUE_ZERO, Totals(100, paid, 0, 0, 100 - paid), status, version, Some(SWITCH))
  }

  // ---------------------------------------------------------------- the first week is paid

  function PaidBooks(): Books {
    Books([Finished(Delivered(100), 0)], [Commission(0, 100, 0), PAYMENT],
          map[WEEK_ZERO := WeekZero(100, PeriodStatus.PAID, 3)], map[0 := Line(WEEK_ZERO, 100)], PAID,
          map[COURIER := 1])
  }

  lemma PaidTotals()
    ensures Recomputed(PaidBooks().ledger, PaidBooks().lines, PAID, WEEK_ZERO) == Totals(100, 100, 0, 0, 0)
  {
    PaidByFirst(PAID, WEEK_ZERO);
    OneCommission(PaidBooks().ledger, PaidBooks().lines, PAID, WEEK_ZERO, 0);
  }

  lemma MayPayFirst()
    ensures MayPay(FirstClosed(100), COURIER, 100, [WEEK_ZERO])
    ensures FirstClosed(100)
         == PaidBooks().(ledger := [Commission(0, 100, 0)], payments := [],
                         periods := map[WEEK_ZERO := WeekZero(0, NOT_DUE, 2)])
  {}

  function Unrefreshed(): Books {
    PaidBooks().(periods := map[WEEK_ZERO := WeekZero(0, NOT_DUE, 2)])
  }

  lemma PaidRefreshed()
    ensures Refreshed(Unrefreshed(), WEEK_ZERO, Totals(100, 100, 0, 0, 0), SWITCH) == PaidBooks()
  {
    assert Unrefreshed().periods[WEEK_ZERO := WeekZero(100, PeriodStatus.PAID, 3)] == PaidBooks().periods;
  }

  lemma PaidRun(before: seq<Step>) returns (steps: seq<Step>)
    requires Run(EMPTY, before) == FirstClosed(100)
    ensures Run(EMPTY, steps) == PaidBooks()
  {
    PaidTotals();
    MayPayFirst();
    assert PaidBooks().ledger == [Commission(0, 100, 0)] + [PAYMENT];
    PayGives(before, FirstClosed(100), 100, SWITCH, WEEK_ZERO, Unrefreshed(), Totals(100, 100, 0, 0, 0));
    PaidRefreshed();
    steps := before + [Pay(COURIER, 100, SWITCH, [WEEK_ZERO], SWITCH, {})];
  }

  // ---------------------------------------------------------------- the worker books to its second week

  function SecondDelivered(): Books {
    PaidBooks().(orders := [Finished(Delivered(100), 0), Delivered(60)])
  }

  function SecondBooked(): Books {
    Books([Finished(Delivered(100), 0), Finished(Delivered(60), SWITCH)], LEDGER[..3],
          map[WEEK_ZERO := WeekZero(100, PeriodStatus.PAID, 3),
              WEEK_ONE := Period(DUE_ONE, Totals(60, 0, 0, 0, 60), OPEN, 1, None)],
          map[0 := Line(WEEK_ZERO, 100), 2 := Line(WEEK_ONE, 60)], PAID, map[COURIER := 2])
  }

  lemma SecondChange()
    ensures Apply(PaidBooks(), Change(1, Delivered(60), SWITCH)) == SecondDelivered()
  {}

  lemma SecondCompletion()
    ensures Completed(SecondDelivered(), 1, Commission(1, 60, SWITCH), WEEK_ONE,
                      Period(DUE_ONE, Totals(60, 0, 0, 0, 60), OPEN, 1, None), SWITCH)
         == SecondBooked()
  {
    assert [Commission(0, 100, 0), PAYMENT] + [Commission(1, 60, SWITCH)] == LEDGER[..3];
  }

  lemma SecondRun(before: seq<Step>) returns (steps: seq<Step>)
    requires Run(EMPTY, before) == PaidBooks()
    ensures Run(EMPTY, steps) == SecondBooked()
  {
    SecondChange();
    Then(before, PaidBooks(), Change(1, Delivered(60), SWITCH), SecondDelivered());
    steps := before + [Change(1, Delivered(60), SWITCH)];
    CompleteGives(steps, SecondDelivered(), 1, SWITCH, WEEK_ONE, 1);
    SecondCompletion();
    steps := steps + [Complete(1, SWITCH, Some(GRACE))];
  }

  // ---------------------------------------------------------------- the API books to its own week

  const ORDERS := [Finished(Delivered(100), 0), Finished(Delivered(60), SWITCH), Finished(ReturnedOrder(40), SWITCH)]

  function ThirdReturned(): Books {
    SecondBooked().(orders := ORDERS[..2] + [ReturnedOrder(40)])
  }

  function Periods(zero: Period, monday: Period): map<PeriodKey, Period> {
    map[WEEK_ZERO := zero, WEEK_ONE := Period(DUE_ONE, Totals(60, 0, 0, 0, 60), OPEN, 1, None), MONDAY_WEEK := monday]
  }

  function MondayPeriod(commission: int, version: nat): Period {
    Period(943_200_000, Totals(commission, 0, 0, 0, commission), OPEN, version, None)
  }

  function ThirdRows(commission: int, version: nat): Books {
    Books(ORDERS, LEDGER[..4], Periods(WeekZero(100, PeriodStatus.PAID, 3), MondayPeriod(commission, version)),
          LINES, PAID, map[COURIER := 3])
  }

  function ThirdBooked(): Books {
    ThirdRows(40, 2)
  }

  lemma ThirdChange()
    ensures Apply(SecondBooked(), Change(2, ReturnedOrder(40), SWITCH)) == ThirdReturned()
  {
    assert SecondBooked().orders == ORDERS[..2];
  }

  lemma ThirdCompletion()
    ensures Completed(ThirdReturned(), 2, Commission(2, 40, SWITCH), MONDAY_WEEK, MondayPeriod(0, 1), SWITCH)
         == ThirdRows(0, 1)
  {
    assert LEDGER[..3] + [Commission(2, 40, SWITCH)] == LEDGER[..4];
    assert (ORDERS[..2] + [ReturnedOrder(40)])[2 := Finished(ReturnedOrder(40), SWITCH)] == ORDERS;
  }

  lemma ThirdTotals()
    ensures Recomputed(LEDGER[..4], LINES, PAID, MONDAY_WEEK) == Totals(40, 0, 0, 0, 40)
  {
    PaidByFirst(PAID, MONDAY_WEEK);
    OneCommission(LEDGER[..4], LINES, PAID, MONDAY_WEEK, 3);
  }

  lemma ThirdRun(before: seq<Step>) returns (steps: seq<Step>)
    requires Run(EMPTY, before) == SecondBooked()
    ensures Run(EMPTY, steps) == ThirdBooked()
  {
    ThirdChange();
    Then(before, SecondBooked(), Change(2, ReturnedOrder(40), SWITCH), ThirdReturned());
    steps := before + [Change(2, ReturnedOrder(40), SWITCH)];
    ThirdCompletion();
    ThirdTotals();
    FinalizeGives(steps, ThirdReturned(), 2, SWITCH, MONDAY_BOUNDS, MONDAY_WEEK, ThirdRows(0, 1),
                  Totals(40, 0, 0, 0, 40));
    ThirdRefreshed();
    steps := steps + [Finalize(2, SWITCH, MONDAY_BOUNDS, {})];
  }

  lemma ThirdRefreshed()
    ensures Refreshed(ThirdRows(0, 1), MONDAY_WEEK, Totals(40, 0, 0, 0, 40), SWITCH) == ThirdBooked()
  {
    assert ThirdRows(0, 1).periods[MONDAY_WEEK := MondayPeriod(40, 2)] == ThirdBooked().periods;
  }

  // ---------------------------------------------------------------- the payment is taken back

  function Overlap(): Books {
    Books(ORDERS, LEDGER, Periods(WeekZero(0, NOT_DUE, 4), MondayPeriod(40, 2)), LINES, PAYMENTS, map[COURIER := 3])
  }

  lemma NothingLive(key: PeriodKey)
    ensures Paid(PAYMENTS, key) == 0
  {
    assert PAYMENTS[1].reverses == Some(0);
    assert SumTo(1, PaidShare(PAYMENTS, key)) == SumTo(0, PaidShare(PAYMENTS, key)) + PaidShare(PAYMENTS, key)(0);
  }

  lemma OverlapTotals()
    ensures Recomputed(LEDGER, LINES, PAYMENTS, WEEK_ZERO) == Totals(100, 0, 0, 0, 100)
  {
    NothingLive(WEEK_ZERO);
    OneCommission(LEDGER, LINES, PAYMENTS, WEEK_ZERO, 0);
  }

  lemma OverlapRefreshed()
    ensures Refreshed(Overlap().(periods := ThirdBooked().periods), WEEK_ZERO, Totals(100, 0, 0, 0, 100), SWITCH)
         == Overlap()
  {
    assert ThirdBooked().periods[WEEK_ZERO := WeekZero(0, NOT_DUE, 4)] == Overlap().periods;
  }

  lemma MayReverseFirst()
    ensures MayReverse(ThirdBooked(), 0)
    ensures LEDGER == LEDGER[..4] + [TAKEN_BACK] && PAYMENTS == PAID + [Payment(COURIER, 100, PARTS, Some(0), 4)]
  {}

  lemma OverlapRun() returns (steps: seq<Step>)
    ensures Run(EMPTY, steps) == Overlap()
  {
    steps := ClosedRun(100);
    steps := PaidRun(steps);
    steps := SecondRun(steps);
    steps := ThirdRun(steps);
    steps := ReversedRun(steps);
  }

  lemma ReversedRun(before: seq<Step>) returns (steps: seq<Step>)
    requires Run(EMPTY, before) == ThirdBooked()
    ensures Run(EMPTY, steps) == Overlap()
  {
    MayReverseFirst();
    OverlapTotals();
    ReverseGives(before, ThirdBooked(), 0, SWITCH, WEEK_ZERO, Overlap().(periods := ThirdBooked().periods),
                 Totals(100, 0, 0, 0, 100));
    OverlapRefreshed();
    steps := before + [Reverse(0, SWITCH, {})];
  }

  // ---------------------------------------------------------------- what is wrong with it

  /** When the worker's second week has ended; the API's has long. */
  const LATER := WeekStart(2)

  lemma OverlapDisputes()
    ensures Disputed(Overlap(), WEEK_ONE, MONDAY_WEEK, 4, LATER)
    ensures Overlap().periods[WEEK_ZERO].totals.remaining == 100
  {
    assert PAYMENTS[1].entry == 4 && PAYMENTS[1].reverses == Some(0);
  }

  lemma OnlyOneTakenBack()
    ensures forall j: nat :: TakesBackPayment(Overlap(), j) ==> j == 4
  {}

  lemma OverlapStrays()
    ensures Within(Overlap(), 3, WEEK_ONE) && OnPeriod(Overlap(), 3, MONDAY_WEEK) && !NoStrays(Overlap(), WEEK_ONE)
  {
    assert LINES[3] == Line(MONDAY_WEEK, 40) && !OnPeriod(Overlap(), 3, WEEK_ONE);
  }

  /** There is a run after which the commission of a finalised order has strayed from the worker's week to
      the API's, so that closing the worker's week misses an entry of its window. */
  lemma StrayedCommission() returns (steps: seq<Step>)
    ensures var b := Run(EMPTY, steps);
            MayClose(b, WEEK_ONE, LATER) && Within(b, 3, WEEK_ONE) && b.ledger[3].kind == COMMISSION_DUE &&
            !NoStrays(b, WEEK_ONE) && !OnPeriod(CloseSettlement(b, WEEK_ONE, LATER), 3, WEEK_ONE)
  {
    steps := OverlapRun();
    OverlapDisputes();
    OverlapStrays();
    CloseAddsMissing(Overlap(), WEEK_ONE, LATER, 3);
  }

  /** There is a run after which a payment of 100 has been taken back, its week owes the 100 again, and
      whichever of two later weeks is closed first charges them once more. */
  lemma ChargedTwice() returns (steps: seq<Step>)
    ensures var b := Run(EMPTY, steps);
            WEEK_ZERO in b.periods && b.periods[WEEK_ZERO].totals.remaining == 100 &&
            Disputed(b, WEEK_ONE, MONDAY_WEEK, 4, LATER) && ChargesInOrder(b, WEEK_ONE, MONDAY_WEEK) &&
            ChargesInOrder(b, MONDAY_WEEK, WEEK_ONE)
  {
    steps := OverlapRun();
    OverlapDisputes();
    RunKeepsTotals(EMPTY, steps);
    OnlyOneTakenBack();
    FirstCloserOvercharges(Overlap(), WEEK_ONE, MONDAY_WEEK, LATER);
    FirstCloserOvercharges(Overlap(), MONDAY_WEEK, WEEK_ONE, LATER);
  }

  /** With these closes the first period charges more than its debts and the second does not. */
  ghost predicate ChargesInOrder(b: Books, first: PeriodKey, second: PeriodKey) {
    var b' := CloseSettlement(CloseSettlement(b, first, LATER), second, LATER);
    first in b'.periods && second in b'.periods &&
    Charged(b'.periods[first].totals) > Debt(b', first) && Charged(b'.periods[second].totals) == Debt(b', second)
  }

  // ---------------------------------------------------------------- the ledger says otherwise

  const KEYS := [WEEK_ZERO, WEEK_ONE, MONDAY_WEEK]

  lemma CloseKeepsList(b: Books, key: PeriodKey, now: int, courier: string, keys: seq<PeriodKey>)
    requires Lists(b, courier, keys)
    ensures Lists(CloseSettlement(b, key, now), courier, keys)
  {
    assert CloseSettlement(b, key, now).periods.Keys == b.periods.Keys;
  }

  lemma CloseBillsBack(b: Books, key: PeriodKey, now: int, i: nat)
    requires MayClose(b, key, now) && i !in b.lines && Within(b, i, key) && TakesBackPayment(b, i)
    ensures !BillsNoTakenBack(CloseSettlement(b, key, now), key)
  {
    CloseAddsMissing(b, key, now, i);
    CloseKeepsTaking(b, key, now, i);
  }

  lemma OverlapLists()
    ensures Lists(Overlap(), COURIER, KEYS)
  {
    assert Overlap().periods.Keys == {WEEK_ZERO, WEEK_ONE, MONDAY_WEEK};
    assert WEEK_ZERO.end < WEEK_ONE.end && WEEK_ZERO.start < MONDAY_WEEK.start && WEEK_ONE != MONDAY_WEEK;
  }

  /** There is a run after which the courier's three periods together ask for more than the ledger, and so the
      courier's account, says is owed. */
  lemma PeriodsExceedLedger() returns (steps: seq<Step>)
    ensures var b := Run(EMPTY, steps);
            Lists(b, COURIER, KEYS) && SumBy(KEYS, BalanceOf(b)) > LedgerTotal(b, COURIER)
  {
    steps := OverlapRun();
    Then(steps, Overlap(), Close(WEEK_ONE, LATER), CloseSettlement(Overlap(), WEEK_ONE, LATER));
    steps := steps + [Close(WEEK_ONE, LATER)];
    OverlapDisputes();
    CloseBillsBack(Overlap(), WEEK_ONE, LATER, 4);
    OverlapLists();
    CloseKeepsList(Overlap(), WEEK_ONE, LATER, COURIER, KEYS);
    PeriodsAgreeWithLedgerExactly(steps, COURIER, KEYS);
    assert WEEK_ONE in KEYS;
  }
}
