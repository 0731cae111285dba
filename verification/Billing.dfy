/** Every finalised order is billed to its courier exactly once: orders, ledger, settlement lines and
    the courier's counter agree in every state a run can reach. */
module Billing {
  import opened Options
  import opened Sums
  import opened WeeklyWindows
  import opened FinanceBooks
  import opened BookInvariants
  import opened PaymentAllocation

  // ---------------------------------------------------------------- four ways to add up one courier's commissions

  predicate FinalizedFor(o: Order, courier: string) {
    o.finalizedAt.Some? && o.courier == Some(courier)
  }

  function OrderShare(orders: seq<Order>, courier: string): nat -> int {
    (i: nat) => if i < |orders| && FinalizedFor(orders[i], courier) then orders[i].commission else 0
  }

  function OrderOne(orders: seq<Order>, courier: string): nat -> int {
    (i: nat) => if i < |orders| && FinalizedFor(orders[i], courier) then 1 else 0
  }

  function EntryShare(ledger: seq<Entry>, courier: string): nat -> int {
    (i: nat) =>
      if i < |ledger| && ledger[i].kind == COMMISSION_DUE && ledger[i].courier == courier then ledger[i].amount else 0
  }

  function BilledShare(ledger: seq<Entry>, lines: map<nat, Line>, courier: string): nat -> int {
    (i: nat) =>
      if i < |ledger| && ledger[i].kind == COMMISSION_DUE && i in lines && lines[i].period.courier == courier
      then lines[i].amount else 0
  }

  /** Commissions of the courier's finalised orders. */
  function OrderTotal(b: Books, courier: string): int {
    SumTo(|b.orders|, OrderShare(b.orders, courier))
  }

  /** How many orders of the courier are finalised. */
  function OrderCount(b: Books, courier: string): int {
    SumTo(|b.orders|, OrderOne(b.orders, courier))
  }

  /** Commission entries of the courier in the ledger. */
  function EntryTotal(b: Books, courier: string): int {
    SumTo(|b.ledger|, EntryShare(b.ledger, courier))
  }

  /** Commission lines on the courier's settlement periods. */
  function BilledTotal(b: Books, courier: string): int {
    SumTo(|b.ledger|, BilledShare(b.ledger, b.lines, courier))
  }

  ghost predicate OrdersSound(b: Books) {
    forall i :: 0 <= i < |b.orders| ==> (b.orders[i].status == COMPLETED <==> b.orders[i].finalizedAt.Some?)
  }

  ghost predicate Conserved(b: Books) {
    forall c: string :: OrderTotal(b, c) == EntryTotal(b, c) && OrderCount(b, c) == CompletedCount(b, c)
  }

  predicate IsCommission(b: Books, i: nat) {
    i < |b.ledger| && b.ledger[i].kind == COMMISSION_DUE
  }

  /** A commission entry has a line and repeats the snapshot of the finalised order it names. */
  ghost predicate CommissionsSound(b: Books) {
    forall i: nat :: IsCommission(b, i) ==>
      i in b.lines && b.ledger[i].order.Some? && b.ledger[i].order.value < |b.orders| &&
      var o := b.orders[b.ledger[i].order.value];
      o.finalizedAt == Some(b.ledger[i].occurredAt) && o.courier == Some(b.ledger[i].courier) &&
      o.commission == b.ledger[i].amount
  }

  ghost predicate OneCommissionPerOrder(b: Books) {
    forall i: nat, j: nat ::
      IsCommission(b, i) && IsCommission(b, j) && b.ledger[i].order == b.ledger[j].order ==> i == j
  }

  ghost predicate BilledOnce(b: Books) {
    OrdersSound(b) && Conserved(b) && CommissionsSound(b) && OneCommissionPerOrder(b)
  }

  // ---------------------------------------------------------------- the finalising change

  lemma FinalizingConserves(b: Books, id: nat, key: PeriodKey, period: Period, now: int)
    requires Conserved(b) && id < |b.orders| && b.orders[id].finalizedAt == None && b.orders[id].courier.Some?
    ensures Conserved(Completed(b, id, CompletionEntry(b.orders[id], id, now), key, period, now))
  {
    var e := CompletionEntry(b.orders[id], id, now);
    var b' := Completed(b, id, e, key, period, now);
    forall c: string
      ensures OrderTotal(b', c) == EntryTotal(b', c) && OrderCount(b', c) == CompletedCount(b', c)
    {
      DifferAt(|b.orders|, OrderShare(b.orders, c), OrderShare(b'.orders, c), id);
      DifferAt(|b.orders|, OrderOne(b.orders, c), OrderOne(b'.orders, c), id);
      Congruent(|b.ledger|, EntryShare(b.ledger, c), EntryShare(b'.ledger, c));
      assert OrderTotal(b, c) == EntryTotal(b, c);
    }
  }

  lemma FinalizingBills(b: Books, id: nat, key: PeriodKey, period: Period, now: int)
    requires OrdersSound(b) && CommissionsSound(b) && OneCommissionPerOrder(b)
    requires id < |b.orders| && b.orders[id].finalizedAt == None && b.orders[id].courier.Some?
    ensures var b' := Completed(b, id, CompletionEntry(b.orders[id], id, now), key, period, now);
            OrdersSound(b') && CommissionsSound(b') && OneCommissionPerOrder(b')
  {
    var b' := Completed(b, id, CompletionEntry(b.orders[id], id, now), key, period, now);
    forall i: nat | IsCommission(b', i) && i < |b.ledger|
      ensures IsCommission(b, i) && b'.ledger[i] == b.ledger[i] && b.ledger[i].order != Some(id)
    {}
  }

  /** Nothing of the billing facts depends on the periods' rows. */
  lemma OnlyPeriodsChange(b: Books, b': Books)
    requires BilledOnce(b) && b' == b.(periods := b'.periods)
    ensures BilledOnce(b')
  {
    forall c: string
      ensures OrderTotal(b', c) == EntryTotal(b', c) && OrderCount(b', c) == CompletedCount(b', c)
    {
      assert OrderTotal(b, c) == EntryTotal(b, c);
    }
  }

  lemma CompletedStays(b: Books, id: nat, key: PeriodKey, period: Period, now: int)
    requires BilledOnce(b)
    requires id < |b.orders| && b.orders[id].finalizedAt == None && b.orders[id].courier.Some?
    ensures BilledOnce(Completed(b, id, CompletionEntry(b.orders[id], id, now), key, period, now))
  {
    FinalizingConserves(b, id, key, period, now);
    FinalizingBills(b, id, key, period, now);
  }

  /** An entry of another kind is appended, with or without a line. */
  lemma OtherEntry(b: Books, e: Entry, lines: map<nat, Line>)
    requires BilledOnce(b) && e.kind != COMMISSION_DUE
    requires forall i :: i in b.lines ==> i in lines
    ensures BilledOnce(b.(ledger := b.ledger + [e], lines := lines))
  {
    var b' := b.(ledger := b.ledger + [e], lines := lines);
    forall c: string
      ensures OrderTotal(b', c) == EntryTotal(b', c) && OrderCount(b', c) == CompletedCount(b', c)
    {
      Congruent(|b.ledger|, EntryShare(b.ledger, c), EntryShare(b'.ledger, c));
      assert OrderTotal(b, c) == EntryTotal(b, c);
    }
    assert forall i: nat :: IsCommission(b', i) ==> IsCommission(b, i) && b'.ledger[i] == b.ledger[i];
  }

  lemma MoreLines(b: Books, b': Books)
    requires BilledOnce(b) && b' == b.(periods := b'.periods, lines := b'.lines)
    requires forall i :: i in b.lines ==> i in b'.lines
    ensures BilledOnce(b')
  {
    forall c: string
      ensures OrderTotal(b', c) == EntryTotal(b', c) && OrderCount(b', c) == CompletedCount(b', c)
    {
      assert OrderTotal(b, c) == EntryTotal(b, c);
    }
    assert forall i: nat :: IsCommission(b', i) ==> IsCommission(b, i);
  }

  lemma UnfinalizedChange(b: Books, id: nat, o: Order)
    requires BilledOnce(b)
    ensures BilledOnce(ChangeOrder(b, id, o))
  {
    if MayChange(b, id, o) {
      var b' := ChangeOrder(b, id, o);
      forall c: string
        ensures OrderTotal(b', c) == EntryTotal(b', c) && OrderCount(b', c) == CompletedCount(b', c)
      {
        assert OrderTotal(b, c) == EntryTotal(b, c);
        Congruent(|b.orders|, OrderShare(b.orders, c), OrderShare(b'.orders, c));
        Congruent(|b.orders|, OrderOne(b.orders, c), OrderOne(b'.orders, c));
      }
      forall i: nat | IsCommission(b', i)
        ensures IsCommission(b, i) && b.ledger[i].order.value < |b.orders|
        ensures b'.orders[b.ledger[i].order.value] == b.orders[b.ledger[i].order.value]
      {
        assert IsCommission(b, i);
      }
    }
  }

  // ---------------------------------------------------------------- runs

  lemma StepBillsOnce(b: Books, s: Step)
    requires BilledOnce(b)
    ensures BilledOnce(Apply(b, s))
  {
    match s
    case Complete(id, now, grace) =>
      if CompletionOutcome(b, id, now, grace) == Done {
        var o := b.orders[id];
        var w := WeeklyBounds(now, grace.value);
        var key := TargetPeriod(o.courier.value, now, grace.value);
        CompletedStays(b, id, key, Incremented(b, key, w.dueAt, o.commission), now);
      }
    case Close(key, now) => MoreLines(b, CloseSettlement(b, key, now));
    case ApiClose(key, version, now, soon) =>
      if MayCloseByApi(b, key, version, now) {
        MoreLines(b, CloseSettlement(b, key, now));
        ClosersAgree(b, key, version, now, soon);
        OnlyPeriodsChange(CloseSettlement(b, key, now), CloseByApi(b, key, version, now, soon));
      }
    case Overdue(now) => OnlyPeriodsChange(b, MarkOverdue(b, now));
    case Finalize(id, now, w, soon) => FinalizeBills(b, id, now, w, soon);
    case Pay(courier, amount, paidAt, owing, now, soon) =>
      if MayPay(b, courier, amount, owing) {
        var parts := Allocate(owing, Owed(b.periods), amount);
        PaymentBills(b, Payment(courier, amount, parts, None, |b.ledger|),
                     Entry(courier, None, EXTERNAL_PAYMENT, -amount, paidAt, None), now, soon);
      }
    case Reverse(p, now, soon) =>
      if MayReverse(b, p) {
        var original := b.payments[p];
        PaymentBills(b, Payment(original.courier, original.amount, original.parts, Some(p), |b.ledger|),
                     Entry(original.courier, None, REVERSAL, original.amount, now, Some(original.entry)), now, soon);
      }
    case AdjustBy(e, key, now, soon) =>
      if MayAdjust(b, e, key) {
        var lines := b.lines[|b.ledger| := Line(key, e.amount)];
        OtherEntry(b, e, lines);
        OnlyPeriodsChange(b.(ledger := b.ledger + [e], lines := lines), Adjust(b, e, key, now, soon));
      }
    case Change(id, order, now) => UnfinalizedChange(b, id, order);
  }

  lemma FinalizeBills(b: Books, id: nat, now: int, w: Bounds, soon: set<PeriodKey>)
    requires BilledOnce(b)
    ensures BilledOnce(FinalizeOrder(b, id, now, w, soon))
  {
    if MayFinalize(b, id, now, w) {
      var o := b.orders[id];
      var key := PeriodKey(o.courier.value, w.periodStart, w.periodEnd);
      var period := if key in b.periods then b.periods[key] else Period(w.dueAt, Totals(0, 0, 0, 0, 0), OPEN, 1, None);
      CompletedStays(b, id, key, period, now);
      var after := Completed(b, id, CompletionEntry(o, id, now), key, period, now);
      OnlyPeriodsChange(after, Refresh(after, {key}, now, soon));
    }
  }

  lemma PaymentBills(b: Books, p: Payment, e: Entry, now: int, soon: set<PeriodKey>)
    requires BilledOnce(b) && e.kind != COMMISSION_DUE
    ensures BilledOnce(Refresh(b.(payments := b.payments + [p], ledger := b.ledger + [e]), p.parts.Keys, now, soon))
  {
    OtherEntry(b, e, b.lines);
    var appended := b.(ledger := b.ledger + [e], lines := b.lines);
    var after := b.(payments := b.payments + [p], ledger := b.ledger + [e]);
    PaymentsDoNotMatter(appended, after);
    OnlyPeriodsChange(after, Refresh(after, p.parts.Keys, now, soon));
  }

  lemma PaymentsDoNotMatter(b: Books, b': Books)
    requires BilledOnce(b) && b' == b.(payments := b'.payments)
    ensures BilledOnce(b')
  {
    forall c: string
      ensures OrderTotal(b', c) == EntryTotal(b', c) && OrderCount(b', c) == CompletedCount(b', c)
    {
      assert OrderTotal(b, c) == EntryTotal(b, c);
    }
    assert forall i: nat :: IsCommission(b', i) ==> IsCommission(b, i);
  }

  lemma {:induction false} RunBillsOnce(b: Books, steps: seq<Step>)
    requires BilledOnce(b)
    ensures BilledOnce(Run(b, steps))
    decreases |steps|
  {
    if steps != [] {
      StepBillsOnce(b, steps[0]);
      RunBillsOnce(Apply(b, steps[0]), steps[1..]);
    }
  }

  /** Starting from empty tables, whatever the worker and the API do in whatever order: a courier's
      finalised orders, commission entries and commission lines add up to the same amount, and the
      counter is the number of those orders. */
  lemma GlobalConservation(steps: seq<Step>, courier: string)
    ensures var b := Run(EMPTY, steps);
            OrderTotal(b, courier) == EntryTotal(b, courier) == BilledTotal(b, courier) &&
            OrderCount(b, courier) == CompletedCount(b, courier)
  {
    RunBillsOnce(EMPTY, steps);
    RunKeepsTotals(EMPTY, steps);
    var b := Run(EMPTY, steps);
    assert OrderTotal(b, courier) == EntryTotal(b, courier);
    forall i: nat | i < |b.ledger|
      ensures EntryShare(b.ledger, courier)(i) == BilledShare(b.ledger, b.lines, courier)(i)
    {
      if IsCommission(b, i) {
        assert i in b.lines;
      }
    }
    Congruent(|b.ledger|, EntryShare(b.ledger, courier), BilledShare(b.ledger, b.lines, courier));
  }

  // ---------------------------------------------------------------- what a step can never undo

  ghost predicate Extends(b: Books, b': Books) {
    b.ledger <= b'.ledger &&
    (forall i :: i in b.lines ==> i in b'.lines && b'.lines[i] == b.lines[i]) &&
    |b.orders| <= |b'.orders| &&
    (forall i :: 0 <= i < |b.orders| && b.orders[i].finalizedAt.Some? ==> b'.orders[i] == b.orders[i])
  }

  lemma CompletedExtends(b: Books, id: nat, e: Entry, key: PeriodKey, period: Period, now: int)
    requires LinesSound(b) && id < |b.orders| && b.orders[id].finalizedAt == None
    ensures Extends(b, Completed(b, id, e, key, period, now))
  {}

  /** The ledger only grows, lines are never moved or removed, and a finalised order never changes:
      nothing is billed twice or lost. */
  lemma NothingUndone(b: Books, s: Step)
    requires LinesSound(b)
    ensures Extends(b, Apply(b, s))
  {
    match s
    case Complete(id, now, grace) =>
      if CompletionOutcome(b, id, now, grace) == Done {
        var o := b.orders[id];
        var w := WeeklyBounds(now, grace.value);
        var key := TargetPeriod(o.courier.value, now, grace.value);
        CompletedExtends(b, id, CompletionEntry(o, id, now), key, Incremented(b, key, w.dueAt, o.commission), now);
      }
    case Finalize(id, now, w, soon) =>
      if MayFinalize(b, id, now, w) {
        var o := b.orders[id];
        var key := PeriodKey(o.courier.value, w.periodStart, w.periodEnd);
        var period :=
          if key in b.periods then b.periods[key] else Period(w.dueAt, Totals(0, 0, 0, 0, 0), OPEN, 1, None);
        CompletedExtends(b, id, CompletionEntry(o, id, now), key, period, now);
      }
    case Close(key, now) => CloseExtends(b, key, now);
    case ApiClose(key, version, now, soon) => ApiCloseExtends(b, key, version, now, soon);
    case AdjustBy(e, key, now, soon) => AdjustExtends(b, e, key, now, soon);
    case Pay(courier, amount, paidAt, owing, now, soon) =>
    case Reverse(p, now, soon) =>
    case Overdue(now) =>
    case Change(id, order, now) => ChangeExtends(b, id, order);
  }

  lemma CloseExtends(b: Books, key: PeriodKey, now: int)
    ensures Extends(b, CloseSettlement(b, key, now))
  {}

  lemma ApiCloseExtends(b: Books, key: PeriodKey, version: nat, now: int, soon: set<PeriodKey>)
    ensures Extends(b, CloseByApi(b, key, version, now, soon))
  {}

  lemma AdjustExtends(b: Books, e: Entry, key: PeriodKey, now: int, soon: set<PeriodKey>)
    requires LinesSound(b)
    ensures Extends(b, Adjust(b, e, key, now, soon))
  {}

  lemma ChangeExtends(b: Books, id: nat, o: Order)
    ensures Extends(b, ChangeOrder(b, id, o))
  {}
}
