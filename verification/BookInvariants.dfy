/** What every transaction keeps true of the finance tables. */
module BookInvariants {
  import opened Options
  import opened Sums
  import opened FinanceBooks
  import opened PaymentAllocation
  import opened WeeklyWindows

  // ---------------------------------------------------------------- structure of the rows

  /** A line names an existing entry and period of one courier and repeats the entry's amount. */
  ghost predicate LinesSound(b: Books) {
    forall i :: i in b.lines ==>
      i < |b.ledger| && b.lines[i].period in b.periods &&
      b.lines[i].amount == b.ledger[i].amount && b.lines[i].period.courier == b.ledger[i].courier
  }

  ghost predicate SignsAllowed(b: Books) {
    forall i :: 0 <= i < |b.ledger| ==> SignAllowed(b.ledger[i])
  }

  ghost predicate PaymentsSound(b: Books) {
    forall p :: 0 <= p < |b.payments| ==>
      b.payments[p].amount > 0 && b.payments[p].entry < |b.ledger| &&
      (forall k :: k in b.payments[p].parts ==> k in b.periods && b.payments[p].parts[k] > 0) &&
      (match b.payments[p].reverses
       case None => b.ledger[b.payments[p].entry].kind == EXTERNAL_PAYMENT
       case Some(q) =>
         q < |b.payments| && b.ledger[b.payments[p].entry].kind == REVERSAL &&
         b.ledger[b.payments[p].entry].amount == b.payments[p].amount)
  }

  ghost predicate RowsSound(b: Books) {
    LinesSound(b) && SignsAllowed(b) && PaymentsSound(b)
  }

  /** The stored totals of the periods outside `keys` are what recomputation gives. */
  ghost predicate ProjectedExcept(b: Books, keys: set<PeriodKey>) {
    forall k :: k in b.periods && k !in keys ==>
      b.periods[k].totals == Recomputed(b.ledger, b.lines, b.payments, k)
  }

  ghost predicate Projected(b: Books) {
    ProjectedExcept(b, {})
  }

  // ---------------------------------------------------------------- how sums change

  lemma AppendLined(
    ledger: seq<Entry>, lines: map<nat, Line>, e: Entry, key: PeriodKey, k: PeriodKey, kinds: set<EntryKind>)
    ensures LineTotal(ledger + [e], lines[|ledger| := Line(key, e.amount)], k, kinds)
         == LineTotal(ledger, lines, k, kinds) + (if k == key && e.kind in kinds then e.amount else 0)
  {
    Congruent(|ledger|, LineShare(ledger, lines, k, kinds),
              LineShare(ledger + [e], lines[|ledger| := Line(key, e.amount)], k, kinds));
  }

  lemma AppendUnlined(ledger: seq<Entry>, lines: map<nat, Line>, e: Entry, k: PeriodKey, kinds: set<EntryKind>)
    requires |ledger| !in lines
    ensures LineTotal(ledger + [e], lines, k, kinds) == LineTotal(ledger, lines, k, kinds)
  {
    Congruent(|ledger|, LineShare(ledger, lines, k, kinds), LineShare(ledger + [e], lines, k, kinds));
  }

  function Zero(): nat -> int {
    (i: nat) => 0
  }

  lemma {:induction false} SumOfZeros(n: nat)
    ensures SumTo(n, Zero()) == 0
  {
    if n > 0 {
      SumOfZeros(n - 1);
    }
  }

  /** A period no row refers to yet has nothing to add up. */
  lemma NothingBooked(b: Books, key: PeriodKey)
    requires RowsSound(b) && key !in b.periods
    ensures Recomputed(b.ledger, b.lines, b.payments, key) == Totals(0, 0, 0, 0, 0)
  {
    forall kinds ensures LineTotal(b.ledger, b.lines, key, kinds) == 0 {
      Congruent(|b.ledger|, Zero(), LineShare(b.ledger, b.lines, key, kinds));
      SumOfZeros(|b.ledger|);
    }
    Congruent(|b.payments|, Zero(), PaidShare(b.payments, key));
    SumOfZeros(|b.payments|);
  }

  lemma CommissionsNonNegative(b: Books, key: PeriodKey)
    requires RowsSound(b)
    ensures LineTotal(b.ledger, b.lines, key, COMMISSION_KINDS) >= 0
    ensures Paid(b.payments, key) >= 0
    ensures LineTotal(b.ledger, b.lines, key, WAIVER_KINDS) <= 0
  {
    NonNegative(|b.ledger|, LineShare(b.ledger, b.lines, key, COMMISSION_KINDS));
    NonNegative(|b.payments|, PaidShare(b.payments, key));
    var waivers := LineShare(b.ledger, b.lines, key, WAIVER_KINDS);
    NonNegative(|b.ledger|, Negated(waivers));
    SumOfSums(|b.ledger|, waivers, Negated(waivers), Zero());
    SumOfZeros(|b.ledger|);
  }

  function Negated(f: nat -> int): nat -> int {
    (i: nat) => -f(i)
  }

  /** A payment counts for the periods it is allocated to and no others, as does its reversal. */
  lemma AppendPayment(payments: seq<Payment>, p: Payment, k: PeriodKey)
    requires forall q :: 0 <= q < |payments| && payments[q].reverses.Some? ==> payments[q].reverses.value < |payments|
    requires match p.reverses
      case None => k !in p.parts
      case Some(q) => q < |payments| && p.parts == payments[q].parts && k !in p.parts
    ensures Paid(payments + [p], k) == Paid(payments, k)
  {
    var all := payments + [p];
    forall q: nat | q < |payments| ensures PaidShare(payments, k)(q) == PaidShare(all, k)(q) {
      if p.reverses != Some(q) {
        assert Reversed(all, q) <==> Reversed(payments, q) by {
          if Reversed(payments, q) {
            var r :| 0 <= r < |payments| && payments[r].reverses == Some(q);
            assert all[r].reverses == Some(q);
          }
        }
      }
    }
    Congruent(|payments|, PaidShare(payments, k), PaidShare(all, k));
  }

  // ---------------------------------------------------------------- primitives

  lemma RefreshRows(b: Books, keys: set<PeriodKey>, now: int, soon: set<PeriodKey>)
    ensures RowsSound(b) ==> RowsSound(Refresh(b, keys, now, soon))
    ensures ProjectedExcept(b, keys) ==> Projected(Refresh(b, keys, now, soon))
  {}

  lemma CompletedRows(b: Books, id: nat, key: PeriodKey, period: Period, now: int)
    requires RowsSound(b)
    requires id < |b.orders| && b.orders[id].courier == Some(key.courier) && b.orders[id].commission >= 0
    ensures RowsSound(Completed(b, id, CompletionEntry(b.orders[id], id, now), key, period, now))
  {
    var b' := Completed(b, id, CompletionEntry(b.orders[id], id, now), key, period, now);
    assert LinesSound(b');
    assert SignsAllowed(b');
    assert PaymentsSound(b');
  }

  lemma CompletedTotals(b: Books, id: nat, e: Entry, key: PeriodKey, period: Period, now: int)
    requires Projected(b) && id < |b.orders|
    ensures ProjectedExcept(Completed(b, id, e, key, period, now), {key})
  {
    var b' := Completed(b, id, e, key, period, now);
    forall k | k in b'.periods && k !in {key}
      ensures b'.periods[k].totals == Recomputed(b'.ledger, b'.lines, b'.payments, k)
    {
      SameTotalsAfterLine(b, e, key, k);
    }
  }

  lemma SameTotalsAfterLine(b: Books, e: Entry, key: PeriodKey, k: PeriodKey)
    requires k != key
    ensures Recomputed(b.ledger + [e], b.lines[|b.ledger| := Line(key, e.amount)], b.payments, k)
         == Recomputed(b.ledger, b.lines, b.payments, k)
  {
    AppendLined(b.ledger, b.lines, e, key, k, COMMISSION_KINDS);
    AppendLined(b.ledger, b.lines, e, key, k, ADJUSTMENT_KINDS);
    AppendLined(b.ledger, b.lines, e, key, k, WAIVER_KINDS);
  }

  /** The running totals after a completion are the recomputed ones, because the constraint on the
      period row rejects any other. */
  lemma IncrementIsRecomputed(b: Books, key: PeriodKey, dueAt: int, e: Entry)
    requires RowsSound(b) && Projected(b) && e.kind == COMMISSION_DUE
    requires TotalsAllowed(Incremented(b, key, dueAt, e.amount).totals)
    ensures Incremented(b, key, dueAt, e.amount).totals
         == Recomputed(b.ledger + [e], b.lines[|b.ledger| := Line(key, e.amount)], b.payments, key)
  {
    AppendLined(b.ledger, b.lines, e, key, key, COMMISSION_KINDS);
    AppendLined(b.ledger, b.lines, e, key, key, ADJUSTMENT_KINDS);
    AppendLined(b.ledger, b.lines, e, key, key, WAIVER_KINDS);
    if key !in b.periods {
      NothingBooked(b, key);
    }
  }

  // ---------------------------------------------------------------- every transaction

  lemma CompleteKeeps(b: Books, id: nat, now: nat, grace: Option<int>)
    requires RowsSound(b) && Projected(b)
    ensures RowsSound(CompleteOrder(b, id, now, grace)) && Projected(CompleteOrder(b, id, now, grace))
  {
    if CompletionOutcome(b, id, now, grace) == Done {
      var o := b.orders[id];
      var w := WeeklyBounds(now, grace.value);
      var key := TargetPeriod(o.courier.value, now, grace.value);
      CompletedRows(b, id, key, Incremented(b, key, w.dueAt, o.commission), now);
      CompletedTotals(b, id, CompletionEntry(o, id, now), key, Incremented(b, key, w.dueAt, o.commission), now);
      IncrementIsRecomputed(b, key, w.dueAt, CompletionEntry(o, id, now));
    }
  }

  lemma BackfillIsLocal(b: Books, key: PeriodKey, k: PeriodKey)
    requires k != key
    ensures Recomputed(b.ledger, Backfilled(b, key), b.payments, k) == Recomputed(b.ledger, b.lines, b.payments, k)
  {
    forall kinds ensures LineTotal(b.ledger, Backfilled(b, key), k, kinds) == LineTotal(b.ledger, b.lines, k, kinds) {
      Congruent(|b.ledger|, LineShare(b.ledger, b.lines, k, kinds), LineShare(b.ledger, Backfilled(b, key), k, kinds));
    }
  }

  lemma CloseRows(b: Books, key: PeriodKey, now: int)
    requires RowsSound(b) && MayClose(b, key, now)
    ensures RowsSound(CloseSettlement(b, key, now))
  {
    var b' := CloseSettlement(b, key, now);
    assert b'.periods.Keys == b.periods.Keys;
    assert LinesSound(b');
    assert PaymentsSound(b');
  }

  lemma CloseTotals(b: Books, key: PeriodKey, now: int)
    requires Projected(b) && MayClose(b, key, now)
    ensures Projected(CloseSettlement(b, key, now))
  {
    forall k | k in CloseSettlement(b, key, now).periods
      ensures var b' := CloseSettlement(b, key, now);
              b'.periods[k].totals == Recomputed(b'.ledger, b'.lines, b'.payments, k)
    {
      CloseTotalsOf(b, key, now, k);
    }
  }

  lemma CloseTotalsOf(b: Books, key: PeriodKey, now: int, k: PeriodKey)
    requires Projected(b) && MayClose(b, key, now) && k in b.periods
    ensures var b' := CloseSettlement(b, key, now);
            k in b'.periods && b'.periods[k].totals == Recomputed(b'.ledger, b'.lines, b'.payments, k)
  {
    var b' := CloseSettlement(b, key, now);
    assert b'.ledger == b.ledger && b'.payments == b.payments && b'.lines == Backfilled(b, key);
    if k != key {
      BackfillIsLocal(b, key, k);
      assert b'.periods[k] == b.periods[k];
    }
  }

  lemma CloseKeeps(b: Books, key: PeriodKey, now: int)
    requires RowsSound(b) && Projected(b)
    ensures RowsSound(CloseSettlement(b, key, now)) && Projected(CloseSettlement(b, key, now))
  {
    if MayClose(b, key, now) {
      CloseRows(b, key, now);
      CloseTotals(b, key, now);
    }
  }

  lemma FinalizeKeeps(b: Books, id: nat, now: int, w: Bounds, soon: set<PeriodKey>)
    requires RowsSound(b) && Projected(b)
    ensures RowsSound(FinalizeOrder(b, id, now, w, soon)) && Projected(FinalizeOrder(b, id, now, w, soon))
  {
    if MayFinalize(b, id, now, w) {
      var o := b.orders[id];
      var key := PeriodKey(o.courier.value, w.periodStart, w.periodEnd);
      var period := if key in b.periods then b.periods[key] else Period(w.dueAt, Totals(0, 0, 0, 0, 0), OPEN, 1, None);
      CompletedRows(b, id, key, period, now);
      CompletedTotals(b, id, CompletionEntry(o, id, now), key, period, now);
      RefreshRows(Completed(b, id, CompletionEntry(o, id, now), key, period, now), {key}, now, soon);
    }
  }

  lemma SameTotalsAfterPayment(b: Books, p: Payment, e: Entry, k: PeriodKey)
    requires RowsSound(b) && k !in p.parts
    requires p.reverses.Some? ==> p.reverses.value < |b.payments| && p.parts == b.payments[p.reverses.value].parts
    ensures Recomputed(b.ledger + [e], b.lines, b.payments + [p], k) == Recomputed(b.ledger, b.lines, b.payments, k)
  {
    AppendUnlined(b.ledger, b.lines, e, k, COMMISSION_KINDS);
    AppendUnlined(b.ledger, b.lines, e, k, ADJUSTMENT_KINDS);
    AppendUnlined(b.ledger, b.lines, e, k, WAIVER_KINDS);
    AppendPayment(b.payments, p, k);
  }

  ghost predicate Recordable(b: Books, p: Payment, e: Entry) {
    SignAllowed(e) && (p.reverses == None ==> e.kind == EXTERNAL_PAYMENT) &&
    p.amount > 0 && p.entry == |b.ledger| && (forall k :: k in p.parts ==> k in b.periods && p.parts[k] > 0) &&
    (p.reverses.Some? ==>
      p.reverses.value < |b.payments| && p.parts == b.payments[p.reverses.value].parts &&
      e.kind == REVERSAL && e.amount == p.amount)
  }

  function WithPayment(b: Books, p: Payment, e: Entry): Books {
    b.(payments := b.payments + [p], ledger := b.ledger + [e])
  }

  lemma PaymentRows(b: Books, p: Payment, e: Entry)
    requires RowsSound(b) && Recordable(b, p, e)
    ensures RowsSound(WithPayment(b, p, e))
  {
    var after := WithPayment(b, p, e);
    assert LinesSound(after);
    assert SignsAllowed(after);
    assert PaymentsSound(after);
  }

  lemma PaymentKeeps(b: Books, p: Payment, e: Entry, now: int, soon: set<PeriodKey>)
    requires RowsSound(b) && Projected(b) && Recordable(b, p, e)
    ensures var b' := Refresh(WithPayment(b, p, e), p.parts.Keys, now, soon); RowsSound(b') && Projected(b')
  {
    var after := WithPayment(b, p, e);
    forall k | k in after.periods && k !in p.parts.Keys
      ensures after.periods[k].totals == Recomputed(after.ledger, after.lines, after.payments, k)
    {
      SameTotalsAfterPayment(b, p, e, k);
    }
    PaymentRows(b, p, e);
    RefreshRows(after, p.parts.Keys, now, soon);
  }

  lemma AdjustedRows(b: Books, e: Entry, key: PeriodKey)
    requires RowsSound(b) && MayAdjust(b, e, key)
    ensures RowsSound(b.(ledger := b.ledger + [e], lines := b.lines[|b.ledger| := Line(key, e.amount)]))
  {
    var after := b.(ledger := b.ledger + [e], lines := b.lines[|b.ledger| := Line(key, e.amount)]);
    assert LinesSound(after);
    assert PaymentsSound(after);
  }

  lemma AdjustKeeps(b: Books, e: Entry, key: PeriodKey, now: int, soon: set<PeriodKey>)
    requires RowsSound(b) && Projected(b)
    ensures RowsSound(Adjust(b, e, key, now, soon)) && Projected(Adjust(b, e, key, now, soon))
  {
    if MayAdjust(b, e, key) {
      var after := b.(ledger := b.ledger + [e], lines := b.lines[|b.ledger| := Line(key, e.amount)]);
      forall k | k in after.periods && k !in {key}
        ensures after.periods[k].totals == Recomputed(after.ledger, after.lines, after.payments, k)
      {
        SameTotalsAfterLine(b, e, key, k);
      }
      AdjustedRows(b, e, key);
      RefreshRows(after, {key}, now, soon);
    }
  }

  /** A payment is split over the courier's outstanding periods, within what each owes and oldest first. */
  lemma PartsWithinOwed(b: Books, courier: string, amount: int, owing: seq<PeriodKey>)
    requires MayPay(b, courier, amount, owing)
    ensures var parts := Allocate(owing, Owed(b.periods), amount);
            IsAllocation(owing, Owed(b.periods), amount, parts) &&
            forall k :: k in parts ==> Outstanding(b, courier, k) && 0 < parts[k] <= b.periods[k].totals.remaining
  {
    assert Payable(owing, Owed(b.periods)) by {
      assert forall k :: k in owing ==> Outstanding(b, courier, k);
    }
    AllocateAllocates(owing, Owed(b.periods), amount);
  }

  lemma PayKeeps(
    b: Books, courier: string, amount: int, paidAt: int, owing: seq<PeriodKey>, now: int, soon: set<PeriodKey>)
    requires RowsSound(b) && Projected(b)
    ensures var b' := RecordPayment(b, courier, amount, paidAt, owing, now, soon); RowsSound(b') && Projected(b')
  {
    if MayPay(b, courier, amount, owing) {
      var parts := Allocate(owing, Owed(b.periods), amount);
      PartsWithinOwed(b, courier, amount, owing);
      PaymentKeeps(b, Payment(courier, amount, parts, None, |b.ledger|),
                   Entry(courier, None, EXTERNAL_PAYMENT, -amount, paidAt, None), now, soon);
    }
  }

  lemma ReverseKeeps(b: Books, p: nat, now: int, soon: set<PeriodKey>)
    requires RowsSound(b) && Projected(b)
    ensures var b' := ReversePayment(b, p, now, soon); RowsSound(b') && Projected(b')
  {
    if MayReverse(b, p) {
      var original := b.payments[p];
      PaymentKeeps(b, Payment(original.courier, original.amount, original.parts, Some(p), |b.ledger|),
                   Entry(original.courier, None, REVERSAL, original.amount, now, Some(original.entry)), now, soon);
    }
  }

  predicate MayCloseByApi(b: Books, key: PeriodKey, version: nat, now: int) {
    MayClose(b, key, now) && b.periods[key].version == version
  }

  /** An administrator's close writes the lines and totals the worker's close writes; only the status, which
      may also say waived, adjusted or partially paid, and the version can differ. */
  lemma ClosersAgree(b: Books, key: PeriodKey, version: nat, now: int, soon: set<PeriodKey>)
    requires MayCloseByApi(b, key, version, now)
    ensures var w, a := CloseSettlement(b, key, now), CloseByApi(b, key, version, now, soon);
            a == w.(periods := w.periods[key :=
                      w.periods[key].(status := a.periods[key].status, version := version + 2)])
  {
    RefreshOne(b.(lines := Backfilled(b, key)), key, now, soon);
  }

  lemma RefreshOne(b: Books, key: PeriodKey, now: int, soon: set<PeriodKey>)
    requires key in b.periods
    ensures var t := Recomputed(b.ledger, b.lines, b.payments, key);
            var p := b.periods[key];
            Refresh(b, {key}, now, soon) == b.(periods := b.periods[key := p.(
              totals := t, status := RefreshedStatus(p.status == OPEN, t, p.dueAt, now, key in soon),
              version := p.version + 1)])
  {
    assert Refresh(b, {key}, now, soon).periods.Keys == b.periods.Keys;
  }

  /** The totals do not depend on a period's status or version. */
  lemma StatusDoesNotMatter(b: Books, key: PeriodKey, p: Period)
    requires RowsSound(b) && Projected(b) && key in b.periods && p.totals == b.periods[key].totals
    ensures RowsSound(b.(periods := b.periods[key := p])) && Projected(b.(periods := b.periods[key := p]))
  {
    RowDoesNotMatter(b, key, p);
    TotalsStay(b, key, p);
  }

  lemma RowDoesNotMatter(b: Books, key: PeriodKey, p: Period)
    requires RowsSound(b) && key in b.periods
    ensures RowsSound(b.(periods := b.periods[key := p]))
  {
    var b' := b.(periods := b.periods[key := p]);
    assert b'.periods.Keys == b.periods.Keys;
    assert LinesSound(b');
    assert PaymentsSound(b');
  }

  lemma TotalsStay(b: Books, key: PeriodKey, p: Period)
    requires Projected(b) && key in b.periods && p.totals == b.periods[key].totals
    ensures Projected(b.(periods := b.periods[key := p]))
  {}

  lemma ApiCloseKeeps(b: Books, key: PeriodKey, version: nat, now: int, soon: set<PeriodKey>)
    requires RowsSound(b) && Projected(b)
    ensures RowsSound(CloseByApi(b, key, version, now, soon)) && Projected(CloseByApi(b, key, version, now, soon))
  {
    if MayCloseByApi(b, key, version, now) {
      CloseKeeps(b, key, now);
      ClosersAgree(b, key, version, now, soon);
      StatusDoesNotMatter(CloseSettlement(b, key, now), key, CloseByApi(b, key, version, now, soon).periods[key]);
    }
  }

  /** Every transaction, of the worker or the API, leaves every period's stored totals equal to
      what recomputation from lines and live payments gives. */
  lemma StepKeepsTotals(b: Books, s: Step)
    requires RowsSound(b) && Projected(b)
    ensures RowsSound(Apply(b, s)) && Projected(Apply(b, s))
  {
    match s
    case Complete(id, now, grace) => CompleteKeeps(b, id, now, grace);
    case Close(key, now) => CloseKeeps(b, key, now);
    case ApiClose(key, version, now, soon) => ApiCloseKeeps(b, key, version, now, soon);
    case Overdue(now) => OverdueKeeps(b, now);
    case Finalize(id, now, window, soon) => FinalizeKeeps(b, id, now, window, soon);
    case Pay(courier, amount, paidAt, owing, now, soon) => PayKeeps(b, courier, amount, paidAt, owing, now, soon);
    case Reverse(p, now, soon) => ReverseKeeps(b, p, now, soon);
    case AdjustBy(entry, key, now, soon) => AdjustKeeps(b, entry, key, now, soon);
    case Change(id, order, now) => ChangeKeeps(b, id, order);
  }

  lemma OverdueKeeps(b: Books, now: int)
    requires RowsSound(b) && Projected(b)
    ensures RowsSound(MarkOverdue(b, now)) && Projected(MarkOverdue(b, now))
  {}

  lemma ChangeKeeps(b: Books, id: nat, o: Order)
    requires RowsSound(b) && Projected(b)
    ensures RowsSound(ChangeOrder(b, id, o)) && Projected(ChangeOrder(b, id, o))
  {
    if MayChange(b, id, o) {
      OrdersDoNotMatter(b, if id == |b.orders| then b.orders + [o] else b.orders[id := o]);
    }
  }

  lemma OrdersDoNotMatter(b: Books, orders: seq<Order>)
    requires RowsSound(b) && Projected(b)
    ensures RowsSound(b.(orders := orders)) && Projected(b.(orders := orders))
  {}

  lemma {:induction false} RunKeepsTotals(b: Books, steps: seq<Step>)
    requires RowsSound(b) && Projected(b)
    ensures RowsSound(Run(b, steps)) && Projected(Run(b, steps))
    decreases |steps|
  {
    if steps != [] {
      StepKeepsTotals(b, steps[0]);
      RunKeepsTotals(Apply(b, steps[0]), steps[1..]);
    }
  }
}
