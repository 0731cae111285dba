/** What closing a settlement period bills: which ledger entries, how much, and when that differs
    from what the courier owes. */
module Closing {
  import opened Options
  import opened Sums
  import opened WeeklyWindows
  import opened FinanceBooks
  import opened BookInvariants

  predicate OnPeriod(b: Books, i: nat, key: PeriodKey) {
    i in b.lines && b.lines[i].period == key
  }

  predicate Within(b: Books, i: nat, key: PeriodKey) {
    i < |b.ledger| && InWindow(b.ledger[i], key)
  }

  // ---------------------------------------------------------------- lines against the window

  /** No line of the period lies outside its window, and no entry of the window is on another period. */
  ghost predicate NoStrays(b: Books, key: PeriodKey) {
    forall i: nat :: i in b.lines ==> (OnPeriod(b, i, key) <==> Within(b, i, key))
  }

  /** Closing adds a line for exactly the unlined entries of the window and moves none; afterwards
      no entry of the window is without a line. */
  lemma CloseAddsMissing(b: Books, key: PeriodKey, now: int, i: nat)
    requires MayClose(b, key, now)
    ensures OnPeriod(CloseSettlement(b, key, now), i, key) <==>
              OnPeriod(b, i, key) || (i !in b.lines && Within(b, i, key))
    ensures Within(b, i, key) ==> i in CloseSettlement(b, key, now).lines
  {}

  /** The lines of a closed period are the entries of its window exactly when none had strayed. */
  lemma CloseBillsWindow(b: Books, key: PeriodKey, now: int)
    requires MayClose(b, key, now)
    ensures (forall i: nat :: OnPeriod(CloseSettlement(b, key, now), i, key) <==> Within(b, i, key))
      <==> NoStrays(b, key)
  {
    var b' := CloseSettlement(b, key, now);
    forall i: nat ensures OnPeriod(b', i, key) <==> OnPeriod(b, i, key) || (i !in b.lines && Within(b, i, key)) {
      CloseAddsMissing(b, key, now, i);
    }
    if NoStrays(b, key) {
      forall i: nat ensures OnPeriod(b', i, key) <==> Within(b, i, key) {
        assert i in b.lines ==> (OnPeriod(b, i, key) <==> Within(b, i, key));
      }
    }
    if forall i: nat :: OnPeriod(b', i, key) <==> Within(b, i, key) {
      forall i: nat | i in b.lines ensures OnPeriod(b, i, key) <==> Within(b, i, key) {
        assert OnPeriod(b', i, key) <==> Within(b, i, key);
      }
    }
  }

  function WindowShare(ledger: seq<Entry>, key: PeriodKey, kinds: set<EntryKind>): nat -> int {
    (i: nat) => if i < |ledger| && InWindow(ledger[i], key) && ledger[i].kind in kinds then ledger[i].amount else 0
  }

  /** The sum of the courier's ledger entries of some kinds with start <= occurredAt < end. */
  function WindowTotal(ledger: seq<Entry>, key: PeriodKey, kinds: set<EntryKind>): int {
    SumTo(|ledger|, WindowShare(ledger, key, kinds))
  }

  /** Closing refines the ledger: with no strays, the totals written on the period are the per-kind
      sums over the ledger window, and payments are counted by their live allocations alone. */
  lemma CloseTotalsAreWindowTotals(b: Books, key: PeriodKey, now: int)
    requires MayClose(b, key, now) && NoStrays(b, key)
    ensures var t := CloseSettlement(b, key, now).periods[key].totals;
            t.commission == WindowTotal(b.ledger, key, COMMISSION_KINDS) &&
            t.adjustments == WindowTotal(b.ledger, key, ADJUSTMENT_KINDS) &&
            t.waived == Abs(WindowTotal(b.ledger, key, WAIVER_KINDS)) &&
            t.payments == Paid(b.payments, key) && t.remaining == AtLeastZero(Balance(t))
  {
    var lines := Backfilled(b, key);
    CloseBillsWindow(b, key, now);
    forall kinds ensures LineTotal(b.ledger, lines, key, kinds) == WindowTotal(b.ledger, key, kinds) {
      forall i: nat | i < |b.ledger|
        ensures LineShare(b.ledger, lines, key, kinds)(i) == WindowShare(b.ledger, key, kinds)(i)
      {
        assert OnPeriod(CloseSettlement(b, key, now), i, key) <==> Within(b, i, key);
      }
      Congruent(|b.ledger|, LineShare(b.ledger, lines, key, kinds), WindowShare(b.ledger, key, kinds));
    }
  }

  // ---------------------------------------------------------------- no strays while only the worker books lines

  predicate IsWeek(key: PeriodKey, k: int) {
    key.start == WeekStart(k) && key.end == WeekStart(k) + WEEK
  }

  ghost predicate Weekly(key: PeriodKey) {
    exists k :: IsWeek(key, k)
  }

  /** Every period is one of the worker's weeks and every line's entry lies in its period's week. */
  ghost predicate OwnWeeks(b: Books) {
    (forall k :: k in b.periods ==> Weekly(k)) &&
    (forall i :: i in b.lines ==> InOwnWeek(b, i, b.lines[i]))
  }

  ghost predicate InOwnWeek(b: Books, i: nat, line: Line) {
    line.period in b.periods && Within(b, i, line.period)
  }

  lemma SameWeek(t: int, p: PeriodKey, q: PeriodKey)
    requires Weekly(p) && Weekly(q) && p.courier == q.courier
    requires p.start <= t < p.end && q.start <= t < q.end
    ensures p == q
  {
    var k :| IsWeek(p, k);
    var m :| IsWeek(q, m);
    if k < m { WeeksAscend(k, m); }
    if m < k { WeeksAscend(m, k); }
  }

  lemma OneWeekHolds(b: Books, i: nat, key: PeriodKey)
    requires OwnWeeks(b) && key in b.periods && i in b.lines && Within(b, i, key)
    ensures OnPeriod(b, i, key)
  {
    assert InOwnWeek(b, i, b.lines[i]);
    SameWeek(b.ledger[i].occurredAt, b.lines[i].period, key);
  }

  lemma OwnWeeksHaveNoStrays(b: Books, key: PeriodKey)
    requires OwnWeeks(b) && key in b.periods
    ensures NoStrays(b, key)
  {
    forall i: nat | i in b.lines ensures OnPeriod(b, i, key) <==> Within(b, i, key) {
      assert InOwnWeek(b, i, b.lines[i]);
      if Within(b, i, key) {
        OneWeekHolds(b, i, key);
      }
    }
  }

  /** The steps but for those that book a line to a window or period the API has chosen: the worker's jobs,
      closes, payments and order changes. */
  predicate WorkerBooked(s: Step) {
    !s.Finalize? && !s.AdjustBy?
  }

  lemma TargetIsWeekly(courier: string, now: nat, grace: int)
    ensures Weekly(TargetPeriod(courier, now, grace))
    ensures TargetPeriod(courier, now, grace).start <= now < TargetPeriod(courier, now, grace).end
  {
    var k := WindowIsWeek(now, grace);
    assert IsWeek(TargetPeriod(courier, now, grace), k);
  }

  lemma CompletedKeepsOwnWeeks(b: Books, id: nat, key: PeriodKey, period: Period, now: int)
    requires OwnWeeks(b) && id < |b.orders| && b.orders[id].courier == Some(key.courier)
    requires Weekly(key) && key.start <= now < key.end
    ensures OwnWeeks(Completed(b, id, CompletionEntry(b.orders[id], id, now), key, period, now))
  {
    var b' := Completed(b, id, CompletionEntry(b.orders[id], id, now), key, period, now);
    forall i | i in b'.lines ensures InOwnWeek(b', i, b'.lines[i]) {
      if i != |b.ledger| {
        assert InOwnWeek(b, i, b.lines[i]);
      }
    }
  }

  lemma AppendKeepsOwnWeeks(b: Books, b': Books)
    requires OwnWeeks(b) && b.ledger <= b'.ledger && b.lines == b'.lines && b.periods.Keys == b'.periods.Keys
    ensures OwnWeeks(b')
  {
    forall i | i in b'.lines ensures InOwnWeek(b', i, b'.lines[i]) {
      assert InOwnWeek(b, i, b.lines[i]);
    }
  }

  lemma CloseKeepsOwnWeeks(b: Books, key: PeriodKey, now: int)
    requires OwnWeeks(b) && MayClose(b, key, now)
    ensures OwnWeeks(CloseSettlement(b, key, now))
  {
    var b' := CloseSettlement(b, key, now);
    forall i | i in b'.lines ensures InOwnWeek(b', i, b'.lines[i]) {
      if i in b.lines { assert InOwnWeek(b, i, b.lines[i]); }
    }
  }

  lemma StepKeepsOwnWeeks(b: Books, s: Step)
    requires OwnWeeks(b) && WorkerBooked(s)
    ensures OwnWeeks(Apply(b, s))
  {
    if s.Complete? {
      if CompletionOutcome(b, s.id, s.now, s.grace) == Done {
        var o := b.orders[s.id];
        var w := WeeklyBounds(s.now, s.grace.value);
        var key := TargetPeriod(o.courier.value, s.now, s.grace.value);
        TargetIsWeekly(o.courier.value, s.now, s.grace.value);
        CompletedKeepsOwnWeeks(b, s.id, key, Incremented(b, key, w.dueAt, o.commission), s.now);
      }
    } else if s.Close? {
      if MayClose(b, s.key, s.now) {
        CloseKeepsOwnWeeks(b, s.key, s.now);
      }
    } else if s.ApiClose? {
      if MayCloseByApi(b, s.key, s.version, s.now) {
        CloseKeepsOwnWeeks(b, s.key, s.now);
        ClosersAgree(b, s.key, s.version, s.now, s.soon);
        AppendKeepsOwnWeeks(CloseSettlement(b, s.key, s.now), Apply(b, s));
      }
    } else {
      OthersOnlyAppend(b, s);
      AppendKeepsOwnWeeks(b, Apply(b, s));
    }
  }

  lemma OthersOnlyAppend(b: Books, s: Step)
    requires WorkerBooked(s) && !s.Complete? && !s.Close? && !s.ApiClose?
    ensures b.ledger <= Apply(b, s).ledger && b.lines == Apply(b, s).lines && b.periods.Keys == Apply(b, s).periods.Keys
  {}

  lemma {:induction false} RunKeepsOwnWeeks(b: Books, steps: seq<Step>)
    requires OwnWeeks(b) && forall i :: 0 <= i < |steps| ==> WorkerBooked(steps[i])
    ensures OwnWeeks(Run(b, steps))
    decreases |steps|
  {
    if steps != [] {
      StepKeepsOwnWeeks(b, steps[0]);
      RunKeepsOwnWeeks(Apply(b, steps[0]), steps[1..]);
    }
  }

  /** In every state reached from empty tables by the worker's jobs, closes, payments, reversals and order
      changes, closing bills exactly the courier's ledger entries of the week. */
  lemma WorkerClosesItsWeeks(steps: seq<Step>, key: PeriodKey, now: int, i: nat)
    requires forall j :: 0 <= j < |steps| ==> WorkerBooked(steps[j])
    requires MayClose(Run(EMPTY, steps), key, now)
    ensures var b := Run(EMPTY, steps);
            NoStrays(b, key) && (OnPeriod(CloseSettlement(b, key, now), i, key) <==> Within(b, i, key))
  {
    var b := Run(EMPTY, steps);
    RunKeepsOwnWeeks(EMPTY, steps);
    OwnWeeksHaveNoStrays(b, key);
    CloseBillsWindow(b, key, now);
  }

  // ---------------------------------------------------------------- charges and debts

  /** The entry of a record that takes back a payment.  Such a payment is no longer counted as paid, which
      by itself puts the balance back. */
  predicate TakesBackPayment(b: Books, i: nat) {
    exists q :: 0 <= q < |b.payments| && b.payments[q].entry == i && b.payments[q].reverses.Some?
  }

  /** A ledger entry that is a debt or a relief of debt, and not the record of a payment or of its
      being taken back.  An administrator's reversal of a payment's entry is a debt: the payment stays
      counted as paid, and the entry puts the balance back. */
  predicate IsDebt(b: Books, i: nat) {
    i < |b.ledger| && b.ledger[i].kind != EXTERNAL_PAYMENT && !TakesBackPayment(b, i)
  }

  function DebtShare(b: Books, key: PeriodKey): nat -> int {
    (i: nat) => if OnPeriod(b, i, key) && IsDebt(b, i) then b.ledger[i].amount else 0
  }

  function TakenBackShare(b: Books, key: PeriodKey): nat -> int {
    (i: nat) =>
      if i < |b.ledger| && OnPeriod(b, i, key) && TakesBackPayment(b, i) then b.ledger[i].amount else 0
  }

  /** What the period's lines say the courier owes before payments. */
  function Debt(b: Books, key: PeriodKey): int {
    SumTo(|b.ledger|, DebtShare(b, key))
  }

  /** What the period charges before payments. */
  function Charged(t: Totals): int {
    t.commission + t.adjustments - t.waived
  }

  function Both(f: nat -> int, g: nat -> int): nat -> int {
    (i: nat) => f(i) + g(i)
  }

  lemma TakenBackFacts(b: Books, i: nat)
    requires PaymentsSound(b) && TakesBackPayment(b, i)
    ensures i < |b.ledger| && b.ledger[i].kind == REVERSAL && b.ledger[i].amount > 0
  {}

  lemma SharesSplit(b: Books, key: PeriodKey, i: nat)
    requires LinesSound(b) && PaymentsSound(b)
    ensures LineShare(b.ledger, b.lines, key, COMMISSION_KINDS)(i)
          + LineShare(b.ledger, b.lines, key, ADJUSTMENT_KINDS)(i)
          + LineShare(b.ledger, b.lines, key, WAIVER_KINDS)(i)
         == DebtShare(b, key)(i) + TakenBackShare(b, key)(i)
  {
    if TakesBackPayment(b, i) {
      TakenBackFacts(b, i);
    }
  }

  lemma AddThree(n: nat, f: nat -> int, g: nat -> int, h: nat -> int, p: nat -> int, q: nat -> int)
    requires forall i: nat :: i < n ==> f(i) + g(i) + h(i) == p(i) + q(i)
    ensures SumTo(n, f) + SumTo(n, g) + SumTo(n, h) == SumTo(n, p) + SumTo(n, q)
  {
    SumOfSums(n, f, g, Both(f, g));
    SumOfSums(n, Both(f, g), h, Both(p, q));
    SumOfSums(n, p, q, Both(p, q));
  }

  lemma ChargedSplits(b: Books, key: PeriodKey)
    requires RowsSound(b)
    ensures Charged(Recomputed(b.ledger, b.lines, b.payments, key))
         == Debt(b, key) + SumTo(|b.ledger|, TakenBackShare(b, key))
  {
    CommissionsNonNegative(b, key);
    forall i: nat { SharesSplit(b, key, i); }
    AddThree(|b.ledger|, LineShare(b.ledger, b.lines, key, COMMISSION_KINDS),
             LineShare(b.ledger, b.lines, key, ADJUSTMENT_KINDS), LineShare(b.ledger, b.lines, key, WAIVER_KINDS),
             DebtShare(b, key), TakenBackShare(b, key));
  }

  ghost predicate BillsNoTakenBack(b: Books, key: PeriodKey) {
    forall i: nat :: OnPeriod(b, i, key) ==> !TakesBackPayment(b, i)
  }

  /** A period whose totals are up to date charges exactly the debts on its lines if and only if none of
      its lines is the entry of a payment taken back; otherwise it charges those entries on top. */
  lemma ChargesDebtsOnly(b: Books, key: PeriodKey)
    requires RowsSound(b) && Projected(b) && key in b.periods
    ensures Charged(b.periods[key].totals) >= Debt(b, key)
    ensures Charged(b.periods[key].totals) == Debt(b, key) <==> BillsNoTakenBack(b, key)
  {
    ChargedSplits(b, key);
    forall i: nat | i < |b.ledger|
      ensures TakenBackShare(b, key)(i) >= 0
      ensures TakenBackShare(b, key)(i) == 0 <==> !(OnPeriod(b, i, key) && TakesBackPayment(b, i))
    {
      if TakesBackPayment(b, i) {
        TakenBackFacts(b, i);
      }
    }
    NonNegative(|b.ledger|, TakenBackShare(b, key));
  }

  /** In every reachable state a period charges its debts and nothing else exactly when none of its
      lines is the entry of a payment taken back. */
  lemma ReachableCharges(steps: seq<Step>, key: PeriodKey)
    requires key in Run(EMPTY, steps).periods
    ensures var b := Run(EMPTY, steps);
            Charged(b.periods[key].totals) >= Debt(b, key) &&
            (Charged(b.periods[key].totals) == Debt(b, key) <==> BillsNoTakenBack(b, key))
  {
    RunKeepsTotals(EMPTY, steps);
    ChargesDebtsOnly(Run(EMPTY, steps), key);
  }

  // ---------------------------------------------------------------- a payment reversed by its record

  lemma ReversalIsTakenBack(b: Books, p: nat, now: int, soon: set<PeriodKey>)
    requires RowsSound(b) && MayReverse(b, p)
    ensures var b' := ReversePayment(b, p, now, soon); TakesBackPayment(b', |b.ledger|) && |b.ledger| !in b'.lines
  {
    assert ReversePayment(b, p, now, soon).payments[|b.payments|].entry == |b.ledger|;
  }

  lemma ChargesTooMuch(b: Books, i: nat, key: PeriodKey)
    requires RowsSound(b) && Projected(b) && key in b.periods
    ensures OnPeriod(b, i, key) && TakesBackPayment(b, i) ==> Charged(b.periods[key].totals) > Debt(b, key)
  {
    ChargesDebtsOnly(b, key);
  }

  lemma CloseChargesTakenBack(b: Books, i: nat, key: PeriodKey, now: int)
    requires RowsSound(b) && Projected(b) && MayClose(b, key, now)
    requires TakesBackPayment(b, i) && i !in b.lines && Within(b, i, key)
    ensures var b' := CloseSettlement(b, key, now); Charged(b'.periods[key].totals) > Debt(b', key)
  {
    CloseKeeps(b, key, now);
    CloseAddsMissing(b, key, now, i);
    ChargesTooMuch(CloseSettlement(b, key, now), i, key);
  }

  /** The way it happens: a payment reversed during an open week is charged again when that week
      closes, because its reversal entry has no line and closing gives it one. */
  lemma ReversedPaymentIsChargedAtClose(b: Books, p: nat, now: int, soon: set<PeriodKey>, key: PeriodKey, later: int)
    requires RowsSound(b) && Projected(b) && MayReverse(b, p)
    requires key.courier == b.payments[p].courier && key.start <= now < key.end
    requires MayClose(ReversePayment(b, p, now, soon), key, later)
    ensures var closed := CloseSettlement(ReversePayment(b, p, now, soon), key, later);
            Charged(closed.periods[key].totals) > Debt(closed, key)
  {
    ReverseKeeps(b, p, now, soon);
    ReversalIsTakenBack(b, p, now, soon);
    CloseChargesTakenBack(ReversePayment(b, p, now, soon), |b.ledger|, key, later);
  }

  // ---------------------------------------------------------------- a payment's entry reversed by an administrator

  lemma SharesAfterEntry(b: Books, b': Books, e: Entry, key: PeriodKey)
    requires LinesSound(b) && PaymentsSound(b) && e.kind != EXTERNAL_PAYMENT
    requires b'.ledger == b.ledger + [e] && b'.lines == b.lines[|b.ledger| := Line(key, e.amount)]
    requires b'.payments == b.payments
    ensures Debt(b', key) == Debt(b, key) + e.amount
    ensures SumTo(|b'.ledger|, TakenBackShare(b', key)) == SumTo(|b.ledger|, TakenBackShare(b, key))
  {
    var n := |b.ledger|;
    assert !TakesBackPayment(b', n);
    forall i: nat | i < n
      ensures DebtShare(b', key)(i) == DebtShare(b, key)(i)
      ensures TakenBackShare(b', key)(i) == TakenBackShare(b, key)(i)
    {
      assert b'.ledger[i] == b.ledger[i];
      assert TakesBackPayment(b', i) <==> TakesBackPayment(b, i);
    }
    Congruent(n, DebtShare(b', key), DebtShare(b, key));
    Congruent(n, TakenBackShare(b', key), TakenBackShare(b, key));
  }

  lemma EntryAddsToDebt(b: Books, e: Entry, key: PeriodKey, now: int, soon: set<PeriodKey>)
    requires RowsSound(b) && Projected(b) && MayAdjust(b, e, key)
    ensures var b' := Adjust(b, e, key, now, soon);
            Debt(b', key) == Debt(b, key) + e.amount &&
            Charged(b'.periods[key].totals) == Charged(b.periods[key].totals) + e.amount
  {
    var b' := Adjust(b, e, key, now, soon);
    AdjustKeeps(b, e, key, now, soon);
    SharesAfterEntry(b, b', e, key);
    ChargedSplits(b, key);
    ChargedSplits(b', key);
  }

  /** An administrator's reversal of a payment's entry charges no money twice: the payment stays counted
      as paid, what is charged and what is owed both rise by its amount, and its record can from then
      on not be reversed as well. */
  lemma ReversedEntryIsDebt(b: Books, q: nat, e: Entry, key: PeriodKey, now: int, soon: set<PeriodKey>)
    requires RowsSound(b) && Projected(b) && MayAdjust(b, e, key)
    requires q < |b.payments| && e.reverses == Some(b.payments[q].entry)
    ensures var b' := Adjust(b, e, key, now, soon);
            b'.payments == b.payments && !MayReverse(b', q) &&
            b'.periods[key].totals.payments == b.periods[key].totals.payments &&
            Debt(b', key) == Debt(b, key) + e.amount &&
            Charged(b'.periods[key].totals) == Charged(b.periods[key].totals) + e.amount
  {
    var b' := Adjust(b, e, key, now, soon);
    EntryAddsToDebt(b, e, key, now, soon);
    AdjustKeeps(b, e, key, now, soon);
    assert b'.ledger[|b.ledger|].reverses == Some(b.payments[q].entry);
  }

  // ---------------------------------------------------------------- overlapping windows

  /** Two windows that both hold the entry of a payment taken back, which has no line yet. */
  predicate Disputed(b: Books, p: PeriodKey, q: PeriodKey, i: nat, now: int) {
    p != q && MayClose(b, p, now) && MayClose(b, q, now) && i !in b.lines && Within(b, i, p) && Within(b, i, q) &&
    TakesBackPayment(b, i)
  }

  /** The entries a close of the period bills: those on it and those of its window without a line. */
  predicate Claims(b: Books, key: PeriodKey, i: nat) {
    OnPeriod(b, i, key) || (i !in b.lines && Within(b, i, key))
  }

  lemma OthersStayOpen(b: Books, key: PeriodKey, k: PeriodKey, now: int)
    requires MayClose(b, key, now) && MayClose(b, k, now) && k != key
    ensures MayClose(CloseSettlement(b, key, now), k, now)
  {}

  lemma CloseLeavesOthers(b: Books, key: PeriodKey, k: PeriodKey, now: int)
    requires k in b.periods && k != key
    ensures k in CloseSettlement(b, key, now).periods && CloseSettlement(b, key, now).periods[k] == b.periods[k]
  {}

  lemma CloseKeepsTaking(b: Books, key: PeriodKey, now: int, j: nat)
    ensures TakesBackPayment(CloseSettlement(b, key, now), j) <==> TakesBackPayment(b, j)
  {
    assert CloseSettlement(b, key, now).payments == b.payments;
  }

  /** Of two periods, overlapping or not, the first to close bills all it claims; the second bills what it claims
      but for the unlined entries of the first's window. */
  lemma FirstCloserTakes(b: Books, first: PeriodKey, second: PeriodKey, i: nat, now: int)
    requires first != second && MayClose(b, first, now)
    ensures var b' := CloseSettlement(CloseSettlement(b, first, now), second, now);
            (OnPeriod(b', i, first) <==> Claims(b, first, i)) &&
            (MayClose(b, second, now) ==>
              (OnPeriod(b', i, second) <==> Claims(b, second, i) && (i in b.lines || !Within(b, i, first))))
  {
    CloseAddsMissing(b, first, now, i);
    var once := CloseSettlement(b, first, now);
    if MayClose(once, second, now) {
      CloseAddsMissing(once, second, now, i);
    }
  }

  lemma ClosedTwice(b: Books, first: PeriodKey, second: PeriodKey, now: int)
    requires RowsSound(b) && Projected(b) && first != second && MayClose(b, first, now) && MayClose(b, second, now)
    ensures var b' := CloseSettlement(CloseSettlement(b, first, now), second, now);
            RowsSound(b') && Projected(b') && first in b'.periods && second in b'.periods
    ensures forall j: nat :: TakesBackPayment(CloseSettlement(CloseSettlement(b, first, now), second, now), j)
                         <==> TakesBackPayment(b, j)
  {
    var once := CloseSettlement(b, first, now);
    CloseKeeps(b, first, now);
    OthersStayOpen(b, first, second, now);
    CloseKeeps(once, second, now);
    CloseLeavesOthers(once, second, first, now);
    forall j: nat
      ensures TakesBackPayment(CloseSettlement(once, second, now), j) <==> TakesBackPayment(b, j)
    {
      CloseKeepsTaking(b, first, now, j);
      CloseKeepsTaking(once, second, now, j);
    }
  }

  /** Two periods are closed one after the other.  The first charges more than its debts exactly when it
      claims the entry of a payment taken back; the second charges its debts alone exactly when every such
      entry it claims goes to the first. */
  lemma FirstCloserOvercharges(b: Books, first: PeriodKey, second: PeriodKey, now: int)
    requires RowsSound(b) && Projected(b) && first != second && MayClose(b, first, now) && MayClose(b, second, now)
    ensures var b' := CloseSettlement(CloseSettlement(b, first, now), second, now);
            first in b'.periods && second in b'.periods &&
            (Charged(b'.periods[first].totals) > Debt(b', first) <==>
              exists j: nat :: TakesBackPayment(b, j) && Claims(b, first, j)) &&
            (Charged(b'.periods[second].totals) == Debt(b', second) <==>
              forall j: nat :: TakesBackPayment(b, j) && Claims(b, second, j) ==> j !in b.lines && Within(b, j, first))
  {
    var b' := CloseSettlement(CloseSettlement(b, first, now), second, now);
    ClosedTwice(b, first, second, now);
    forall j: nat
      ensures OnPeriod(b', j, first) <==> Claims(b, first, j)
      ensures OnPeriod(b', j, second) <==> Claims(b, second, j) && (j in b.lines || !Within(b, j, first))
    {
      FirstCloserTakes(b, first, second, j, now);
    }
    ChargesDebtsOnly(b', first);
    ChargesDebtsOnly(b', second);
  }
}
