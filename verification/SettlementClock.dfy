/** Settlement statuses over runs whose clock never goes back, and what goes wrong when it does. */
module SettlementClock {
  import opened Options
  import Sums
  import opened WeeklyWindows
  import opened FinanceBooks
  import opened PaymentAllocation
  import opened BookInvariants

  // ---------------------------------------------------------------- the status of every period

  /** With t the latest time any job or request has used: a period is open exactly while closedAt is
      absent; a closed period's window is over, it is settled exactly when nothing remains, and it is
      overdue only past its due date. */
  ghost predicate StatusSound(p: Period, key: PeriodKey, t: int) {
    (p.status == OPEN <==> p.closedAt == None) &&
    (p.status != OPEN ==>
      key.end <= t && p.totals.remaining >= 0 &&
      (p.status in {PAID, WAIVED} <==> p.totals.remaining == 0) &&
      (p.status == OVERDUE ==> p.dueAt < t))
  }

  ghost predicate StatusesSound(b: Books, t: int) {
    forall k :: k in b.periods ==> StatusSound(b.periods[k], k, t)
  }

  lemma RecomputedRemaining(b: Books, lines: map<nat, Line>, key: PeriodKey)
    ensures Recomputed(b.ledger, lines, b.payments, key).remaining >= 0
  {}

  lemma RefreshKeepsStatuses(b: Books, keys: set<PeriodKey>, now: int, soon: set<PeriodKey>)
    requires StatusesSound(b, now)
    ensures StatusesSound(Refresh(b, keys, now, soon), now)
  {
    var b' := Refresh(b, keys, now, soon);
    forall k | k in b'.periods ensures StatusSound(b'.periods[k], k, now) {
      assert StatusSound(b.periods[k], k, now);
      RecomputedRemaining(b, b.lines, k);
    }
  }

  /** A completion never books to a closed period while the clock does not go back: every closed
      window has ended, and the window of the completion has not. */
  lemma CompletionFindsOpenPeriod(b: Books, id: nat, now: nat, grace: Option<int>, t: int)
    requires StatusesSound(b, t) && t <= now
    ensures CompletionOutcome(b, id, now, grace) == Done ==>
              var key := TargetPeriod(b.orders[id].courier.value, now, grace.value);
              key in b.periods ==> b.periods[key].status == OPEN
  {
    if CompletionOutcome(b, id, now, grace) == Done {
      var key := TargetPeriod(b.orders[id].courier.value, now, grace.value);
      WindowHoldsNow(now, grace.value);
      if key in b.periods {
        assert StatusSound(b.periods[key], key, t);
      }
    }
  }

  lemma CompletedKeepsStatuses(b: Books, id: nat, e: Entry, key: PeriodKey, period: Period, now: int, t: int)
    requires StatusesSound(b, t) && id < |b.orders| && period.status == OPEN && period.closedAt == None
    ensures StatusesSound(Completed(b, id, e, key, period, now), t)
  {}

  lemma LaterStatuses(b: Books, t: int, u: int)
    requires StatusesSound(b, t) && t <= u
    ensures StatusesSound(b, u)
  {
    forall k | k in b.periods ensures StatusSound(b.periods[k], k, u) {
      assert StatusSound(b.periods[k], k, t);
    }
  }

  lemma CompleteKeepsStatuses(b: Books, id: nat, now: nat, grace: Option<int>)
    requires StatusesSound(b, now)
    ensures StatusesSound(CompleteOrder(b, id, now, grace), now)
  {
    if CompletionOutcome(b, id, now, grace) == Done {
      var o := b.orders[id];
      var w := WeeklyBounds(now, grace.value);
      var key := TargetPeriod(o.courier.value, now, grace.value);
      CompletionFindsOpenPeriod(b, id, now, grace, now);
      if key in b.periods { assert StatusSound(b.periods[key], key, now); }
      CompletedKeepsStatuses(
        b, id, CompletionEntry(o, id, now), key, Incremented(b, key, w.dueAt, o.commission), now, now);
    }
  }

  lemma CloseKeepsStatuses(b: Books, key: PeriodKey, now: int)
    requires StatusesSound(b, now)
    ensures StatusesSound(CloseSettlement(b, key, now), now)
  {
    if MayClose(b, key, now) {
      RecomputedRemaining(b, Backfilled(b, key), key);
    }
  }

  lemma ApiCloseKeepsStatuses(b: Books, key: PeriodKey, version: nat, now: int, soon: set<PeriodKey>)
    requires StatusesSound(b, now)
    ensures StatusesSound(CloseByApi(b, key, version, now, soon), now)
  {
    if MayCloseByApi(b, key, version, now) {
      CloseKeepsStatuses(b, key, now);
      ClosersAgree(b, key, version, now, soon);
      var closed, b' := CloseSettlement(b, key, now), CloseByApi(b, key, version, now, soon);
      forall k | k in b'.periods ensures StatusSound(b'.periods[k], k, now) {
        assert StatusSound(closed.periods[k], k, now);
      }
    }
  }

  lemma OverdueKeepsStatuses(b: Books, now: int)
    requires StatusesSound(b, now)
    ensures StatusesSound(MarkOverdue(b, now), now)
  {
    var b' := MarkOverdue(b, now);
    forall k | k in b'.periods ensures StatusSound(b'.periods[k], k, now) {
      assert StatusSound(b.periods[k], k, now);
    }
  }

  lemma FinalizeKeepsStatuses(b: Books, id: nat, now: int, w: Bounds, soon: set<PeriodKey>)
    requires StatusesSound(b, now)
    ensures StatusesSound(FinalizeOrder(b, id, now, w, soon), now)
  {
    if MayFinalize(b, id, now, w) {
      var o := b.orders[id];
      var key := PeriodKey(o.courier.value, w.periodStart, w.periodEnd);
      var period := if key in b.periods then b.periods[key] else Period(w.dueAt, Totals(0, 0, 0, 0, 0), OPEN, 1, None);
      if key in b.periods { assert StatusSound(b.periods[key], key, now); }
      CompletedKeepsStatuses(b, id, CompletionEntry(o, id, now), key, period, now, now);
      RefreshKeepsStatuses(Completed(b, id, CompletionEntry(o, id, now), key, period, now), {key}, now, soon);
    }
  }

  lemma PayKeepsStatuses(b: Books, s: Step)
    requires s.Pay? && StatusesSound(b, s.now)
    ensures StatusesSound(RecordPayment(b, s.courier, s.amount, s.paidAt, s.owing, s.now, s.soon), s.now)
  {
    if MayPay(b, s.courier, s.amount, s.owing) {
      var parts := Allocate(s.owing, Owed(b.periods), s.amount);
      RefreshKeepsStatuses(
        WithPayment(b, Payment(s.courier, s.amount, parts, None, |b.ledger|),
                    Entry(s.courier, None, EXTERNAL_PAYMENT, -s.amount, s.paidAt, None)),
        parts.Keys, s.now, s.soon);
    }
  }

  lemma ReverseKeepsStatuses(b: Books, p: nat, now: int, soon: set<PeriodKey>)
    requires StatusesSound(b, now)
    ensures StatusesSound(ReversePayment(b, p, now, soon), now)
  {
    if MayReverse(b, p) {
      var o := b.payments[p];
      RefreshKeepsStatuses(
        WithPayment(b, Payment(o.courier, o.amount, o.parts, Some(p), |b.ledger|),
                    Entry(o.courier, None, REVERSAL, o.amount, now, Some(o.entry))),
        o.parts.Keys, now, soon);
    }
  }

  lemma AdjustKeepsStatuses(b: Books, e: Entry, key: PeriodKey, now: int, soon: set<PeriodKey>)
    requires StatusesSound(b, now)
    ensures StatusesSound(Adjust(b, e, key, now, soon), now)
  {
    if MayAdjust(b, e, key) {
      RefreshKeepsStatuses(
        b.(ledger := b.ledger + [e], lines := b.lines[|b.ledger| := Line(key, e.amount)]), {key}, now, soon);
    }
  }

  lemma ChangeKeepsStatuses(b: Books, id: nat, o: Order, t: int)
    requires StatusesSound(b, t)
    ensures StatusesSound(ChangeOrder(b, id, o), t)
  {}

  lemma StepKeepsStatuses(b: Books, s: Step)
    requires StatusesSound(b, s.now)
    ensures StatusesSound(Apply(b, s), s.now)
  {
    match s
    case Complete(id, now, grace) => CompleteKeepsStatuses(b, id, now, grace);
    case Close(key, now) => CloseKeepsStatuses(b, key, now);
    case ApiClose(key, version, now, soon) => ApiCloseKeepsStatuses(b, key, version, now, soon);
    case Overdue(now) => OverdueKeepsStatuses(b, now);
    case Finalize(id, now, w, soon) => FinalizeKeepsStatuses(b, id, now, w, soon);
    case Pay(courier, amount, paidAt, owing, now, soon) => PayKeepsStatuses(b, s);
    case Reverse(p, now, soon) => ReverseKeepsStatuses(b, p, now, soon);
    case AdjustBy(e, key, now, soon) => AdjustKeepsStatuses(b, e, key, now, soon);
    case Change(id, order, now) => ChangeKeepsStatuses(b, id, order, now);
  }

  /** The latest clock reading of a run that starts at t. */
  function Clock(steps: seq<Step>, t: int): int
    decreases |steps|
  {
    if steps == [] then t else Clock(steps[1..], steps[0].now)
  }

  lemma {:induction false} RunKeepsStatuses(b: Books, steps: seq<Step>, t: int)
    requires StatusesSound(b, t) && ClockFrom(steps, t)
    ensures StatusesSound(Run(b, steps), Clock(steps, t))
    decreases |steps|
  {
    if steps != [] {
      LaterStatuses(b, t, steps[0].now);
      StepKeepsStatuses(b, steps[0]);
      RunKeepsStatuses(Apply(b, steps[0]), steps[1..], steps[0].now);
    }
  }

  lemma {:induction false} ClockOfPrefix(steps: seq<Step>, t: int, i: nat)
    requires ClockFrom(steps, t) && i < |steps|
    ensures ClockFrom(steps[..i], t) && Clock(steps[..i], t) <= steps[i].now
    decreases |steps|
  {
    if i > 0 {
      ClockOfPrefix(steps[1..], steps[0].now, i - 1);
      assert steps[..i][1..] == steps[1..][..i - 1];
    }
  }

  /** The period a step books a commission to, if it books one. */
  function BookedPeriod(b: Books, s: Step): Option<PeriodKey> {
    match s
    case Complete(id, now, grace) =>
      if CompletionOutcome(b, id, now, grace) == Done
      then Some(TargetPeriod(b.orders[id].courier.value, now, grace.value)) else None
    case Finalize(id, now, w, soon) =>
      if MayFinalize(b, id, now, w)
      then Some(PeriodKey(b.orders[id].courier.value, w.periodStart, w.periodEnd)) else None
    case _ => None
  }

  lemma BookingFindsOpenPeriod(b: Books, s: Step, t: int)
    requires StatusesSound(b, t) && t <= s.now
    ensures BookedPeriod(b, s).Some? ==>
              BookedPeriod(b, s).value in b.periods ==> b.periods[BookedPeriod(b, s).value].status == OPEN
  {
    if s.Complete? {
      CompletionFindsOpenPeriod(b, s.id, s.now, s.grace, t);
    } else if s.Finalize? && MayFinalize(b, s.id, s.now, s.window) {
      var key := PeriodKey(b.orders[s.id].courier.value, s.window.periodStart, s.window.periodEnd);
      if key in b.periods {
        assert StatusSound(b.periods[key], key, t);
      }
    }
  }

  /** Over any run from empty tables with a non-decreasing clock, no step, of the worker or the API, books
      a commission to a closed period. */
  lemma NoCommissionInClosedPeriod(steps: seq<Step>, i: nat)
    requires ClockFrom(steps, 0) && i < |steps|
    ensures var b := Run(EMPTY, steps[..i]);
            BookedPeriod(b, steps[i]).Some? ==>
              BookedPeriod(b, steps[i]).value in b.periods ==>
              b.periods[BookedPeriod(b, steps[i]).value].status == OPEN
  {
    ClockOfPrefix(steps, 0, i);
    RunKeepsStatuses(EMPTY, steps[..i], 0);
    BookingFindsOpenPeriod(Run(EMPTY, steps[..i]), steps[i], Clock(steps[..i], 0));
  }

  // ---------------------------------------------------------------- closing happens once

  predicate Closed(b: Books, key: PeriodKey) {
    key in b.periods && b.periods[key].status != OPEN
  }

  lemma CompleteKeepsClosed(b: Books, id: nat, now: nat, grace: Option<int>, key: PeriodKey)
    requires Closed(b, key)
    ensures Closed(CompleteOrder(b, id, now, grace), key)
  {}

  lemma FinalizeKeepsClosed(b: Books, id: nat, now: int, w: Bounds, soon: set<PeriodKey>, key: PeriodKey)
    requires Closed(b, key)
    ensures Closed(FinalizeOrder(b, id, now, w, soon), key)
  {}

  lemma PayKeepsClosed(b: Books, s: Step, key: PeriodKey)
    requires Closed(b, key) && s.Pay?
    ensures Closed(RecordPayment(b, s.courier, s.amount, s.paidAt, s.owing, s.now, s.soon), key)
  {}

  lemma ReverseKeepsClosed(b: Books, p: nat, now: int, soon: set<PeriodKey>, key: PeriodKey)
    requires Closed(b, key)
    ensures Closed(ReversePayment(b, p, now, soon), key)
  {}

  lemma AdjustKeepsClosed(b: Books, e: Entry, k: PeriodKey, now: int, soon: set<PeriodKey>, key: PeriodKey)
    requires Closed(b, key)
    ensures Closed(Adjust(b, e, k, now, soon), key)
  {}

  lemma CloseKeepsClosed(b: Books, k: PeriodKey, now: int, key: PeriodKey)
    requires Closed(b, key)
    ensures Closed(CloseSettlement(b, k, now), key) && !MayClose(b, key, now)
  {}

  lemma ApiCloseKeepsClosed(b: Books, k: PeriodKey, version: nat, now: int, soon: set<PeriodKey>, key: PeriodKey)
    requires Closed(b, key)
    ensures Closed(CloseByApi(b, k, version, now, soon), key)
  {
    if MayCloseByApi(b, k, version, now) {
      ClosersAgree(b, k, version, now, soon);
    }
  }

  lemma MarkingKeepsClosed(b: Books, now: int, key: PeriodKey)
    requires Closed(b, key)
    ensures Closed(MarkOverdue(b, now), key)
  {}

  /** No step reopens a period, and neither the job nor an administrator can close a closed one again. */
  lemma ClosedStaysClosed(b: Books, s: Step, key: PeriodKey)
    requires Closed(b, key)
    ensures Closed(Apply(b, s), key)
    ensures !MayClose(b, key, s.now)
  {
    match s
    case Complete(id, now, grace) => CompleteKeepsClosed(b, id, now, grace, key);
    case Close(k, now) => CloseKeepsClosed(b, k, now, key);
    case ApiClose(k, version, now, soon) => ApiCloseKeepsClosed(b, k, version, now, soon, key);
    case Overdue(now) => MarkingKeepsClosed(b, now, key);
    case Finalize(id, now, w, soon) => FinalizeKeepsClosed(b, id, now, w, soon, key);
    case Pay(courier, amount, paidAt, owing, now, soon) => PayKeepsClosed(b, s, key);
    case Reverse(p, now, soon) => ReverseKeepsClosed(b, p, now, soon, key);
    case AdjustBy(e, k, now, soon) => AdjustKeepsClosed(b, e, k, now, soon, key);
    case Change(id, order, now) =>
  }

  lemma {:induction false} ClosedStaysClosedOverRun(b: Books, steps: seq<Step>, key: PeriodKey)
    requires Closed(b, key)
    ensures Closed(Run(b, steps), key)
    decreases |steps|
  {
    if steps != [] {
      ClosedStaysClosed(b, steps[0], key);
      ClosedStaysClosedOverRun(Apply(b, steps[0]), steps[1..], key);
    }
  }

  /** The i-th step of the run closes the period. */
  predicate ClosesAt(steps: seq<Step>, i: nat, key: PeriodKey)
    requires i < |steps|
  {
    !Closed(Run(EMPTY, steps[..i]), key) && Closed(Run(EMPTY, steps[..i + 1]), key)
  }

  /** Over every run, whatever its clock, each period is closed at most once. */
  lemma ClosedAtMostOnce(steps: seq<Step>, i: nat, j: nat, key: PeriodKey)
    requires i < j < |steps|
    ensures ClosesAt(steps, i, key) ==> !ClosesAt(steps, j, key)
  {
    if ClosesAt(steps, i, key) {
      assert steps[..j] == steps[..i + 1] + steps[i + 1..j];
      RunConcat(EMPTY, steps[..i + 1], steps[i + 1..j]);
      ClosedStaysClosedOverRun(Run(EMPTY, steps[..i + 1]), steps[i + 1..j], key);
    }
  }

  // ---------------------------------------------------------------- a clock that goes back

  /** A completion whose clock reads an instant of a week that has been closed at a later reading is not
      refused: it books to the closed period, unless credits have pushed that period below zero. */
  lemma StaleClockBooksToClosedPeriod(b: Books, id: nat, now: nat, grace: int, later: nat)
    requires RowsSound(b) && Projected(b) && MayComplete(b, id, now) && b.orders[id].commission >= 0
    ensures var key := TargetPeriod(b.orders[id].courier.value, now, grace);
            var closed := CloseSettlement(b, key, later);
            MayClose(b, key, later) ==>
              now < later && Closed(closed, key) && Closed(CompleteOrder(closed, id, now, Some(grace)), key) &&
              (CompletionOutcome(closed, id, now, Some(grace)) == Done <==>
                Balance(closed.periods[key].totals) >= 0 || b.orders[id].commission == 0)
  {
    var key := TargetPeriod(b.orders[id].courier.value, now, grace);
    if MayClose(b, key, later) {
      var closed := CloseSettlement(b, key, later);
      WindowHoldsNow(now, grace);
      CloseKeeps(b, key, later);
      ClosingCloses(b, key, later);
      CompleteKeepsClosed(closed, id, now, Some(grace), key);
      CompletionFailsExactly(closed, id, now, Some(grace));
    }
  }

  lemma ClosingCloses(b: Books, key: PeriodKey, now: int)
    requires MayClose(b, key, now)
    ensures Closed(CloseSettlement(b, key, now), key) && CloseSettlement(b, key, now).orders == b.orders
  {}

  /** A commission booked to a period already marked PAID leaves it PAID with an amount remaining, and
      the overdue job passes over it for ever. */
  lemma CommissionInPaidPeriodIsNeverOverdue(b: Books, id: nat, now: nat, grace: int, later: int)
    requires MayComplete(b, id, now)
    ensures var key := TargetPeriod(b.orders[id].courier.value, now, grace);
            CompletionOutcome(b, id, now, Some(grace)) == Done &&
            key in b.periods && b.periods[key].status == PAID && b.periods[key].totals.remaining == 0 ==>
              var p := MarkOverdue(CompleteOrder(b, id, now, Some(grace)), later).periods[key];
              p.status == PAID && p.totals.remaining == b.orders[id].commission
  {}

  // ---------------------------------------------------------------- the overdue job

  ghost predicate AllMarked(b: Books, now: int) {
    forall k :: k in b.periods && b.periods[k].status != OPEN &&
                b.periods[k].totals.remaining > 0 && b.periods[k].dueAt < now ==>
      b.periods[k].status == OVERDUE
  }

  /** After the job every closed unpaid period due before now is overdue, and running it again
      changes nothing. */
  lemma OverdueJobCompletes(b: Books, now: int)
    requires StatusesSound(b, now)
    ensures AllMarked(MarkOverdue(b, now), now)
    ensures MarkOverdue(MarkOverdue(b, now), now) == MarkOverdue(b, now)
  {
    var b' := MarkOverdue(b, now);
    forall k | k in b.periods ensures StatusSound(b.periods[k], k, now) {}
    forall k | k in b'.periods ensures !BecomesOverdue(b'.periods[k], now) {}
    assert MarkOverdue(b', now).periods == b'.periods;
  }

  // ---------------------------------------------------------------- running totals against recomputation

  /** The increment of the completion job is accepted by the projection constraint exactly when the
      period's balance is not negative or there is nothing to add. */
  lemma IncrementAllowedExactly(t: Totals, amount: int)
    requires TotalsAllowed(t) && amount >= 0
    ensures TotalsAllowed(t.(commission := t.commission + amount, remaining := t.remaining + amount))
      <==> Balance(t) >= 0 || amount == 0
  {}

  /** A due completion fails, and with it the rest of the job, exactly when no settings row is in
      force, the commission is negative, or credits have pushed its open period below zero. */
  lemma CompletionFailsExactly(b: Books, id: nat, now: nat, grace: Option<int>)
    requires RowsSound(b) && Projected(b) && MayComplete(b, id, now)
    ensures CompletionOutcome(b, id, now, grace) == Failed <==>
      grace == None || b.orders[id].commission < 0 ||
      var key := TargetPeriod(b.orders[id].courier.value, now, grace.value);
      (key in b.periods && Balance(b.periods[key].totals) < 0 && b.orders[id].commission > 0)
  {
    if grace.Some? && b.orders[id].commission >= 0 {
      var key := TargetPeriod(b.orders[id].courier.value, now, grace.value);
      if key in b.periods {
        CommissionsNonNegative(b, key);
        IncrementAllowedExactly(b.periods[key].totals, b.orders[id].commission);
      }
    }
  }

  predicate OnlyCommissions(b: Books, key: PeriodKey) {
    forall i :: i in b.lines && b.lines[i].period == key ==> i < |b.ledger| && b.ledger[i].kind == COMMISSION_DUE
  }

  predicate Unpaid(b: Books, key: PeriodKey) {
    forall p :: 0 <= p < |b.payments| ==> key !in b.payments[p].parts
  }

  lemma NothingOfKind(b: Books, key: PeriodKey, kinds: set<EntryKind>)
    requires OnlyCommissions(b, key) && COMMISSION_DUE !in kinds
    ensures LineTotal(b.ledger, b.lines, key, kinds) == 0
  {
    Sums.Congruent(|b.ledger|, Zero(), LineShare(b.ledger, b.lines, key, kinds));
    SumOfZeros(|b.ledger|);
  }

  lemma NothingPaid(b: Books, key: PeriodKey)
    requires Unpaid(b, key)
    ensures Paid(b.payments, key) == 0
  {
    Sums.Congruent(|b.payments|, Zero(), PaidShare(b.payments, key));
    SumOfZeros(|b.payments|);
  }

  /** A period whose lines are all commissions and which no payment touches owes exactly its commission. */
  lemma CompletionsOnly(b: Books, key: PeriodKey)
    requires RowsSound(b) && Projected(b) && key in b.periods && OnlyCommissions(b, key) && Unpaid(b, key)
    ensures b.periods[key].totals.remaining == b.periods[key].totals.commission
         == LineTotal(b.ledger, b.lines, key, COMMISSION_KINDS)
  {
    NothingOfKind(b, key, ADJUSTMENT_KINDS);
    NothingOfKind(b, key, WAIVER_KINDS);
    NothingPaid(b, key);
    CommissionsNonNegative(b, key);
  }

  /** The status written by a close, by what is left to pay and how far off the due date is. */
  lemma StatusAtClose(b: Books, key: PeriodKey, now: int)
    requires MayClose(b, key, now)
    ensures var p := CloseSettlement(b, key, now).periods[key];
            p.closedAt == Some(now) && p.dueAt == b.periods[key].dueAt && p.totals.remaining >= 0 &&
            (p.status == PAID <==> p.totals.remaining == 0) &&
            (p.status == OVERDUE <==> p.totals.remaining > 0 && p.dueAt < now) &&
            (p.status == DUE_SOON <==> p.totals.remaining > 0 && now <= p.dueAt <= now + 172_800_000) &&
            (p.status == NOT_DUE <==> p.totals.remaining > 0 && p.dueAt > now + 172_800_000)
  {}
}
