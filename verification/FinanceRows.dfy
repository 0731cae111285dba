/** What each transaction writes, row by row, and what no transaction ever does to a row. */
module FinanceRows {
  import opened Options
  import opened Sums
  import opened WeeklyWindows
  import opened PaymentAllocation
  import opened FinanceBooks
  import opened BookInvariants

  // ---------------------------------------------------------------- a row of a period under any step

  /** A change keeps the due date and, once there is one, the closing time, and raises the version. */
  predicate RowFollows(p: Period, q: Period) {
    q.dueAt == p.dueAt && (p.closedAt.Some? ==> q.closedAt == p.closedAt) && (q != p ==> q.version > p.version)
  }

  /** A period is open exactly while it has no closing time. */
  predicate OpenSound(p: Period) {
    p.status == OPEN <==> p.closedAt == None
  }

  /** The step is a close of the period, at an instant not before its end. */
  predicate ClosesAt(s: Step, key: PeriodKey, closedAt: Option<int>) {
    (s.Close? || s.ApiClose?) && s.key == key && closedAt == Some(s.now) && key.end <= s.now
  }

  /** Row q of the period may come from row p by the step. */
  predicate MayFollow(s: Step, key: PeriodKey, p: Period, q: Period) {
    RowFollows(p, q) && OpenSound(q) && (q.closedAt == p.closedAt || ClosesAt(s, key, q.closedAt))
  }

  lemma RefreshFollows(s: Step, b: Books, keys: set<PeriodKey>, now: int, soon: set<PeriodKey>, key: PeriodKey)
    requires key in b.periods && OpenSound(b.periods[key])
    ensures key in Refresh(b, keys, now, soon).periods
    ensures MayFollow(s, key, b.periods[key], Refresh(b, keys, now, soon).periods[key])
  {}

  lemma ClosesFollow(s: Step, b: Books, b': Books, key: PeriodKey)
    requires key in b.periods && OpenSound(b.periods[key]) && (s.Close? || s.ApiClose?)
    requires b' == b || (ClosesOnly(b, b', s.key, s.now) && s.key.end <= s.now && b.periods[s.key].status == OPEN &&
                         b'.periods[s.key].version > b.periods[s.key].version)
    ensures key in b'.periods && MayFollow(s, key, b.periods[key], b'.periods[key])
  {}

  lemma CompletedFollows(s: Step, b: Books, id: nat, e: Entry, k: PeriodKey, period: Period, now: int, key: PeriodKey)
    requires id < |b.orders| && key in b.periods && OpenSound(b.periods[key])
    requires k in b.periods ==> MayFollow(s, k, b.periods[k], period)
    ensures var b' := Completed(b, id, e, k, period, now);
            key in b'.periods && MayFollow(s, key, b.periods[key], b'.periods[key])
  {}

  lemma CompleteKeepsRow(b: Books, s: Step, key: PeriodKey)
    requires key in b.periods && OpenSound(b.periods[key]) && s.Complete?
    ensures key in Apply(b, s).periods && MayFollow(s, key, b.periods[key], Apply(b, s).periods[key])
  {}

  lemma FinalizeKeepsRow(b: Books, s: Step, key: PeriodKey)
    requires key in b.periods && OpenSound(b.periods[key]) && s.Finalize?
    ensures key in Apply(b, s).periods && MayFollow(s, key, b.periods[key], Apply(b, s).periods[key])
  {
    if MayFinalize(b, s.id, s.now, s.window) {
      var o := b.orders[s.id];
      var k := PeriodKey(o.courier.value, s.window.periodStart, s.window.periodEnd);
      var period :=
        if k in b.periods then b.periods[k] else Period(s.window.dueAt, Totals(0, 0, 0, 0, 0), OPEN, 1, None);
      var rows := Completed(b, s.id, CompletionEntry(o, s.id, s.now), k, period, s.now);
      assert rows.periods[key] == b.periods[key];
      RefreshFollows(s, rows, {k}, s.now, s.soon, key);
    }
  }

  lemma CloseKeepsRow(b: Books, s: Step, key: PeriodKey)
    requires key in b.periods && OpenSound(b.periods[key]) && s.Close?
    ensures key in Apply(b, s).periods && MayFollow(s, key, b.periods[key], Apply(b, s).periods[key])
  {
    CloseWrites(b, s.key, s.now);
    ClosesFollow(s, b, CloseSettlement(b, s.key, s.now), key);
  }

  lemma ApiCloseKeepsRow(b: Books, s: Step, key: PeriodKey)
    requires key in b.periods && OpenSound(b.periods[key]) && s.ApiClose?
    ensures key in Apply(b, s).periods && MayFollow(s, key, b.periods[key], Apply(b, s).periods[key])
  {
    ApiCloseWrites(b, s.key, s.version, s.now, s.soon);
    ClosesFollow(s, b, CloseByApi(b, s.key, s.version, s.now, s.soon), key);
  }

  lemma OthersKeepRow(b: Books, s: Step, key: PeriodKey)
    requires key in b.periods && OpenSound(b.periods[key]) && (s.Overdue? || s.Change?)
    ensures key in Apply(b, s).periods && MayFollow(s, key, b.periods[key], Apply(b, s).periods[key])
  {}

  lemma PayKeepsRow(b: Books, s: Step, key: PeriodKey)
    requires key in b.periods && OpenSound(b.periods[key]) && s.Pay?
    ensures key in Apply(b, s).periods && MayFollow(s, key, b.periods[key], Apply(b, s).periods[key])
  {
    if MayPay(b, s.courier, s.amount, s.owing) {
      var p, e := RecordedPayment(b, s.courier, s.amount, s.paidAt, s.owing, s.now, s.soon);
      RefreshFollows(s, WithPayment(b, p, e), p.parts.Keys, s.now, s.soon, key);
    }
  }

  lemma ReverseKeepsRow(b: Books, s: Step, key: PeriodKey)
    requires key in b.periods && OpenSound(b.periods[key]) && s.Reverse?
    ensures key in Apply(b, s).periods && MayFollow(s, key, b.periods[key], Apply(b, s).periods[key])
  {}

  lemma AdjustKeepsRow(b: Books, s: Step, key: PeriodKey)
    requires key in b.periods && OpenSound(b.periods[key]) && s.AdjustBy?
    ensures key in Apply(b, s).periods && MayFollow(s, key, b.periods[key], Apply(b, s).periods[key])
  {}

  /** No step of the worker or the API changes a period's due date or an existing closing time, none changes a row
      without raising its version, and only closes set a closing time: to their instant, once the period is over. */
  lemma StepKeepsRow(b: Books, s: Step, key: PeriodKey)
    requires key in b.periods && OpenSound(b.periods[key])
    ensures key in Apply(b, s).periods && MayFollow(s, key, b.periods[key], Apply(b, s).periods[key])
  {
    if s.Complete? { CompleteKeepsRow(b, s, key); }
    else if s.Close? { CloseKeepsRow(b, s, key); }
    else if s.ApiClose? { ApiCloseKeepsRow(b, s, key); }
    else if s.Finalize? { FinalizeKeepsRow(b, s, key); }
    else if s.Overdue? || s.Change? { OthersKeepRow(b, s, key); }
    else if s.Pay? { PayKeepsRow(b, s, key); }
    else if s.Reverse? { ReverseKeepsRow(b, s, key); }
    else { AdjustKeepsRow(b, s, key); }
  }

  /** A period that a step creates is open. */
  lemma NewRowIsOpen(b: Books, s: Step, key: PeriodKey)
    requires key !in b.periods && key in Apply(b, s).periods
    ensures OpenSound(Apply(b, s).periods[key])
  {
    if s.Close? { CloseWrites(b, s.key, s.now); }
    else if s.ApiClose? { ApiCloseWrites(b, s.key, s.version, s.now, s.soon); }
    else if s.Finalize? { FinalizationWrites(b, s.id, s.now, s.window, s.soon); }
    else if s.Complete? { CompletionWrites(b, s.id, s.now, s.grace); }
    else { OthersCreateNone(b, s); }
  }

  lemma OthersCreateNone(b: Books, s: Step)
    requires s.Overdue? || s.Change? || s.Pay? || s.Reverse? || s.AdjustBy?
    ensures Apply(b, s).periods.Keys == b.periods.Keys
  {}

  ghost predicate RowsOpenSound(b: Books) {
    forall k :: k in b.periods ==> OpenSound(b.periods[k])
  }

  lemma {:induction false} RunKeepsOpenSound(b: Books, steps: seq<Step>)
    requires RowsOpenSound(b)
    ensures RowsOpenSound(Run(b, steps))
    decreases |steps|
  {
    if steps != [] {
      var b' := Apply(b, steps[0]);
      forall k | k in b'.periods ensures OpenSound(b'.periods[k]) {
        if k in b.periods {
          StepKeepsRow(b, steps[0], k);
        } else {
          NewRowIsOpen(b, steps[0], k);
        }
      }
      RunKeepsOpenSound(b', steps[1..]);
    }
  }

  lemma {:induction false} RunKeepsRow(b: Books, steps: seq<Step>, key: PeriodKey)
    requires key in b.periods && OpenSound(b.periods[key])
    ensures key in Run(b, steps).periods && RowFollows(b.periods[key], Run(b, steps).periods[key])
    decreases |steps|
  {
    if steps != [] {
      StepKeepsRow(b, steps[0], key);
      RunKeepsRow(Apply(b, steps[0]), steps[1..], key);
    }
  }

  /** From any reachable state on, whatever is run, a period stays, keeps its due date and its closing time once it
      has one, and differs only if its version is higher. */
  lemma RowsFollow(before: seq<Step>, steps: seq<Step>, key: PeriodKey)
    requires key in Run(EMPTY, before).periods
    ensures var b, b' := Run(EMPTY, before), Run(EMPTY, before + steps);
            key in b'.periods && RowFollows(b.periods[key], b'.periods[key])
  {
    RunKeepsOpenSound(EMPTY, before);
    RunKeepsRow(Run(EMPTY, before), steps, key);
    RunConcat(EMPTY, before, steps);
  }

  // ---------------------------------------------------------------- completions and finalisations

  /** The order is final, its commission is one new entry and line of its courier's period, the courier's counter
      is one higher, and no other row but the period's has changed. */
  ghost predicate BooksCommission(b: Books, b': Books, id: nat, now: int, key: PeriodKey) {
    id < |b.orders| && b.orders[id].courier == Some(key.courier) && key.start <= now < key.end &&
    b'.orders == b.orders[id := b.orders[id].(status := COMPLETED, finalizedAt := Some(now),
                                              version := b.orders[id].version + 1)] &&
    b'.ledger == b.ledger + [Entry(key.courier, Some(id), COMMISSION_DUE, b.orders[id].commission, now, None)] &&
    b'.lines == b.lines[|b.ledger| := Line(key, b.orders[id].commission)] &&
    b'.payments == b.payments &&
    b'.completedOrders == b.completedOrders[key.courier :=
      1 + if key.courier in b.completedOrders then b.completedOrders[key.courier] else 0] &&
    b'.periods.Keys == b.periods.Keys + {key} &&
    forall k :: k in b.periods && k != key ==> b'.periods[k] == b.periods[k]
  }

  lemma CompletedBooks(b: Books, id: nat, key: PeriodKey, period: Period, now: int)
    requires id < |b.orders| && b.orders[id].courier == Some(key.courier) && key.start <= now < key.end
    ensures BooksCommission(b, Completed(b, id, CompletionEntry(b.orders[id], id, now), key, period, now), id, now, key)
  {}

  lemma OwnRowMayDiffer(b: Books, b': Books, id: nat, now: int, key: PeriodKey, q: Period)
    requires BooksCommission(b, b', id, now, key)
    ensures BooksCommission(b, b'.(periods := b'.periods[key := q]), id, now, key)
  {}

  /** A completion is skipped exactly unless the order is delivered, not final, undisputed, past its dispute
      deadline and assigned; when it is done it books the commission to the courier's Saturday week. */
  lemma CompletionWrites(b: Books, id: nat, now: nat, grace: Option<int>)
    ensures CompletionOutcome(b, id, now, grace) == Skipped <==>
              !(id < |b.orders| && b.orders[id].status == DELIVERED && b.orders[id].finalizedAt == None &&
                !b.orders[id].hasDispute && b.orders[id].courier.Some? && b.orders[id].disputeDeadline.Some? &&
                b.orders[id].disputeDeadline.value <= now)
    ensures CompletionOutcome(b, id, now, grace) != Done ==> CompleteOrder(b, id, now, grace) == b
    ensures CompletionOutcome(b, id, now, grace) == Done ==>
              grace.Some? && b.orders[id].courier.Some? &&
              var b' := CompleteOrder(b, id, now, grace);
              var key := TargetPeriod(b.orders[id].courier.value, now, grace.value);
              BooksCommission(b, b', id, now, key) &&
              (key.start + 10_800_000) % 604_800_000 == 172_800_000 && key.end == key.start + 604_800_000 &&
              if key in b.periods then
                b'.periods[key].status == b.periods[key].status &&
                b'.periods[key].closedAt == b.periods[key].closedAt &&
                b'.periods[key].dueAt == b.periods[key].dueAt && b'.periods[key].version == b.periods[key].version + 1
              else
                b'.periods[key].status == OPEN && b'.periods[key].closedAt == None &&
                b'.periods[key].dueAt == key.end + grace.value * 86_400_000 && b'.periods[key].version == 1
  {
    if CompletionOutcome(b, id, now, grace) == Done {
      var o := b.orders[id];
      var key := TargetPeriod(o.courier.value, now, grace.value);
      var period := Incremented(b, key, WeeklyBounds(now, grace.value).dueAt, o.commission);
      WindowHoldsNow(now, grace.value);
      SaturdayStart(now, grace.value);
      CompletedBooks(b, id, key, period, now);
      assert CompleteOrder(b, id, now, grace).periods[key] == period;
    }
  }

  /** The API finalises an order exactly when it is disputed or returned, not final, assigned, its commission is
      not negative and its window holds the instant; and books the commission to that window. */
  lemma FinalizationWrites(b: Books, id: nat, now: int, w: Bounds, soon: set<PeriodKey>)
    ensures FinalizeOrder(b, id, now, w, soon) != b <==>
              id < |b.orders| && b.orders[id].status in {DELIVERY_DISPUTED, RETURNED} &&
              b.orders[id].finalizedAt == None && b.orders[id].courier.Some? && b.orders[id].commission >= 0 &&
              w.periodStart <= now < w.periodEnd
    ensures FinalizeOrder(b, id, now, w, soon) != b ==>
              b.orders[id].courier.Some? &&
              var b' := FinalizeOrder(b, id, now, w, soon);
              var key := PeriodKey(b.orders[id].courier.value, w.periodStart, w.periodEnd);
              BooksCommission(b, b', id, now, key) &&
              b'.periods[key].version == (if key in b.periods then b.periods[key].version + 1 else 2) &&
              (key !in b.periods ==>
                b'.periods[key].dueAt == w.dueAt && b'.periods[key].status == OPEN && b'.periods[key].closedAt == None)
  {
    if MayFinalize(b, id, now, w) {
      FinalizedBooks(b, id, now, w, soon);
    }
  }

  lemma FinalizedBooks(b: Books, id: nat, now: int, w: Bounds, soon: set<PeriodKey>)
    requires MayFinalize(b, id, now, w)
    ensures var b' := FinalizeOrder(b, id, now, w, soon);
            var key := PeriodKey(b.orders[id].courier.value, w.periodStart, w.periodEnd);
            BooksCommission(b, b', id, now, key) &&
            b'.periods[key].version == (if key in b.periods then b.periods[key].version + 1 else 2) &&
            (key !in b.periods ==>
              b'.periods[key].dueAt == w.dueAt && b'.periods[key].status == OPEN && b'.periods[key].closedAt == None)
  {
    var key := PeriodKey(b.orders[id].courier.value, w.periodStart, w.periodEnd);
    var period := if key in b.periods then b.periods[key] else Period(w.dueAt, Totals(0, 0, 0, 0, 0), OPEN, 1, None);
    var rows := Completed(b, id, CompletionEntry(b.orders[id], id, now), key, period, now);
    CompletedBooks(b, id, key, period, now);
    RefreshOne(rows, key, now, soon);
    OwnRowMayDiffer(b, rows, id, now, key, FinalizeOrder(b, id, now, w, soon).periods[key]);
  }

  // ---------------------------------------------------------------- closes and the overdue job

  /** Only the lines and the period's row change; the row gets the closing time. */
  ghost predicate ClosesOnly(b: Books, b': Books, key: PeriodKey, now: int) {
    b'.orders == b.orders && b'.ledger == b.ledger && b'.payments == b.payments &&
    b'.completedOrders == b.completedOrders && b'.periods.Keys == b.periods.Keys && key in b.periods &&
    (forall k :: k in b.periods && k != key ==> b'.periods[k] == b.periods[k]) &&
    b'.periods[key].dueAt == b.periods[key].dueAt && b'.periods[key].closedAt == Some(now) &&
    b'.periods[key].status != OPEN &&
    (forall i :: i in b.lines ==> i in b'.lines && b'.lines[i] == b.lines[i]) &&
    (forall i: nat :: i in b'.lines && i !in b.lines ==>
      i < |b.ledger| && b'.lines[i] == Line(key, b.ledger[i].amount) && b.ledger[i].courier == key.courier &&
      key.start <= b.ledger[i].occurredAt < key.end)
  }

  /** The worker closes a period exactly when it is open and its window has ended. */
  lemma CloseWrites(b: Books, key: PeriodKey, now: int)
    ensures var b' := CloseSettlement(b, key, now);
            if key in b.periods && b.periods[key].status == OPEN && key.end <= now then
              ClosesOnly(b, b', key, now) && b'.periods[key].version == b.periods[key].version + 1
            else b' == b
  {}

  /** An administrator closes it exactly when, besides, the version submitted is the current one. */
  lemma ApiCloseWrites(b: Books, key: PeriodKey, version: nat, now: int, soon: set<PeriodKey>)
    ensures var b' := CloseByApi(b, key, version, now, soon);
            if key in b.periods && b.periods[key].status == OPEN && key.end <= now && b.periods[key].version == version
            then ClosesOnly(b, b', key, now) && b'.periods[key].version == version + 2
            else b' == b
  {
    CloseWrites(b, key, now);
    if MayCloseByApi(b, key, version, now) {
      ClosersAgree(b, key, version, now, soon);
    }
  }

  /** A period is overdue business: closed, something remaining, past its due date, and not marked yet. */
  predicate Overdue(p: Period, now: int) {
    p.closedAt.Some? && p.totals.remaining > 0 && p.dueAt < now &&
    p.status in {CLOSED, NOT_DUE, DUE_SOON, PARTIALLY_PAID, ADJUSTED}
  }

  /** Row q is row p after the job: marked with the next version, everything else as before, or left alone. */
  predicate MarkedRow(p: Period, q: Period, now: int) {
    if Overdue(p, now) then q == Period(p.dueAt, p.totals, OVERDUE, p.version + 1, p.closedAt) else q == p
  }

  /** The job marks each eligible row, whose totals, due date and closing time stay, and changes nothing else. */
  lemma OverdueWrites(b: Books, now: int)
    ensures var b' := MarkOverdue(b, now);
            b' == b.(periods := b'.periods) && b'.periods.Keys == b.periods.Keys &&
            forall k :: k in b.periods ==> MarkedRow(b.periods[k], b'.periods[k], now)
  {}

  // ---------------------------------------------------------------- payments, reversals, adjustments

  /** The periods of `keys` have been brought up to date, each with the next version; no other has changed. */
  ghost predicate RefreshesOnly(b: Books, b': Books, keys: set<PeriodKey>) {
    b'.periods.Keys == b.periods.Keys && b'.orders == b.orders && b'.completedOrders == b.completedOrders &&
    forall k :: k in b.periods ==>
      if k in keys then
        b'.periods[k].version == b.periods[k].version + 1 && b'.periods[k].dueAt == b.periods[k].dueAt &&
        b'.periods[k].closedAt == b.periods[k].closedAt &&
        b'.periods[k].totals == Recomputed(b'.ledger, b'.lines, b'.payments, k)
      else b'.periods[k] == b.periods[k]
  }

  lemma RecordedPayment(
    b: Books, courier: string, amount: int, paidAt: int, owing: seq<PeriodKey>, now: int, soon: set<PeriodKey>)
    returns (p: Payment, e: Entry)
    requires MayPay(b, courier, amount, owing)
    ensures p == Payment(courier, amount, Allocate(owing, Owed(b.periods), amount), None, |b.ledger|)
    ensures e == Entry(courier, None, EXTERNAL_PAYMENT, -amount, paidAt, None)
    ensures RecordPayment(b, courier, amount, paidAt, owing, now, soon)
         == Refresh(WithPayment(b, p, e), p.parts.Keys, now, soon)
  {
    p := Payment(courier, amount, Allocate(owing, Owed(b.periods), amount), None, |b.ledger|);
    e := Entry(courier, None, EXTERNAL_PAYMENT, -amount, paidAt, None);
  }

  /** With the query's list of a courier's outstanding periods, a payment is recorded exactly when it is positive
      and no more than they owe: one payment split over them, and one entry of the negated amount. */
  lemma PaymentWrites(
    b: Books, courier: string, amount: int, paidAt: int, owing: seq<PeriodKey>, now: int, soon: set<PeriodKey>)
    requires NoDuplicates(owing)
    requires forall k :: k in owing <==>
               k in b.periods && k.courier == courier && b.periods[k].status != OPEN &&
               b.periods[k].totals.remaining > 0
    requires forall i, j :: 0 <= i < j < |owing| ==> owing[i].start <= owing[j].start
    ensures var b' := RecordPayment(b, courier, amount, paidAt, owing, now, soon);
            if 0 < amount <= SumBy(owing, (k: PeriodKey) => if k in b.periods then b.periods[k].totals.remaining else 0)
            then
              |b'.payments| == |b.payments| + 1 && b'.payments[..|b.payments|] == b.payments &&
              var p := b'.payments[|b.payments|];
              p == Payment(courier, amount, p.parts, None, |b.ledger|) &&
              IsAllocation(owing, Owed(b.periods), amount, p.parts) &&
              b'.ledger == b.ledger + [Entry(courier, None, EXTERNAL_PAYMENT, -amount, paidAt, None)] &&
              b'.lines == b.lines && RefreshesOnly(b, b', p.parts.Keys)
            else b' == b
  {
    assert ListsOutstanding(b, courier, owing) by {
      assert forall k :: k in owing ==> Outstanding(b, courier, k);
    }
    SameSums(owing, Owed(b.periods), (k: PeriodKey) => if k in b.periods then b.periods[k].totals.remaining else 0);
    if MayPay(b, courier, amount, owing) {
      var p, e := RecordedPayment(b, courier, amount, paidAt, owing, now, soon);
      PartsWithinOwed(b, courier, amount, owing);
      RefreshWrites(WithPayment(b, p, e), p.parts.Keys, now, soon);
    }
  }

  /** A payment is reversed exactly when it is no reversal, has not been reversed, and its entry has not been
      taken back; the reversal repeats it and its parts, and its entry has the positive amount. */
  lemma ReversalWrites(b: Books, p: nat, now: int, soon: set<PeriodKey>)
    ensures var b' := ReversePayment(b, p, now, soon);
            if p < |b.payments| && b.payments[p].reverses == None &&
               (forall q :: 0 <= q < |b.payments| ==> b.payments[q].reverses != Some(p)) &&
               (forall j :: 0 <= j < |b.ledger| ==> b.ledger[j].reverses != Some(b.payments[p].entry))
            then
              var was := b.payments[p];
              b'.payments == b.payments + [Payment(was.courier, was.amount, was.parts, Some(p), |b.ledger|)] &&
              b'.ledger == b.ledger + [Entry(was.courier, None, REVERSAL, was.amount, now, Some(was.entry))] &&
              b'.lines == b.lines && RefreshesOnly(b, b', was.parts.Keys)
            else b' == b
  {}

  /** An adjustment is booked exactly when its period exists and is its courier's, its sign is right, and a reversal
      negates an entry of the courier that none takes back yet; as one entry with one line. */
  lemma AdjustmentWrites(b: Books, e: Entry, key: PeriodKey, now: int, soon: set<PeriodKey>)
    ensures var b' := Adjust(b, e, key, now, soon);
            if key in b.periods && e.courier == key.courier &&
               (match e.kind
                case ADJUSTMENT_DEBIT => e.amount > 0 && e.reverses == None
                case ADJUSTMENT_CREDIT => e.amount < 0 && e.reverses == None
                case WAIVER => e.amount < 0 && e.reverses == None
                case REVERSAL =>
                  e.amount != 0 && e.reverses.Some? && e.reverses.value < |b.ledger| &&
                  b.ledger[e.reverses.value].courier == e.courier &&
                  e.amount + b.ledger[e.reverses.value].amount == 0 &&
                  (forall j :: 0 <= j < |b.ledger| ==> b.ledger[j].reverses != e.reverses)
                case _ => false)
            then
              b'.ledger == b.ledger + [e] && b'.lines == b.lines[|b.ledger| := Line(key, e.amount)] &&
              b'.payments == b.payments && RefreshesOnly(b, b', {key})
            else b' == b
  {}

  /** The status a refresh gives a closed period. */
  lemma StatusAfterRefresh(t: Totals, dueAt: int, now: int, soon: bool)
    requires t.remaining >= 0 && t.payments >= 0 && t.waived >= 0
    ensures RefreshedStatus(true, t, dueAt, now, soon) == OPEN
    ensures var status := RefreshedStatus(false, t, dueAt, now, soon);
            (status in {PAID, WAIVED} <==> t.remaining == 0) &&
            (status == WAIVED <==> t.remaining == 0 && t.payments == 0 && t.waived > 0) &&
            (status == OVERDUE <==> t.remaining > 0 && dueAt < now) &&
            (status == PARTIALLY_PAID <==> t.remaining > 0 && now <= dueAt && t.payments > 0) &&
            (status == ADJUSTED <==>
              t.remaining > 0 && now <= dueAt && t.payments == 0 && (t.adjustments != 0 || t.waived > 0)) &&
            (status == DUE_SOON <==>
              t.remaining > 0 && now <= dueAt && t.payments == 0 && t.adjustments == 0 && t.waived == 0 && soon) &&
            status !in {OPEN, CLOSED}
  {}

  /** A refresh gives exactly that status to the periods it brings up to date. */
  lemma RefreshWrites(b: Books, keys: set<PeriodKey>, now: int, soon: set<PeriodKey>)
    ensures var b' := Refresh(b, keys, now, soon);
            RefreshesOnly(b, b', keys) && b' == b.(periods := b'.periods) &&
            forall k :: k in b.periods && k in keys ==>
              b'.periods[k].status
              == RefreshedStatus(b.periods[k].status == OPEN, b'.periods[k].totals, b.periods[k].dueAt, now, k in soon)
  {}

  lemma RecomputedAfterPayment(b: Books, p: Payment, e: Entry, key: PeriodKey)
    requires RowsSound(b) && p.reverses == None && key in p.parts
    ensures var t, u := Recomputed(b.ledger, b.lines, b.payments, key),
                        Recomputed(b.ledger + [e], b.lines, b.payments + [p], key);
            u.payments == t.payments + p.parts[key] && u.remaining == AtLeastZero(Balance(t) - p.parts[key])
  {
    AppendUnlined(b.ledger, b.lines, e, key, COMMISSION_KINDS);
    AppendUnlined(b.ledger, b.lines, e, key, ADJUSTMENT_KINDS);
    AppendUnlined(b.ledger, b.lines, e, key, WAIVER_KINDS);
    LivePaymentCounts(b.payments, p, key);
  }

  /** A payment lowers what each period owes by its part. */
  lemma PaymentReduces(
    b: Books, courier: string, amount: int, paidAt: int, owing: seq<PeriodKey>, now: int, soon: set<PeriodKey>,
    key: PeriodKey)
    requires RowsSound(b) && Projected(b) && MayPay(b, courier, amount, owing) && key in b.periods
    ensures var b' := RecordPayment(b, courier, amount, paidAt, owing, now, soon);
            var part := Part(Allocate(owing, Owed(b.periods), amount))(key);
            key in b'.periods && b'.periods[key].totals.remaining == b.periods[key].totals.remaining - part &&
            b'.periods[key].totals.payments == b.periods[key].totals.payments + part
  {
    PartsWithinOwed(b, courier, amount, owing);
    var p, e := RecordedPayment(b, courier, amount, paidAt, owing, now, soon);
    ReducedRow(b, p, e, now, soon, key);
  }

  lemma ReducedRow(b: Books, p: Payment, e: Entry, now: int, soon: set<PeriodKey>, key: PeriodKey)
    requires RowsSound(b) && Projected(b) && key in b.periods && p.reverses == None
    requires key in p.parts ==> 0 < p.parts[key] <= b.periods[key].totals.remaining
    ensures var b', part := Refresh(WithPayment(b, p, e), p.parts.Keys, now, soon), Part(p.parts)(key);
            key in b'.periods && b'.periods[key].totals.remaining == b.periods[key].totals.remaining - part &&
            b'.periods[key].totals.payments == b.periods[key].totals.payments + part
  {
    assert b.periods[key].totals == Recomputed(b.ledger, b.lines, b.payments, key);
    if key in p.parts {
      RecomputedAfterPayment(b, p, e, key);
    }
  }

  lemma LivePaymentCounts(payments: seq<Payment>, p: Payment, key: PeriodKey)
    requires p.reverses == None && key in p.parts
    requires forall q :: 0 <= q < |payments| && payments[q].reverses.Some? ==> payments[q].reverses.value < |payments|
    ensures Paid(payments + [p], key) == Paid(payments, key) + p.parts[key]
  {
    var all := payments + [p];
    forall q: nat | q <= |payments| ensures Reversed(all, q) <==> Reversed(payments, q) {
      if Reversed(payments, q) {
        var r :| 0 <= r < |payments| && payments[r].reverses == Some(q);
        assert all[r].reverses == Some(q);
      }
    }
    assert !Reversed(payments, |payments|);
    Congruent(|payments|, PaidShare(payments, key), PaidShare(all, key));
  }
}
