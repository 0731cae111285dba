/** The finance jobs as the worker runs them: loops over candidate rows, one transaction each, with
    whatever other services commit in between. */
module FinanceWorker {
  import opened Options
  import opened WeeklyWindows
  import opened FinanceBooks
  import opened SettlementClock
  import opened Jobs

  class FinanceDatabase {
    var orders: seq<Order>
    var ledger: seq<Entry>
    var periods: map<PeriodKey, Period>
    var lines: map<nat, Line>
    var payments: seq<Payment>
    var completedOrders: map<string, nat>

    constructor ()
      ensures Tables() == EMPTY
    {
      orders, ledger, periods, lines, payments, completedOrders := [], [], map[], map[], [], map[];
    }

    function Tables(): Books
      reads this
    {
      Books(orders, ledger, periods, lines, payments, completedOrders)
    }

    /** The upsert of the settlement period: an existing row's running totals go up. */
    method UpsertedPeriod(key: PeriodKey, dueAt: int, amount: int) returns (period: Period)
      ensures period == Incremented(Tables(), key, dueAt, amount)
    {
      if key !in periods {
        return Period(dueAt, Totals(amount, 0, 0, 0, amount), OPEN, 1, None);
      }
      var found := periods[key];
      var totals := found.totals.(commission := found.totals.commission + amount,
                                  remaining := found.totals.remaining + amount);
      return found.(totals := totals, version := found.version + 1);
    }

    /** The writes of a completion: order, ledger entry, period, line and the courier's counter. */
    method WriteCompletion(id: nat, entry: Entry, key: PeriodKey, period: Period, now: int)
      requires id < |orders|
      modifies this
      ensures Tables() == Completed(old(Tables()), id, entry, key, period, now)
    {
      var order := orders[id];
      orders := orders[id := order.(status := COMPLETED, finalizedAt := Some(now), version := order.version + 1)];
      lines := lines[|ledger| := Line(key, entry.amount)];
      ledger := ledger + [entry];
      periods := periods[key := period];
      var count := if entry.courier in completedOrders then completedOrders[entry.courier] else 0;
      completedOrders := completedOrders[entry.courier := count + 1];
    }

    /** One transaction of the completion job, under the lock on the order's row.  A failure rolls back,
        so nothing is written before the settings row and the constraints have been checked. */
    method CompleteOne(id: nat, now: nat, grace: Option<int>) returns (outcome: Outcome)
      modifies this
      ensures outcome == CompletionOutcome(old(Tables()), id, now, grace)
      ensures Tables() == CompleteOrder(old(Tables()), id, now, grace)
      ensures outcome == Skipped <==>
                id >= |old(orders)| || old(orders)[id].status != DELIVERED || old(orders)[id].finalizedAt.Some? ||
                old(orders)[id].hasDispute || old(orders)[id].courier == None ||
                old(orders)[id].disputeDeadline == None || old(orders)[id].disputeDeadline.value > now
      ensures outcome == Done ==>
                orders == old(orders)[id := old(orders)[id].(status := COMPLETED, finalizedAt := Some(now),
                                                             version := old(orders)[id].version + 1)] &&
                ledger == old(ledger) + [Entry(old(orders)[id].courier.value, Some(id), COMMISSION_DUE,
                                               old(orders)[id].commission, now, None)]
      ensures outcome != Done ==> Tables() == old(Tables())
    {
      if id >= |orders| {
        return Skipped;
      }
      var order := orders[id];
      if order.status != DELIVERED || order.finalizedAt.Some? || order.disputeDeadline == None
         || order.disputeDeadline.value > now || order.hasDispute || order.courier == None
      {
        return Skipped;
      }
      if grace == None || order.commission < 0 {
        return Failed;
      }
      var bounds := WeeklyBounds(now, grace.value);
      var key := PeriodKey(order.courier.value, bounds.periodStart, bounds.periodEnd);
      var period := UpsertedPeriod(key, bounds.dueAt, order.commission);
      if !TotalsAllowed(period.totals) {
        return Failed;
      }
      var entry := Entry(order.courier.value, Some(id), COMMISSION_DUE, order.commission, now, None);
      WriteCompletion(id, entry, key, period, now);
      return Done;
    }

    /** The writes of a closing: missing lines first, then the totals recomputed over all lines. */
    method WriteClosing(key: PeriodKey, now: nat)
      requires MayClose(Tables(), key, now)
      modifies this`lines, this`periods
      ensures Tables() == CloseSettlement(old(Tables()), key, now)
    {
      lines := Backfilled(Tables(), key);
      var totals := Recomputed(ledger, lines, payments, key);
      var period := periods[key];
      periods := periods[key := period.(
        totals := totals, status := ClosingStatus(totals.remaining, period.dueAt, now),
        closedAt := Some(now), version := period.version + 1)];
    }

    /** One transaction of the closing job, under the lock on the period's row. */
    method CloseOne(key: PeriodKey, now: nat) returns (didClose: bool)
      modifies this
      ensures didClose <==> MayClose(old(Tables()), key, now)
      ensures Tables() == CloseSettlement(old(Tables()), key, now)
      ensures didClose <==> key in old(periods) && old(periods)[key].status == OPEN && key.end <= now
      ensures didClose ==> periods[key].closedAt == Some(now) && periods[key].version == old(periods)[key].version + 1
      ensures !didClose ==> Tables() == old(Tables())
    {
      if key !in periods || periods[key].status != OPEN || key.end > now {
        return false;
      }
      WriteClosing(key, now);
      return true;
    }

    /** What other services and other workers commit between two transactions of a job. */
    method Interfere(steps: seq<Step>)
      modifies this
      ensures Tables() == Run(old(Tables()), steps)
    {
      var after := Run(Tables(), steps);
      orders, ledger, periods, lines, payments, completedOrders :=
        after.orders, after.ledger, after.periods, after.lines, after.payments, after.completedOrders;
    }

    /** A candidate's turn: others commit first. */
    method CompleteNext(id: nat, now: nat, grace: Option<int>, others: seq<Step>) returns (outcome: Outcome)
      modifies this
      ensures outcome == CompletionOutcome(Run(old(Tables()), others), id, now, grace)
      ensures Tables() == CompleteOrder(Run(old(Tables()), others), id, now, grace)
    {
      Interfere(others);
      outcome := CompleteOne(id, now, grace);
    }

    /** The completion job.  The candidates may be stale or repeated; before each transaction anything
        may be committed by others, a new settings row included.  The result is a run in which every
        candidate looked at is one step; the count is the number of those that completed an order, and
        a failing transaction ends the job. */
    method CompleteDeliveredOrders(
      candidates: seq<nat>, now: nat, graces: seq<Option<int>>, between: seq<seq<Step>>)
      returns (completedCount: nat, failed: bool, n: nat)
      requires |between| == |candidates| == |graces|
      modifies this
      ensures Processed(old(Tables()), Tables(), Completions(candidates, now, graces), between, n, completedCount)
      ensures failed <==> EndsFailed(old(Tables()), Completions(candidates, now, graces), between, n)
      ensures failed || n == |candidates|
    {
      ghost var start, work := Tables(), Completions(candidates, now, graces);
      completedCount, failed, n := 0, false, 0;
      while n < |candidates| && !failed
        invariant n <= |candidates|
        invariant Processed(start, Tables(), work, between, n, completedCount)
        invariant failed <==> EndsFailed(start, work, between, n)
      {
        ghost var before := Tables();
        var outcome := CompleteNext(candidates[n], now, graces[n], between[n]);
        CompletionProcessed(start, before, Tables(), candidates, now, graces, between, n, completedCount, outcome);
        if outcome == Done {
          completedCount := completedCount + 1;
        }
        failed := outcome == Failed;
        n := n + 1;
      }
    }

    /** The closing job, likewise. */
    method CloseEligibleSettlements(candidates: seq<PeriodKey>, now: nat, between: seq<seq<Step>>)
      returns (closed: nat)
      requires |between| == |candidates|
      modifies this
      ensures Processed(old(Tables()), Tables(), Closings(candidates, now), between, |candidates|, closed)
    {
      ghost var start, work := Tables(), Closings(candidates, now);
      closed := 0;
      for i := 0 to |candidates|
        invariant Processed(start, Tables(), work, between, i, closed)
      {
        ghost var before := Tables();
        Interfere(between[i]);
        ghost var seen := Tables();
        var didClose := CloseOne(candidates[i], now);
        ClosingProcessed(start, before, seen, Tables(), work, between, i, closed);
        if didClose {
          closed := closed + 1;
        }
      }
    }

    /** The overdue job: one statement over all periods.  It marks the eligible rows, each with its next version and
        otherwise as it was, and no others; the count is of the rows it has changed. */
    method MarkOverdueSettlements(now: nat) returns (count: nat)
      modifies this`periods
      ensures Tables() == MarkOverdue(old(Tables()), now)
      ensures periods.Keys == old(periods).Keys
      ensures forall k :: k in periods ==>
                var p := old(periods)[k];
                periods[k] ==
                  if p.closedAt.Some? && p.totals.remaining > 0 && p.dueAt < now &&
                     p.status in {CLOSED, NOT_DUE, DUE_SOON, PARTIALLY_PAID, ADJUSTED}
                  then Period(p.dueAt, p.totals, OVERDUE, p.version + 1, p.closedAt) else p
      ensures count == |set k | k in old(periods) && periods[k] != old(periods)[k]|
    {
      var matching := set k | k in periods && BecomesOverdue(periods[k], now);
      periods := map k | k in periods ::
        if k in matching then periods[k].(status := OVERDUE, version := periods[k].version + 1) else periods[k];
      assert matching == set k | k in old(periods) && periods[k] != old(periods)[k];
      return |matching|;
    }
  }

  // ---------------------------------------------------------------- a job as a run

  function Completions(candidates: seq<nat>, now: nat, graces: seq<Option<int>>): seq<Step>
    requires |candidates| == |graces|
  {
    seq(|candidates|, i requires 0 <= i < |candidates| => Complete(candidates[i], now, graces[i]))
  }

  function Closings(candidates: seq<PeriodKey>, now: nat): seq<Step> {
    seq(|candidates|, i requires 0 <= i < |candidates| => Close(candidates[i], now))
  }

  function OutcomeOf(b: Books, s: Step): Outcome {
    match s
    case Complete(id, now, grace) => CompletionOutcome(b, id, now, grace)
    case Close(key, now) => if MayClose(b, key, now) then Done else Skipped
    case _ => Done
  }

  /** The state in which the job looks at candidate i. */
  function SeenAt(b: Books, work: seq<Step>, between: seq<seq<Step>>, i: nat): Books
    requires i < |work| == |between|
  {
    Run(Run(b, JobSteps(work, between, i)), between[i])
  }

  function OutcomeAt(b: Books, work: seq<Step>, between: seq<seq<Step>>, i: nat): Outcome
    requires i < |work| == |between|
  {
    OutcomeOf(SeenAt(b, work, between, i), work[i])
  }

  /** How many of the first n candidates the job itself completed or closed. */
  function CountDone(b: Books, work: seq<Step>, between: seq<seq<Step>>, n: nat): nat
    requires n <= |work| == |between|
  {
    if n == 0 then 0
    else CountDone(b, work, between, n - 1) + (if OutcomeAt(b, work, between, n - 1) == Done then 1 else 0)
  }

  /** The n-th candidate's transaction failed. */
  predicate EndsFailed(b: Books, work: seq<Step>, between: seq<seq<Step>>, n: nat) {
    0 < n <= |work| == |between| && OutcomeAt(b, work, between, n - 1) == Failed
  }

  ghost predicate Processed(before: Books, after: Books, work: seq<Step>, between: seq<seq<Step>>, n: nat, count: nat) {
    n <= |work| == |between| &&
    after == Run(before, JobSteps(work, between, n)) &&
    count == CountDone(before, work, between, n)
  }

  lemma ExtendJob(b: Books, work: seq<Step>, between: seq<seq<Step>>, n: nat)
    requires n < |work| == |between|
    ensures Run(b, JobSteps(work, between, n + 1)) == Apply(SeenAt(b, work, between, n), work[n])
  {
    var done := JobSteps(work, between, n);
    assert JobSteps(work, between, n + 1) == done + (between[n] + [work[n]]);
    RunConcat(b, done, between[n] + [work[n]]);
    RunConcat(Run(b, done), between[n], [work[n]]);
  }

  lemma {:induction false} CompletionProcessed(
    start: Books, before: Books, after: Books, candidates: seq<nat>, now: nat, graces: seq<Option<int>>,
    between: seq<seq<Step>>, n: nat, count: nat, outcome: Outcome)
    requires n < |candidates| == |graces| == |between|
    requires Processed(start, before, Completions(candidates, now, graces), between, n, count)
    requires outcome == CompletionOutcome(Run(before, between[n]), candidates[n], now, graces[n])
    requires after == CompleteOrder(Run(before, between[n]), candidates[n], now, graces[n])
    ensures var work := Completions(candidates, now, graces);
            Processed(start, after, work, between, n + 1, if outcome == Done then count + 1 else count) &&
            (outcome == Failed <==> EndsFailed(start, work, between, n + 1))
  {
    var work := Completions(candidates, now, graces);
    ExtendJob(start, work, between, n);
    assert SeenAt(start, work, between, n) == Run(before, between[n]);
  }

  lemma ClosingProcessed(
    start: Books, before: Books, seen: Books, after: Books, work: seq<Step>, between: seq<seq<Step>>, n: nat,
    count: nat)
    requires Processed(start, before, work, between, n, count) && n < |work| && work[n].Close?
    requires seen == Run(before, between[n]) && after == CloseSettlement(seen, work[n].key, work[n].now)
    ensures var didClose := MayClose(seen, work[n].key, work[n].now);
            Processed(start, after, work, between, n + 1, if didClose then count + 1 else count)
  {
    ExtendJob(start, work, between, n);
  }

  // ---------------------------------------------------------------- what the counts count

  function FinalizedOrders(b: Books): set<nat> {
    set i | 0 <= i < |b.orders| && b.orders[i].finalizedAt.Some?
  }

  function ClosedPeriods(b: Books): set<PeriodKey> {
    set k | k in b.periods && b.periods[k].status != OPEN
  }

  function FinalizedCount(b: Books): int { |FinalizedOrders(b)| }

  function ClosedCount(b: Books): int { |ClosedPeriods(b)| }

  /** By how much the job's own transactions have raised a measure. */
  function OwnGrowth(measure: Books -> int, b: Books, work: seq<Step>, between: seq<seq<Step>>, n: nat): int
    requires n <= |work| == |between|
  {
    if n == 0 then 0
    else
      var seen := SeenAt(b, work, between, n - 1);
      OwnGrowth(measure, b, work, between, n - 1) + measure(Apply(seen, work[n - 1])) - measure(seen)
  }

  lemma CompletionGrowth(b: Books, s: Step)
    requires s.Complete?
    ensures FinalizedCount(Apply(b, s)) - FinalizedCount(b) == if OutcomeOf(b, s) == Done then 1 else 0
  {
    if OutcomeOf(b, s) == Done {
      CompletionFinalizesOne(b, s);
      OneMoreFinal(b, Apply(b, s), s.id);
    }
  }

  lemma OneMoreFinal(b: Books, b': Books, id: nat)
    requires |b'.orders| == |b.orders| && id < |b.orders| && b.orders[id].finalizedAt == None
    requires b'.orders[id].finalizedAt.Some?
    requires forall i :: 0 <= i < |b.orders| && i != id ==> b'.orders[i] == b.orders[i]
    ensures FinalizedCount(b') == FinalizedCount(b) + 1
  {
    assert FinalizedOrders(b') == FinalizedOrders(b) + {id};
  }

  lemma CompletionFinalizesOne(b: Books, s: Step)
    requires s.Complete? && OutcomeOf(b, s) == Done
    ensures var b' := Apply(b, s);
            |b'.orders| == |b.orders| && s.id < |b.orders| && b.orders[s.id].finalizedAt == None &&
            b'.orders[s.id].finalizedAt.Some? &&
            forall i :: 0 <= i < |b.orders| && i != s.id ==> b'.orders[i] == b.orders[i]
  {}

  lemma ClosingGrowth(b: Books, s: Step)
    requires s.Close?
    ensures ClosedCount(Apply(b, s)) - ClosedCount(b) == if OutcomeOf(b, s) == Done then 1 else 0
  {
    if OutcomeOf(b, s) == Done {
      assert ClosedPeriods(Apply(b, s)) == ClosedPeriods(b) + {s.key};
    }
  }

  /** The job's transaction for candidate i raises the measure by one if it is done, and otherwise leaves it. */
  ghost predicate Counts(measure: Books -> int, b: Books, work: seq<Step>, between: seq<seq<Step>>, i: nat) {
    i < |work| == |between| &&
    measure(Apply(SeenAt(b, work, between, i), work[i])) - measure(SeenAt(b, work, between, i))
    == if OutcomeAt(b, work, between, i) == Done then 1 else 0
  }

  lemma {:induction false} CountIsGrowth(
    measure: Books -> int, b: Books, work: seq<Step>, between: seq<seq<Step>>, n: nat)
    requires n <= |work| == |between| && forall i: nat :: i < n ==> Counts(measure, b, work, between, i)
    ensures CountDone(b, work, between, n) == OwnGrowth(measure, b, work, between, n)
  {
    if n > 0 {
      CountIsGrowth(measure, b, work, between, n - 1);
      assert Counts(measure, b, work, between, n - 1);
    }
  }

  /** The count of the completion job is the number of orders its own transactions made final. */
  lemma CompletionsAreCounted(b: Books, work: seq<Step>, between: seq<seq<Step>>, n: nat)
    requires n <= |work| == |between| && forall i :: 0 <= i < n ==> work[i].Complete?
    ensures CountDone(b, work, between, n) == OwnGrowth(FinalizedCount, b, work, between, n)
  {
    forall i: nat | i < n ensures Counts(FinalizedCount, b, work, between, i) {
      CompletionGrowth(SeenAt(b, work, between, i), work[i]);
    }
    CountIsGrowth(FinalizedCount, b, work, between, n);
  }

  /** That of the closing job is the number of periods its own transactions closed. */
  lemma ClosingsAreCounted(b: Books, work: seq<Step>, between: seq<seq<Step>>, n: nat)
    requires n <= |work| == |between| && forall i :: 0 <= i < n ==> work[i].Close?
    ensures CountDone(b, work, between, n) == OwnGrowth(ClosedCount, b, work, between, n)
  {
    forall i: nat | i < n ensures Counts(ClosedCount, b, work, between, i) {
      ClosingGrowth(SeenAt(b, work, between, i), work[i]);
    }
    CountIsGrowth(ClosedCount, b, work, between, n);
  }

  // ---------------------------------------------------------------- each order once

  predicate Finalized(b: Books, id: nat) {
    id < |b.orders| && b.orders[id].finalizedAt.Some?
  }

  lemma FinalizedStays(b: Books, s: Step, id: nat)
    requires Finalized(b, id)
    ensures Finalized(Apply(b, s), id)
  {}

  lemma {:induction false} FinalizedStaysOverRun(b: Books, steps: seq<Step>, id: nat)
    requires Finalized(b, id)
    ensures Finalized(Run(b, steps), id)
    decreases |steps|
  {
    if steps != [] {
      FinalizedStays(b, steps[0], id);
      FinalizedStaysOverRun(Apply(b, steps[0]), steps[1..], id);
    }
  }

  lemma CompletionFinalizes(b: Books, s: Step)
    requires s.Complete? && OutcomeOf(b, s) == Done
    ensures Finalized(Apply(b, s), s.id)
  {}

  lemma FinalizedIsSkipped(b: Books, s: Step)
    requires s.Complete? && Finalized(b, s.id)
    ensures OutcomeOf(b, s) == Skipped
  {}

  lemma StaysFinalized(b: Books, work: seq<Step>, between: seq<seq<Step>>, i: nat, j: nat, id: nat)
    requires i < j < |work| == |between| && Finalized(Run(b, JobSteps(work, between, i + 1)), id)
    ensures Finalized(SeenAt(b, work, between, j), id)
  {
    var upTo := JobSteps(work, between, i + 1);
    var tail := LaterSteps(work, between, i + 1, j);
    RunConcat(b, upTo, tail);
    FinalizedStaysOverRun(Run(b, upTo), tail, id);
    FinalizedStaysOverRun(Run(b, JobSteps(work, between, j)), between[j], id);
  }

  /** However stale the candidate list and whatever is committed in between, an order the job has
      completed is skipped when it comes up again. */
  lemma DuplicateIsSkipped(b: Books, work: seq<Step>, between: seq<seq<Step>>, i: nat, j: nat)
    requires i < j < |work| == |between| && work[i].Complete? && work[j].Complete? && work[i].id == work[j].id
    ensures OutcomeAt(b, work, between, i) == Done ==> OutcomeAt(b, work, between, j) == Skipped
  {
    if OutcomeAt(b, work, between, i) == Done {
      ExtendJob(b, work, between, i);
      CompletionFinalizes(SeenAt(b, work, between, i), work[i]);
      StaysFinalized(b, work, between, i, j, work[i].id);
      FinalizedIsSkipped(SeenAt(b, work, between, j), work[j]);
    }
  }

  // ---------------------------------------------------------------- candidates are dealt with

  lemma NewPeriodEndsLater(b: Books, s: Step, key: PeriodKey)
    requires key !in b.periods && key in Apply(b, s).periods
    ensures (s.Complete? || s.Finalize?) && s.now < key.end
  {
    match s
    case Complete(id, now, grace) => CompletionCreatesOne(b, id, now, grace, key);
    case Finalize(id, now, w, soon) =>
    case Close(k, now) =>
    case ApiClose(k, version, now, soon) =>
    case Overdue(now) =>
    case Pay(courier, amount, paidAt, owing, now, soon) =>
    case Reverse(p, now, soon) =>
    case AdjustBy(e, k, now, soon) =>
    case Change(id, order, now) =>
  }

  lemma CompletionCreatesOne(b: Books, id: nat, now: nat, grace: Option<int>, key: PeriodKey)
    requires key !in b.periods && key in CompleteOrder(b, id, now, grace).periods
    ensures now < key.end
  {
    if CompletionOutcome(b, id, now, grace) == Done {
      WindowHoldsNow(now, grace.value);
    }
  }

  lemma NotClosableStays(b: Books, s: Step, key: PeriodKey, now: int)
    requires !MayClose(b, key, now) && (s.Complete? || s.Finalize? ==> now <= s.now)
    ensures !MayClose(Apply(b, s), key, now)
  {
    if Closed(b, key) {
      ClosedStaysClosed(b, s, key);
    } else if key !in b.periods && key in Apply(b, s).periods {
      NewPeriodEndsLater(b, s, key);
    }
  }

  lemma {:induction false} NotClosableStaysOverRun(b: Books, steps: seq<Step>, key: PeriodKey, now: int)
    requires !MayClose(b, key, now) && forall s :: s in steps && (s.Complete? || s.Finalize?) ==> now <= s.now
    ensures !MayClose(Run(b, steps), key, now)
    decreases |steps|
  {
    if steps != [] {
      NotClosableStays(b, steps[0], key, now);
      NotClosableStaysOverRun(Apply(b, steps[0]), steps[1..], key, now);
    }
  }

  /** No clock of those who book commissions meanwhile is behind the job's. */
  ghost predicate BooksLater(between: seq<seq<Step>>, now: int) {
    forall k, s :: 0 <= k < |between| && s in between[k] && (s.Complete? || s.Finalize?) ==> now <= s.now
  }

  /** When the closing job ends, no candidate can still be closed at its instant, whatever was committed
      meanwhile. */
  lemma {:induction false} ClosingsAreDealtWith(
    b: Books, candidates: seq<PeriodKey>, now: nat, between: seq<seq<Step>>, i: nat)
    requires i < |candidates| == |between| && BooksLater(between, now)
    ensures !MayClose(Run(b, JobSteps(Closings(candidates, now), between, |candidates|)), candidates[i], now)
  {
    var work := Closings(candidates, now);
    ExtendJob(b, work, between, i);
    var upTo := JobSteps(work, between, i + 1);
    var tail := LaterSteps(work, between, i + 1, |candidates|);
    RunConcat(b, upTo, tail);
    NotClosableStaysOverRun(Run(b, upTo), tail, candidates[i], now);
  }

  /** The step does not bring the order, by a delivery or a settled dispute, into a state due at `now`. */
  predicate LeavesUndue(s: Step, id: nat, now: int) {
    s.Change? && s.id == id ==>
      !(s.order.status == DELIVERED && s.order.disputeDeadline.Some? && s.order.disputeDeadline.value <= now &&
        !s.order.hasDispute && s.order.courier.Some?)
  }

  lemma NotDueStays(b: Books, s: Step, id: nat, now: int)
    requires !MayComplete(b, id, now) && LeavesUndue(s, id, now)
    ensures !MayComplete(Apply(b, s), id, now)
  {
    match s
    case Complete(other, t, grace) =>
    case Finalize(other, t, w, soon) =>
    case Close(k, t) =>
    case ApiClose(k, version, t, soon) =>
    case Overdue(t) =>
    case Pay(courier, amount, paidAt, owing, t, soon) =>
    case Reverse(p, t, soon) =>
    case AdjustBy(e, k, t, soon) =>
    case Change(other, order, t) =>
  }

  ghost predicate AllLeaveUndue(steps: seq<Step>, id: nat, now: int) {
    forall s :: s in steps ==> LeavesUndue(s, id, now)
  }

  lemma {:induction false} NotDueStaysOverRun(b: Books, steps: seq<Step>, id: nat, now: int)
    requires !MayComplete(b, id, now) && AllLeaveUndue(steps, id, now)
    ensures !MayComplete(Run(b, steps), id, now)
    decreases |steps|
  {
    if steps != [] {
      NotDueStays(b, steps[0], id, now);
      NotDueStaysOverRun(Apply(b, steps[0]), steps[1..], id, now);
    }
  }

  lemma CompletionDealsWith(b: Books, s: Step)
    requires s.Complete? && OutcomeOf(b, s) != Failed
    ensures !MayComplete(Apply(b, s), s.id, s.now)
  {}

  ghost predicate NobodyMakesDue(between: seq<seq<Step>>, n: nat, id: nat, now: int)
    requires n <= |between|
  {
    forall k, s :: 0 <= k < n && s in between[k] ==> LeavesUndue(s, id, now)
  }

  lemma {:induction false} DealtWithAtItsTurn(b: Books, work: seq<Step>, between: seq<seq<Step>>, i: nat)
    requires i < |work| == |between| && work[i].Complete? && OutcomeAt(b, work, between, i) != Failed
    ensures !MayComplete(Run(b, JobSteps(work, between, i + 1)), work[i].id, work[i].now)
  {
    ExtendJob(b, work, between, i);
    CompletionDealsWith(SeenAt(b, work, between, i), work[i]);
  }

  lemma LaterStepsLeaveUndue(work: seq<Step>, between: seq<seq<Step>>, i: nat, n: nat, id: nat, now: int)
    returns (tail: seq<Step>)
    requires i <= n <= |work| == |between| && (forall s :: s in work ==> s.Complete?)
    requires NobodyMakesDue(between, n, id, now)
    ensures JobSteps(work, between, n) == JobSteps(work, between, i) + tail
    ensures AllLeaveUndue(tail, id, now)
  {
    tail := LaterSteps(work, between, i, n);
    forall s | s in tail ensures LeavesUndue(s, id, now) {
      if s !in work {
        var k :| 0 <= k < n && s in between[k];
      }
    }
  }

  lemma {:induction false} NotDueAtTheEnd(
    b: Books, work: seq<Step>, between: seq<seq<Step>>, i: nat, n: nat, id: nat, now: int)
    requires i <= n <= |work| == |between| && (forall s :: s in work ==> s.Complete?)
    requires NobodyMakesDue(between, n, id, now) && !MayComplete(Run(b, JobSteps(work, between, i)), id, now)
    ensures !MayComplete(Run(b, JobSteps(work, between, n)), id, now)
  {
    var tail := LaterStepsLeaveUndue(work, between, i, n, id, now);
    NotDueAfter(b, JobSteps(work, between, i), tail, id, now);
  }

  lemma {:induction false} StillDueHasFailed(b: Books, work: seq<Step>, between: seq<seq<Step>>, i: nat)
    requires i < |work| == |between| && work[i].Complete?
    requires MayComplete(Run(b, JobSteps(work, between, i + 1)), work[i].id, work[i].now)
    ensures OutcomeAt(b, work, between, i) == Failed
  {
    if OutcomeAt(b, work, between, i) != Failed {
      DealtWithAtItsTurn(b, work, between, i);
    }
  }

  lemma {:induction false} NotDueAfter(b: Books, upTo: seq<Step>, tail: seq<Step>, id: nat, now: int)
    requires !MayComplete(Run(b, upTo), id, now) && AllLeaveUndue(tail, id, now)
    ensures !MayComplete(Run(b, upTo + tail), id, now)
  {
    RunConcat(b, upTo, tail);
    NotDueStaysOverRun(Run(b, upTo), tail, id, now);
  }

  /** When the completion job ends after n candidates, one of them that is still due at its instant, and that
      nobody has made so meanwhile, is one whose transaction failed. */
  lemma {:induction false} CompletionsAreDealtWith(
    b: Books, candidates: seq<nat>, now: nat, graces: seq<Option<int>>, between: seq<seq<Step>>, n: nat, i: nat)
    requires i < n <= |candidates| == |graces| == |between|
    requires NobodyMakesDue(between, n, candidates[i], now)
    requires MayComplete(Run(b, JobSteps(Completions(candidates, now, graces), between, n)), candidates[i], now)
    ensures OutcomeAt(b, Completions(candidates, now, graces), between, i) == Failed
  {
    var work := Completions(candidates, now, graces);
    if !MayComplete(Run(b, JobSteps(work, between, i + 1)), candidates[i], now) {
      NotDueAtTheEnd(b, work, between, i + 1, n, candidates[i], now);
    }
    StillDueHasFailed(b, work, between, i);
  }
}
