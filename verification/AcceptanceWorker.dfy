/** The expiry job as the worker runs it, with whatever others commit between its transactions. */
module AcceptanceWorker {
  import opened Options
  import opened Sums
  import opened CourierSearch
  import opened SearchSafety
  import opened Jobs

  class SearchDatabase {
    var orders: seq<Order>
    var events: seq<Event>
    var notices: map<NoticeKey, bool>

    constructor ()
      ensures Tables() == EMPTY
    {
      orders, events, notices := [], [], map[];
    }

    function Tables(): Market
      reads this
    {
      Market(orders, events, notices)
    }

    /** One upsert per manager. */
    method NotifyManagers(id: nat, attempt: nat, users: seq<string>)
      modifies this`notices
      ensures notices == Notified(old(notices), id, attempt, users)
      ensures forall k :: k in notices <==>
                k in old(notices) || (k.order == id && k.attempt == attempt && k.user in users)
      ensures forall k :: k in notices ==> notices[k] == if k in old(notices) then old(notices)[k] else attempt >= 2
    {
      for i := 0 to |users|
        invariant notices == Notified(old(notices), id, attempt, users[..i])
      {
        assert users[..i + 1][..i] == users[..i];
        var key := NoticeKey(id, attempt, users[i]);
        if key !in notices {
          notices := notices[key := attempt >= MAXIMUM_ATTEMPTS];
        }
      }
      assert users[..|users|] == users;
      forall k { NotifiedAdds(old(notices), id, attempt, users, k); }
    }

    /** One transaction of the job, under the lock on the order's row. */
    method ExpireOne(id: nat, now: int) returns (expired: bool)
      modifies this
      ensures expired <==> Due(old(Tables()), id, now)
      ensures Tables() == Expire(old(Tables()), id, now)
      ensures expired <==>
                id < |old(orders)| && old(orders)[id].status == SEARCHING_COURIER && old(orders)[id].courier == None &&
                old(orders)[id].acceptanceExpiresAt.Some? && old(orders)[id].acceptanceExpiresAt.value <= now
      ensures expired ==>
                var o := old(orders)[id];
                var status := if o.dispatchAttemptCount >= 2 then NO_COURIER_AVAILABLE_FINAL else NO_COURIER_AVAILABLE;
                orders == old(orders)[id := o.(status := status, acceptanceExpiresAt := None,
                                               version := o.version + 1)] &&
                events == old(events) + [Event(id, COURIER_SEARCH_EXPIRED, SEARCHING_COURIER, status)]
      ensures !expired ==> Tables() == old(Tables())
    {
      if id >= |orders| {
        return false;
      }
      var order := orders[id];
      if order.status != SEARCHING_COURIER || order.courier != None || order.acceptanceExpiresAt == None
         || order.acceptanceExpiresAt.value > now
      {
        return false;
      }
      var attempt := if order.dispatchAttemptCount > 1 then order.dispatchAttemptCount else 1;
      var final := attempt >= MAXIMUM_ATTEMPTS;
      var status := if final then NO_COURIER_AVAILABLE_FINAL else NO_COURIER_AVAILABLE;
      orders := orders[id := order.(status := status, acceptanceExpiresAt := None, version := order.version + 1)];
      events := events + [Event(id, COURIER_SEARCH_EXPIRED, SEARCHING_COURIER, status)];
      NotifyManagers(id, attempt, order.managers);
      return true;
    }

    /** What others commit between two transactions of the job. */
    method Interfere(steps: seq<Step>)
      modifies this
      ensures Tables() == Run(old(Tables()), steps)
    {
      var after := Run(Tables(), steps);
      orders, events, notices := after.orders, after.events, after.notices;
    }

    /** The job.  The candidates may be stale or repeated; the count is of the candidates whose own
        transaction expired them. */
    method ExpireCourierAcceptanceWindows(candidates: seq<nat>, now: int, between: seq<seq<Step>>)
      returns (expiredCount: nat)
      requires |between| == |candidates|
      modifies this
      ensures Tables() == Run(old(Tables()), JobSteps(Expiries(candidates, now), between, |candidates|))
      ensures expiredCount == CountExpired(old(Tables()), candidates, now, between, |candidates|)
    {
      ghost var start, work := Tables(), Expiries(candidates, now);
      expiredCount := 0;
      for i := 0 to |candidates|
        invariant Tables() == Run(start, JobSteps(work, between, i))
        invariant expiredCount == CountExpired(start, candidates, now, between, i)
      {
        Interfere(between[i]);
        var expired := ExpireOne(candidates[i], now);
        ExtendJob(start, candidates, now, between, i);
        if expired {
          expiredCount := expiredCount + 1;
        }
      }
    }
  }

  // ---------------------------------------------------------------- the job as a run

  function Expiries(candidates: seq<nat>, now: int): seq<Step> {
    seq(|candidates|, i requires 0 <= i < |candidates| => Expiring(candidates[i], now))
  }

  /** The state in which the job looks at candidate i. */
  function SeenAt(m: Market, candidates: seq<nat>, now: int, between: seq<seq<Step>>, i: nat): Market
    requires i < |candidates| == |between|
  {
    Run(Run(m, JobSteps(Expiries(candidates, now), between, i)), between[i])
  }

  /** How many of the first n candidates were still due when their turn came. */
  function CountExpired(m: Market, candidates: seq<nat>, now: int, between: seq<seq<Step>>, n: nat): nat
    requires n <= |candidates| == |between|
  {
    if n == 0 then 0
    else CountExpired(m, candidates, now, between, n - 1)
         + (if Due(SeenAt(m, candidates, now, between, n - 1), candidates[n - 1], now) then 1 else 0)
  }

  lemma ExtendJob(m: Market, candidates: seq<nat>, now: int, between: seq<seq<Step>>, n: nat)
    requires n < |candidates| == |between|
    ensures Run(m, JobSteps(Expiries(candidates, now), between, n + 1))
         == Expire(SeenAt(m, candidates, now, between, n), candidates[n], now)
  {
    var work := Expiries(candidates, now);
    var done, last := JobSteps(work, between, n), [work[n]];
    assert JobSteps(work, between, n + 1) == done + (between[n] + last);
    RunConcat(m, done, between[n] + last);
    RunConcat(Run(m, done), between[n], last);
    assert Run(SeenAt(m, candidates, now, between, n), last)
        == Run(Apply(SeenAt(m, candidates, now, between, n), work[n]), []);
  }

  // ---------------------------------------------------------------- what the count counts

  function VersionTotal(m: Market): int {
    SumBy(m.orders, (o: Order) => o.version)
  }

  function ExpiryTotal(m: Market): int {
    SumBy(m.events, (e: Event) => if e.kind == COURIER_SEARCH_EXPIRED then 1 else 0)
  }

  /** By how much the job's own transactions have raised a measure. */
  function OwnGrowth(
    measure: Market -> int, m: Market, candidates: seq<nat>, now: int, between: seq<seq<Step>>, n: nat): int
    requires n <= |candidates| == |between|
  {
    if n == 0 then 0
    else
      var seen := SeenAt(m, candidates, now, between, n - 1);
      OwnGrowth(measure, m, candidates, now, between, n - 1)
      + measure(Expire(seen, candidates[n - 1], now)) - measure(seen)
  }

  lemma {:induction false} VersionTotalAt(orders: seq<Order>, id: nat, o: Order)
    requires id < |orders|
    ensures SumBy(orders[id := o], (o: Order) => o.version)
         == SumBy(orders, (o: Order) => o.version) - orders[id].version + o.version
  {
    var version := (o: Order) => o.version;
    assert orders == orders[..id] + [orders[id]] + orders[id + 1..];
    assert orders[id := o] == orders[..id] + [o] + orders[id + 1..];
    Concat(orders[..id] + [orders[id]], orders[id + 1..], version);
    Concat(orders[..id] + [o], orders[id + 1..], version);
    Append(orders[..id], orders[id], version);
    Append(orders[..id], o, version);
  }

  lemma ExpiryGrowth(m: Market, id: nat, now: int)
    ensures var grown := if Due(m, id, now) then 1 else 0;
            VersionTotal(Expire(m, id, now)) == VersionTotal(m) + grown &&
            ExpiryTotal(Expire(m, id, now)) == ExpiryTotal(m) + grown
  {
    if Due(m, id, now) {
      var m' := Expire(m, id, now);
      VersionTotalAt(m.orders, id, m'.orders[id]);
      Append(m.events, m'.events[|m.events|], (e: Event) => if e.kind == COURIER_SEARCH_EXPIRED then 1 else 0);
    }
  }

  /** The count returned is the number of version increments, and of COURIER_SEARCH_EXPIRED events, that
      the job's own transactions made. */
  lemma {:induction false} CountIsGrowth(m: Market, candidates: seq<nat>, now: int, between: seq<seq<Step>>, n: nat)
    requires n <= |candidates| == |between|
    ensures CountExpired(m, candidates, now, between, n) == OwnGrowth(VersionTotal, m, candidates, now, between, n)
    ensures CountExpired(m, candidates, now, between, n) == OwnGrowth(ExpiryTotal, m, candidates, now, between, n)
  {
    if n > 0 {
      CountIsGrowth(m, candidates, now, between, n - 1);
      ExpiryGrowth(SeenAt(m, candidates, now, between, n - 1), candidates[n - 1], now);
    }
  }

  // ---------------------------------------------------------------- candidates are dealt with

  lemma NotDueStays(m: Market, s: Step, id: nat, now: int)
    requires !Due(m, id, now) && s.now >= now
    ensures !Due(Apply(m, s), id, now)
  {}

  lemma {:induction false} NotDueStaysOverRun(m: Market, steps: seq<Step>, id: nat, now: int)
    requires !Due(m, id, now) && forall s :: s in steps ==> s.now >= now
    ensures !Due(Run(m, steps), id, now)
    decreases |steps|
  {
    if steps != [] {
      NotDueStays(m, steps[0], id, now);
      NotDueStaysOverRun(Apply(m, steps[0]), steps[1..], id, now);
    }
  }

  /** When the job ends no candidate is still due at the job's instant, whatever others committed
      meanwhile, as long as their clocks are not behind the job's. */
  lemma CandidatesAreDealtWith(m: Market, candidates: seq<nat>, now: int, between: seq<seq<Step>>, i: nat)
    requires i < |candidates| == |between|
    requires forall k :: 0 <= k < |between| ==> forall s :: s in between[k] ==> s.now >= now
    ensures !Due(Run(m, JobSteps(Expiries(candidates, now), between, |candidates|)), candidates[i], now)
  {
    var work := Expiries(candidates, now);
    ExtendJob(m, candidates, now, between, i);
    var upTo := JobSteps(work, between, i + 1);
    var tail := LaterSteps(work, between, i + 1, |candidates|);
    forall s | s in tail ensures s.now >= now {
      if s !in work {
        var k :| 0 <= k < |between| && s in between[k];
      }
    }
    RunConcat(m, upTo, tail);
    NotDueStaysOverRun(Run(m, upTo), tail, candidates[i], now);
  }

  lemma OnlyOneLessDue(m: Market, c: nat, now: int, id: nat)
    ensures Due(Expire(m, c, now), id, now) <==> Due(m, id, now) && id != c
  {}

  predicate Undisturbed(between: seq<seq<Step>>) {
    forall k :: 0 <= k < |between| ==> between[k] == []
  }

  lemma SeenUndisturbed(m: Market, candidates: seq<nat>, now: int, between: seq<seq<Step>>, n: nat)
    requires n < |candidates| == |between| && Undisturbed(between)
    ensures SeenAt(m, candidates, now, between, n) == Run(m, JobSteps(Expiries(candidates, now), between, n))
  {
    assert between[n] == [];
  }

  /** Without interference nothing but the candidates looked at so far has stopped being due. */
  lemma {:induction false} UndisturbedJob(
    m: Market, candidates: seq<nat>, now: int, between: seq<seq<Step>>, n: nat, id: nat)
    requires n <= |candidates| == |between| && Undisturbed(between)
    ensures var after := Run(m, JobSteps(Expiries(candidates, now), between, n));
            Due(after, id, now) <==> Due(m, id, now) && id !in candidates[..n]
  {
    if n > 0 {
      UndisturbedJob(m, candidates, now, between, n - 1, id);
      ExtendJob(m, candidates, now, between, n - 1);
      SeenUndisturbed(m, candidates, now, between, n - 1);
      OnlyOneLessDue(SeenAt(m, candidates, now, between, n - 1), candidates[n - 1], now, id);
      assert candidates[..n] == candidates[..n - 1] + [candidates[n - 1]];
    }
  }

  function DueAmong(m: Market, candidates: seq<nat>, now: int): set<nat> {
    set id | id in candidates && Due(m, id, now)
  }

  lemma OneMoreDue(m: Market, candidates: seq<nat>, now: int, c: nat)
    ensures |DueAmong(m, candidates + [c], now)|
         == |DueAmong(m, candidates, now)| + (if Due(m, c, now) && c !in candidates then 1 else 0)
  {
    var before := DueAmong(m, candidates, now);
    assert DueAmong(m, candidates + [c], now) == if Due(m, c, now) then before + {c} else before;
  }

  /** ... and the count is the number of distinct candidates that were due. */
  lemma {:induction false} UndisturbedCount(m: Market, candidates: seq<nat>, now: int, between: seq<seq<Step>>, n: nat)
    requires n <= |candidates| == |between| && Undisturbed(between)
    ensures CountExpired(m, candidates, now, between, n) == |DueAmong(m, candidates[..n], now)|
  {
    if n == 0 {
      assert DueAmong(m, candidates[..n], now) == {};
    } else {
      UndisturbedCount(m, candidates, now, between, n - 1);
      UndisturbedJob(m, candidates, now, between, n - 1, candidates[n - 1]);
      SeenUndisturbed(m, candidates, now, between, n - 1);
      OneMoreDue(m, candidates[..n - 1], now, candidates[n - 1]);
      assert candidates[..n] == candidates[..n - 1] + [candidates[n - 1]];
    }
  }
}
