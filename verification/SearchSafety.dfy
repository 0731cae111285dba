/** What holds of courier searches over whole runs, whoever accepts, retries, cancels or expires them in
    whatever order. */
module SearchSafety {
  import opened Options
  import opened CourierSearch

  // ---------------------------------------------------------------- expiries and attempts

  /** An order expires at most twice, the second time for good, and is retried at most once. */
  lemma AtMostTwoExpiries(steps: seq<Step>, id: nat)
    requires id < |Run(EMPTY, steps).orders|
    ensures var m := Run(EMPTY, steps);
            var o, t := m.orders[id], TallyOf(m.events, id);
            t.expired <= MAXIMUM_ATTEMPTS && t.restarted <= 1 &&
            (o.status == NO_COURIER_AVAILABLE ==> t.expired == 1) &&
            (o.status == NO_COURIER_AVAILABLE_FINAL ==> t.expired == 2) &&
            (t.expired == 2 ==> o.status in {NO_COURIER_AVAILABLE_FINAL, CANCELLED})
  {
    RunIsSound(EMPTY, steps);
    assert OrderSound(Run(EMPTY, steps), id);
  }

  /** Every search opened ends in exactly one of acceptance, expiry and cancellation, unless it is the
      one still under way; there are as many as attempts and courier cancellations. */
  lemma EverySearchEndsOnce(steps: seq<Step>, id: nat)
    requires id < |Run(EMPTY, steps).orders|
    ensures var m := Run(EMPTY, steps);
            var o, t := m.orders[id], TallyOf(m.events, id);
            Opened(t) == t.accepted + t.expired + t.abandoned + (if o.status == SEARCHING_COURIER then 1 else 0) &&
            Opened(t) == o.dispatchAttemptCount + t.reopened
  {
    RunIsSound(EMPTY, steps);
    assert OrderSound(Run(EMPTY, steps), id);
  }

  /** Folding an order's events gives its status, its attempt count and its version. */
  lemma LogTellsRow(steps: seq<Step>, id: nat)
    requires id < |Run(EMPTY, steps).orders|
    ensures var m := Run(EMPTY, steps);
            var o, t := m.orders[id], TallyOf(m.events, id);
            t.status == Some(o.status) && t.requested + t.restarted == o.dispatchAttemptCount && t.changes == o.version
  {
    RunIsSound(EMPTY, steps);
    assert OrderSound(Run(EMPTY, steps), id);
  }

  /** Attempts left, and whether the current one has not yet run out. */
  function Rank(o: Order): int {
    if o.status == CANCELLED then 0
    else 2 * (MAXIMUM_ATTEMPTS - o.dispatchAttemptCount)
         + (if o.status in {NO_COURIER_AVAILABLE, NO_COURIER_AVAILABLE_FINAL} then 0 else 1)
  }

  /** No step raises the rank, and every expiry and every retry lowers it. */
  lemma RankFalls(m: Market, s: Step, id: nat)
    requires Sound(m) && id < |m.orders|
    ensures 0 <= Rank(Apply(m, s).orders[id]) <= Rank(m.orders[id])
    ensures (s.Expiring? || s.Retrying?) && s.id == id && Apply(m, s) != m ==>
              Rank(Apply(m, s).orders[id]) < Rank(m.orders[id])
  {
    assert OrderSound(m, id);
    StepIsSound(m, s);
    assert OrderSound(Apply(m, s), id);
  }

  /** The only order of a market being searched for, in its first attempt. */
  ghost predicate Reopened(m: Market, n: nat, deadline: int) {
    m.orders == [Order(SEARCHING_COURIER, None, Some(deadline), 1, false, 1 + 2 * n, [])] &&
    TallyOf(m.events, 0).reopened == n && TallyOf(m.events, 0).expired == 0
  }

  lemma AcceptThenGiveBack(m: Market, n: nat, deadline: int) returns (steps: seq<Step>)
    requires Reopened(m, n, deadline)
    ensures Reopened(Run(m, steps), n + 1, deadline + ACCEPTANCE_WINDOW - 1)
  {
    var accept := Accepting(0, "courier", 1 + 2 * n, deadline - 1);
    var cancel := CourierCancelling(0, "courier", 2 + 2 * n, deadline - 1);
    var accepted := Apply(m, accept);
    steps := [accept, cancel];
    assert Run(m, steps) == Apply(accepted, cancel) by {
      assert steps[1..] == [cancel];
      assert Run(accepted, [cancel]) == Run(Apply(accepted, cancel), []);
    }
    TallyAppend(m.events, Event(0, COURIER_ACCEPTED, SEARCHING_COURIER, COURIER_ASSIGNED), 0);
    TallyAppend(accepted.events, Event(0, COURIER_CANCELLED, COURIER_ASSIGNED, SEARCHING_COURIER), 0);
  }

  /** A courier's cancellation is not counted as an attempt, so a search can go on without end and
      without ever expiring: n couriers in turn accept in the last millisecond and give the order back. */
  lemma {:induction false} ReopenedWithoutEnd(n: nat) returns (steps: seq<Step>)
    ensures Reopened(Run(EMPTY, steps), n, ACCEPTANCE_WINDOW + n * (ACCEPTANCE_WINDOW - 1))
  {
    if n == 0 {
      steps := [Publishing([], 0)];
      assert Run(EMPTY, steps) == Run(Publish(EMPTY, [], 0), []);
      TallyAppend([], Event(0, COURIER_SEARCH_REQUESTED, SEARCHING_COURIER, SEARCHING_COURIER), 0);
    } else {
      var before := ReopenedWithoutEnd(n - 1);
      var more := AcceptThenGiveBack(Run(EMPTY, before), n - 1, ACCEPTANCE_WINDOW + (n - 1) * (ACCEPTANCE_WINDOW - 1));
      RunConcat(EMPTY, before, more);
      steps := before + more;
    }
  }

  // ---------------------------------------------------------------- who wins a race

  /** The step opens the search for order id: a publication, an accepted retry, or an accepted
      cancellation by the courier. */
  predicate Opens(m: Market, s: Step, id: nat) {
    match s
    case Publishing(_, _) => id == |m.orders|
    case Retrying(i, version, _) => i == id && MayRetry(m, id, version)
    case CourierCancelling(i, courier, version, _) => i == id && MayCourierCancel(m, id, courier, version)
    case _ => false
  }

  /** A search can be accepted for five minutes from the moment it opens, and expires from then on. */
  lemma OpenFiveMinutes(m: Market, s: Step, id: nat, t: int)
    requires Opens(m, s, id)
    ensures var m' := Apply(m, s);
            id < |m'.orders| &&
            (MayAccept(m', id, m'.orders[id].version, t) <==> t < s.now + 300_000) &&
            (Due(m', id, t) <==> t >= s.now + 300_000)
  {}

  /** At any instant a search can be accepted, at its current version, exactly when it cannot expire. */
  lemma AcceptableOrDue(m: Market, id: nat, now: int)
    requires Sound(m) && id < |m.orders| && m.orders[id].status == SEARCHING_COURIER
    ensures MayAccept(m, id, m.orders[id].version, now) <==> !Due(m, id, now)
  {
    assert OrderSound(m, id);
  }

  /** The step is a request about order id made by someone who has seen version v of it. */
  predicate Bears(s: Step, id: nat, v: nat) {
    match s
    case Accepting(i, _, version, _) => i == id && version == v
    case Retrying(i, version, _) => i == id && version == v
    case CourierCancelling(i, _, version, _) => i == id && version == v
    case MerchantCancelling(i, version, _) => i == id && version == v
    case Proceeding(i, _, version, _, _) => i == id && version == v
    case _ => false
  }

  lemma VersionsRise(m: Market, s: Step, id: nat)
    requires id < |m.orders|
    ensures id < |Apply(m, s).orders| && Apply(m, s).orders[id].version >= m.orders[id].version
    ensures forall v: nat :: Bears(s, id, v) && Apply(m, s) != m ==>
              m.orders[id].version == v && Apply(m, s).orders[id].version == v + 1
  {}

  lemma {:induction false} VersionsRiseOverRun(m: Market, steps: seq<Step>, id: nat)
    requires id < |m.orders|
    ensures id < |Run(m, steps).orders| && Run(m, steps).orders[id].version >= m.orders[id].version
    decreases |steps|
  {
    if steps != [] {
      VersionsRise(m, steps[0], id);
      VersionsRiseOverRun(Apply(m, steps[0]), steps[1..], id);
    }
  }

  /** A request made on a version that has passed changes nothing, whatever happened meanwhile. */
  lemma StaleRequestFails(m: Market, between: seq<Step>, s: Step, id: nat, v: nat)
    requires id < |m.orders| && m.orders[id].version > v && Bears(s, id, v)
    ensures Apply(Run(m, between), s) == Run(m, between)
  {
    VersionsRiseOverRun(m, between, id);
    VersionsRise(Run(m, between), s, id);
  }

  /** Of two requests made on the same version of an order, at most one succeeds. */
  lemma OneRequestWins(m: Market, first: Step, between: seq<Step>, second: Step, id: nat, v: nat)
    requires id < |m.orders| && Bears(first, id, v) && Bears(second, id, v) && Apply(m, first) != m
    ensures var later := Run(Apply(m, first), between); Apply(later, second) == later
  {
    VersionsRise(m, first, id);
    StaleRequestFails(Apply(m, first), between, second, id, v);
  }

  /** A courier who saw the order before it expired can never accept it afterwards. */
  lemma LateAcceptIsRejected(m: Market, id: nat, now: int, between: seq<Step>, courier: string, later: int)
    requires Due(m, id, now)
    ensures var after := Run(Expire(m, id, now), between);
            Accept(after, id, courier, m.orders[id].version, later) == after
  {
    StaleRequestFails(Expire(m, id, now), between, Accepting(id, courier, m.orders[id].version, later),
                      id, m.orders[id].version);
  }

  /** An order with a courier keeps it: only that courier's own cancellation, or the merchant's before
      pickup, takes it away.  In particular it never expires. */
  lemma CourierKeepsOrder(m: Market, s: Step, id: nat)
    requires Sound(m) && id < |m.orders| && m.orders[id].courier.Some?
    ensures s.Expiring? && s.id == id ==> Apply(m, s) == m
    ensures Apply(m, s).orders[id].courier != m.orders[id].courier ==>
              m.orders[id].status in BEFORE_PICKUP &&
              ((s.CourierCancelling? && s.id == id && Some(s.courier) == m.orders[id].courier) ||
               (s.MerchantCancelling? && s.id == id))
  {
    assert OrderSound(m, id);
  }

  // ---------------------------------------------------------------- the published table

  ghost predicate FollowsTable(events: seq<Event>) {
    forall e :: e in events ==>
      (e.to in Transitions(e.from) <==> e.kind !in {COURIER_SEARCH_REQUESTED, COURIER_CANCELLED})
  }

  lemma StepFollowsTable(m: Market, s: Step)
    requires FollowsTable(m.events)
    ensures FollowsTable(Apply(m, s).events)
  {}

  /** Every recorded change is an edge of the published table, except that no cancellation by a courier
      is: the table has no edge back to a search from a held order. */
  lemma {:induction false} LogFollowsTable(m: Market, steps: seq<Step>)
    requires FollowsTable(m.events)
    ensures FollowsTable(Run(m, steps).events)
    decreases |steps|
  {
    if steps != [] {
      StepFollowsTable(m, steps[0]);
      LogFollowsTable(Apply(m, steps[0]), steps[1..]);
    }
  }

  // ---------------------------------------------------------------- notifications

  lemma {:induction false} NotifiedAdds(
    notices: map<NoticeKey, bool>, id: nat, attempt: nat, users: seq<string>, k: NoticeKey)
    ensures var told := Notified(notices, id, attempt, users);
            (k in told <==> k in notices || (k.order == id && k.attempt == attempt && k.user in users)) &&
            (k in told ==> told[k] == if k in notices then notices[k] else attempt >= MAXIMUM_ATTEMPTS)
  {
    if users != [] {
      var front, last := users[..|users| - 1], users[|users| - 1];
      NotifiedAdds(notices, id, attempt, front, k);
      assert k.user in users <==> k.user in front || k.user == last by {
        assert users == front + [last];
      }
    }
  }

  /** Notifications are about expiries that have happened, and say which were final. */
  ghost predicate NoticesSound(m: Market) {
    forall k :: k in m.notices ==>
      k.order < |m.orders| && 1 <= k.attempt <= TallyOf(m.events, k.order).expired &&
      (m.notices[k] <==> k.attempt == MAXIMUM_ATTEMPTS)
  }

  lemma ExpiryKeepsNotices(m: Market, id: nat, now: int)
    requires Sound(m) && NoticesSound(m)
    ensures NoticesSound(Expire(m, id, now))
  {
    if Due(m, id, now) {
      var o := m.orders[id];
      assert OrderSound(m, id);
      var e := Event(id, COURIER_SEARCH_EXPIRED, o.status, TimeoutStatus(o));
      forall k | k in Expire(m, id, now).notices
        ensures k.order < |m.orders| && 1 <= k.attempt <= TallyOf(m.events + [e], k.order).expired
        ensures Expire(m, id, now).notices[k] <==> k.attempt == MAXIMUM_ATTEMPTS
      {
        NotifiedAdds(m.notices, id, Attempt(o), o.managers, k);
        TallyAppend(m.events, e, k.order);
      }
    }
  }

  /** Every step but an expiry leaves the notifications alone and adds at most one event. */
  lemma OnlyExpiriesNotify(m: Market, s: Step)
    requires !s.Expiring?
    ensures var m' := Apply(m, s);
            m'.notices == m.notices && |m'.orders| >= |m.orders| &&
            (m'.events == m.events || (m'.events != [] && m'.events[..|m'.events| - 1] == m.events))
  {}

  lemma MoreEventsKeepNotices(m: Market, m': Market)
    requires NoticesSound(m) && m'.notices == m.notices && |m'.orders| >= |m.orders|
    requires m'.events == m.events || (m'.events != [] && m'.events[..|m'.events| - 1] == m.events)
    ensures NoticesSound(m')
  {
    if m'.events != m.events {
      var e := m'.events[|m.events|];
      assert m'.events == m.events + [e];
      forall k | k in m.notices ensures TallyOf(m'.events, k.order).expired >= TallyOf(m.events, k.order).expired {
        TallyAppend(m.events, e, k.order);
      }
    }
  }

  lemma StepKeepsNotices(m: Market, s: Step)
    requires Sound(m) && NoticesSound(m)
    ensures NoticesSound(Apply(m, s))
  {
    if s.Expiring? {
      ExpiryKeepsNotices(m, s.id, s.now);
    } else {
      OnlyExpiriesNotify(m, s);
      MoreEventsKeepNotices(m, Apply(m, s));
    }
  }

  lemma {:induction false} RunKeepsNotices(m: Market, steps: seq<Step>)
    requires Sound(m) && NoticesSound(m)
    ensures Sound(Run(m, steps)) && NoticesSound(Run(m, steps))
    decreases |steps|
  {
    if steps != [] {
      StepIsSound(m, steps[0]);
      StepKeepsNotices(m, steps[0]);
      RunKeepsNotices(Apply(m, steps[0]), steps[1..]);
    }
  }

  /** In every reachable state, expiring an order tells each of its managers something new: no earlier
      notification has the same key, the new one says whether this was the last attempt, and nobody
      else is told. */
  lemma EveryManagerIsToldOnce(steps: seq<Step>, id: nat, now: int, k: NoticeKey)
    requires Due(Run(EMPTY, steps), id, now)
    ensures var m := Run(EMPTY, steps);
            var o, after := m.orders[id], Expire(m, id, now);
            var told := k.order == id && k.attempt == o.dispatchAttemptCount && k.user in o.managers;
            (told ==> k !in m.notices && k in after.notices &&
                      (after.notices[k] <==> after.orders[id].status == NO_COURIER_AVAILABLE_FINAL)) &&
            (!told ==>
              (k in after.notices <==> k in m.notices) && (k in m.notices ==> after.notices[k] == m.notices[k]))
  {
    RunKeepsNotices(EMPTY, steps);
    var m := Run(EMPTY, steps);
    assert OrderSound(m, id);
    NotifiedAdds(m.notices, id, Attempt(m.orders[id]), m.orders[id].managers, k);
  }
}
