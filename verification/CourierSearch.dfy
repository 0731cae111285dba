/** The life of a courier search: publication, acceptance, expiry by the worker, the merchant's single
    retry, cancellations, and what follows an acceptance.  Every operation is one transaction under the
    lock on the order's row; it changes the row, raises its version and appends an event. */
module CourierSearch {
  import opened Options

  // ---------------------------------------------------------------- rows

  datatype Status =
    | SEARCHING_COURIER | NO_COURIER_AVAILABLE | NO_COURIER_AVAILABLE_FINAL
    | COURIER_ASSIGNED | COURIER_ARRIVING_PICKUP | AT_PICKUP
    | PICKED_UP | IN_TRANSIT | AT_DROPOFF | DELIVERED | DELIVERY_DISPUTED | DELIVERY_FAILED
    | RETURNING_TO_STORE | RETURN_AWAITING_MERCHANT_CONFIRMATION | RETURNED | COMPLETED | CANCELLED

  /** `managers` are the merchant's active owners and managers, who are told of an expiry. */
  datatype Order = Order(
    status: Status,
    courier: Option<string>,
    acceptanceExpiresAt: Option<int>,
    dispatchAttemptCount: nat,
    cancelledAfterPickup: bool,
    version: nat,
    managers: seq<string>)

  datatype EventKind =
    | COURIER_SEARCH_REQUESTED | COURIER_SEARCH_EXPIRED | COURIER_SEARCH_RESTARTED
    | COURIER_ACCEPTED | COURIER_CANCELLED | MERCHANT_CANCELLED | OTHER_EVENT

  datatype Event = Event(order: nat, kind: EventKind, from: Status, to: Status)

  /** The deduplication key of a notification about an expiry. */
  datatype NoticeKey = NoticeKey(order: nat, attempt: nat, user: string)

  /** `notices` says of each notification whether it announces the final timeout. */
  datatype Market = Market(orders: seq<Order>, events: seq<Event>, notices: map<NoticeKey, bool>)

  const EMPTY := Market([], [], map[])

  const ACCEPTANCE_WINDOW := 5 * 60 * 1_000
  const MAXIMUM_ATTEMPTS := 2

  /** The table of transitions the order module publishes. */
  function Transitions(from: Status): set<Status> {
    match from
    case SEARCHING_COURIER => {COURIER_ASSIGNED, NO_COURIER_AVAILABLE, NO_COURIER_AVAILABLE_FINAL, CANCELLED}
    case NO_COURIER_AVAILABLE => {SEARCHING_COURIER, CANCELLED}
    case NO_COURIER_AVAILABLE_FINAL => {CANCELLED}
    case COURIER_ASSIGNED => {COURIER_ARRIVING_PICKUP, CANCELLED}
    case COURIER_ARRIVING_PICKUP => {AT_PICKUP, CANCELLED}
    case AT_PICKUP => {PICKED_UP, CANCELLED}
    case PICKED_UP => {IN_TRANSIT, DELIVERY_FAILED, RETURNING_TO_STORE}
    case IN_TRANSIT => {AT_DROPOFF, DELIVERY_FAILED, RETURNING_TO_STORE}
    case AT_DROPOFF => {DELIVERED, DELIVERY_FAILED, RETURNING_TO_STORE}
    case DELIVERED => {DELIVERY_DISPUTED, COMPLETED}
    case DELIVERY_DISPUTED => {COMPLETED, DELIVERY_FAILED, RETURNING_TO_STORE}
    case DELIVERY_FAILED => {RETURNING_TO_STORE}
    case RETURNING_TO_STORE => {RETURNING_TO_STORE, RETURN_AWAITING_MERCHANT_CONFIRMATION}
    case RETURN_AWAITING_MERCHANT_CONFIRMATION => {RETURNED}
    case RETURNED => {COMPLETED}
    case COMPLETED => {}
    case CANCELLED => {}
  }

  // ---------------------------------------------------------------- transactions

  /** The update of one row with its event. */
  function Commit(m: Market, id: nat, after: Order, kind: EventKind): Market
    requires id < |m.orders|
  {
    var before := m.orders[id];
    m.(orders := m.orders[id := after.(version := before.version + 1)],
       events := m.events + [Event(id, kind, before.status, after.status)])
  }

  function Publish(m: Market, managers: seq<string>, now: int): Market {
    m.(orders := m.orders + [Order(SEARCHING_COURIER, None, Some(now + ACCEPTANCE_WINDOW), 1, false, 1, managers)],
       events := m.events + [Event(|m.orders|, COURIER_SEARCH_REQUESTED, SEARCHING_COURIER, SEARCHING_COURIER)])
  }

  predicate Searching(o: Order) {
    o.status == SEARCHING_COURIER && o.courier == None
  }

  predicate MayAccept(m: Market, id: nat, version: nat, now: int) {
    id < |m.orders| &&
    var o := m.orders[id];
    Searching(o) && o.acceptanceExpiresAt.Some? && o.acceptanceExpiresAt.value > now && o.version == version
  }

  function Accept(m: Market, id: nat, courier: string, version: nat, now: int): Market {
    if !MayAccept(m, id, version, now) then m
    else Commit(m, id, m.orders[id].(courier := Some(courier), status := COURIER_ASSIGNED, acceptanceExpiresAt := None),
                COURIER_ACCEPTED)
  }

  /** The worker's own check of a candidate. */
  predicate Due(m: Market, id: nat, now: int) {
    id < |m.orders| &&
    var o := m.orders[id];
    Searching(o) && o.acceptanceExpiresAt.Some? && o.acceptanceExpiresAt.value <= now
  }

  function Attempt(o: Order): nat {
    if o.dispatchAttemptCount > 1 then o.dispatchAttemptCount else 1
  }

  function TimeoutStatus(o: Order): Status {
    if Attempt(o) >= MAXIMUM_ATTEMPTS then NO_COURIER_AVAILABLE_FINAL else NO_COURIER_AVAILABLE
  }

  /** One upsert per manager; a notification that exists is left as it is. */
  function Notified(notices: map<NoticeKey, bool>, id: nat, attempt: nat, users: seq<string>): map<NoticeKey, bool> {
    if users == [] then notices
    else
      var told, key := Notified(notices, id, attempt, users[..|users| - 1]), NoticeKey(id, attempt, users[|users| - 1]);
      if key in told then told else told[key := attempt >= MAXIMUM_ATTEMPTS]
  }

  function Expire(m: Market, id: nat, now: int): Market {
    if !Due(m, id, now) then m
    else
      var o := m.orders[id];
      Commit(m, id, o.(status := TimeoutStatus(o), acceptanceExpiresAt := None), COURIER_SEARCH_EXPIRED)
        .(notices := Notified(m.notices, id, Attempt(o), o.managers))
  }

  predicate MayRetry(m: Market, id: nat, version: nat) {
    id < |m.orders| &&
    var o := m.orders[id];
    o.status == NO_COURIER_AVAILABLE && o.dispatchAttemptCount == 1 && o.courier == None && o.version == version
  }

  function Retry(m: Market, id: nat, version: nat, now: int): Market {
    if !MayRetry(m, id, version) then m
    else Commit(m, id, m.orders[id].(status := SEARCHING_COURIER, acceptanceExpiresAt := Some(now + ACCEPTANCE_WINDOW),
                                     dispatchAttemptCount := 2), COURIER_SEARCH_RESTARTED)
  }

  const BEFORE_PICKUP := {COURIER_ASSIGNED, COURIER_ARRIVING_PICKUP, AT_PICKUP}

  predicate MayCourierCancel(m: Market, id: nat, courier: string, version: nat) {
    id < |m.orders| &&
    var o := m.orders[id];
    o.courier == Some(courier) && o.version == version && o.status in BEFORE_PICKUP
  }

  /** The courier gives the order back: the search starts again with a fresh deadline, and the attempt
      count stays as it is. */
  function CourierCancel(m: Market, id: nat, courier: string, version: nat, now: int): Market {
    if !MayCourierCancel(m, id, courier, version) then m
    else Commit(m, id, m.orders[id].(courier := None, status := SEARCHING_COURIER,
                                     acceptanceExpiresAt := Some(now + ACCEPTANCE_WINDOW)), COURIER_CANCELLED)
  }

  const FREE_TO_CANCEL := {SEARCHING_COURIER, NO_COURIER_AVAILABLE, NO_COURIER_AVAILABLE_FINAL} + BEFORE_PICKUP
  const CANCEL_BY_RETURN := {PICKED_UP, IN_TRANSIT, AT_DROPOFF, DELIVERY_FAILED, RETURNING_TO_STORE}

  predicate MayMerchantCancel(m: Market, id: nat, version: nat) {
    id < |m.orders| &&
    var o := m.orders[id];
    !o.cancelledAfterPickup && o.version == version && o.status in FREE_TO_CANCEL + CANCEL_BY_RETURN
  }

  function MerchantCancel(m: Market, id: nat, version: nat): Market {
    if !MayMerchantCancel(m, id, version) then m
    else
      var o := m.orders[id];
      Commit(m, id,
        if o.status in FREE_TO_CANCEL then o.(status := CANCELLED, courier := None, acceptanceExpiresAt := None)
        else o.(status := RETURNING_TO_STORE, acceptanceExpiresAt := None, cancelledAfterPickup := true),
        MERCHANT_CANCELLED)
  }

  /** The assigned courier's own steps. */
  predicate LifecycleStep(from: Status, to: Status) {
    match to
    case COURIER_ARRIVING_PICKUP => from == COURIER_ASSIGNED
    case AT_PICKUP => from == COURIER_ARRIVING_PICKUP
    case PICKED_UP => from == AT_PICKUP
    case IN_TRANSIT => from == PICKED_UP
    case AT_DROPOFF => from == IN_TRANSIT
    case DELIVERED => from == AT_DROPOFF
    case DELIVERY_FAILED => from in {PICKED_UP, IN_TRANSIT, AT_DROPOFF}
    case RETURNING_TO_STORE => from == DELIVERY_FAILED
    case RETURN_AWAITING_MERCHANT_CONFIRMATION => from == RETURNING_TO_STORE
    case _ => false
  }

  predicate MayProceed(m: Market, id: nat, courier: string, version: nat, to: Status) {
    id < |m.orders| &&
    var o := m.orders[id];
    o.courier == Some(courier) && o.version == version && LifecycleStep(o.status, to)
  }

  function Proceed(m: Market, id: nat, courier: string, version: nat, to: Status): Market {
    if !MayProceed(m, id, courier, version, to) then m
    else Commit(m, id, m.orders[id].(status := to), OTHER_EVENT)
  }

  /** Disputes, confirmed returns and completion: what happens to a delivered or returned order. */
  predicate MayConclude(m: Market, id: nat, to: Status) {
    id < |m.orders| &&
    m.orders[id].status in {DELIVERED, DELIVERY_DISPUTED, RETURN_AWAITING_MERCHANT_CONFIRMATION, RETURNED} &&
    to in Transitions(m.orders[id].status)
  }

  function Conclude(m: Market, id: nat, to: Status): Market {
    if !MayConclude(m, id, to) then m else Commit(m, id, m.orders[id].(status := to), OTHER_EVENT)
  }

  /** The merchant's memberships change. */
  function ChangeManagers(m: Market, id: nat, managers: seq<string>): Market {
    if id >= |m.orders| then m else m.(orders := m.orders[id := m.orders[id].(managers := managers)])
  }

  // ---------------------------------------------------------------- runs

  datatype Step =
    | Publishing(managers: seq<string>, now: int)
    | Accepting(id: nat, courier: string, version: nat, now: int)
    | Expiring(id: nat, now: int)
    | Retrying(id: nat, version: nat, now: int)
    | CourierCancelling(id: nat, courier: string, version: nat, now: int)
    | MerchantCancelling(id: nat, version: nat, now: int)
    | Proceeding(id: nat, courier: string, version: nat, to: Status, now: int)
    | Concluding(id: nat, to: Status, now: int)
    | ChangingManagers(id: nat, managers: seq<string>, now: int)

  function Apply(m: Market, s: Step): Market {
    match s
    case Publishing(managers, now) => Publish(m, managers, now)
    case Accepting(id, courier, version, now) => Accept(m, id, courier, version, now)
    case Expiring(id, now) => Expire(m, id, now)
    case Retrying(id, version, now) => Retry(m, id, version, now)
    case CourierCancelling(id, courier, version, now) => CourierCancel(m, id, courier, version, now)
    case MerchantCancelling(id, version, now) => MerchantCancel(m, id, version)
    case Proceeding(id, courier, version, to, now) => Proceed(m, id, courier, version, to)
    case Concluding(id, to, now) => Conclude(m, id, to)
    case ChangingManagers(id, managers, now) => ChangeManagers(m, id, managers)
  }

  function Run(m: Market, steps: seq<Step>): Market
    decreases |steps|
  {
    if steps == [] then m else Run(Apply(m, steps[0]), steps[1..])
  }

  lemma {:induction false} RunConcat(m: Market, p: seq<Step>, q: seq<Step>)
    ensures Run(m, p + q) == Run(Run(m, p), q)
    decreases |p|
  {
    if p == [] {
      assert p + q == q;
    } else {
      assert (p + q)[0] == p[0] && (p + q)[1..] == p[1..] + q;
      RunConcat(Apply(m, p[0]), p[1..], q);
    }
  }

  // ---------------------------------------------------------------- the log, folded

  /** What the events of one order say: the status they lead to, how many there are, how many searches
      were requested, restarted and reopened by a courier, and how the searches ended. */
  datatype Tally = Tally(
    status: Option<Status>, changes: nat,
    requested: nat, restarted: nat, reopened: nat,
    accepted: nat, expired: nat, abandoned: nat)

  const NO_EVENTS := Tally(None, 0, 0, 0, 0, 0, 0, 0)

  function Tallied(t: Tally, e: Event): Tally {
    var u := t.(status := Some(e.to), changes := t.changes + 1);
    match e.kind
    case COURIER_SEARCH_REQUESTED => u.(requested := t.requested + 1)
    case COURIER_SEARCH_RESTARTED => u.(restarted := t.restarted + 1)
    case COURIER_CANCELLED => u.(reopened := t.reopened + 1)
    case COURIER_ACCEPTED => u.(accepted := t.accepted + 1)
    case COURIER_SEARCH_EXPIRED => u.(expired := t.expired + 1)
    case MERCHANT_CANCELLED => if e.from == SEARCHING_COURIER then u.(abandoned := t.abandoned + 1) else u
    case OTHER_EVENT => u
  }

  function TallyOf(events: seq<Event>, id: nat): Tally {
    if events == [] then NO_EVENTS
    else
      var t, e := TallyOf(events[..|events| - 1], id), events[|events| - 1];
      if e.order == id then Tallied(t, e) else t
  }

  lemma TallyAppend(events: seq<Event>, e: Event, id: nat)
    ensures TallyOf(events + [e], id) == if e.order == id then Tallied(TallyOf(events, id), e) else TallyOf(events, id)
  {
    assert (events + [e])[..|events|] == events;
  }

  lemma {:induction false} TallyOfNone(events: seq<Event>, id: nat)
    requires forall e :: e in events ==> e.order != id
    ensures TallyOf(events, id) == NO_EVENTS
  {
    if events != [] {
      TallyOfNone(events[..|events| - 1], id);
    }
  }

  // ---------------------------------------------------------------- the invariant

  /** The order has a courier. */
  predicate Held(s: Status) {
    s !in {SEARCHING_COURIER, NO_COURIER_AVAILABLE, NO_COURIER_AVAILABLE_FINAL, CANCELLED}
  }

  predicate RowSound(o: Order) {
    1 <= o.dispatchAttemptCount <= MAXIMUM_ATTEMPTS &&
    (o.acceptanceExpiresAt.Some? <==> o.status == SEARCHING_COURIER) &&
    (o.courier.Some? <==> Held(o.status)) &&
    (o.status == NO_COURIER_AVAILABLE ==> o.dispatchAttemptCount == 1) &&
    (o.status == NO_COURIER_AVAILABLE_FINAL ==> o.dispatchAttemptCount == MAXIMUM_ATTEMPTS)
  }

  /** Searches an order has had, and searches that have ended. */
  function Opened(t: Tally): nat { t.requested + t.restarted + t.reopened }
  function Ended(t: Tally): nat { t.accepted + t.expired + t.abandoned }

  /** The row agrees with its events. */
  predicate LogAgrees(o: Order, t: Tally) {
    t.status == Some(o.status) && t.changes == o.version &&
    t.requested == 1 && t.restarted == o.dispatchAttemptCount - 1 &&
    Opened(t) == Ended(t) + (if o.status == SEARCHING_COURIER then 1 else 0) &&
    (match o.status
     case NO_COURIER_AVAILABLE => t.expired == o.dispatchAttemptCount
     case NO_COURIER_AVAILABLE_FINAL => t.expired == o.dispatchAttemptCount
     case CANCELLED => o.dispatchAttemptCount - 1 <= t.expired <= o.dispatchAttemptCount
     case _ => t.expired == o.dispatchAttemptCount - 1)
  }

  ghost predicate OrderSound(m: Market, id: nat)
    requires id < |m.orders|
  {
    RowSound(m.orders[id]) && LogAgrees(m.orders[id], TallyOf(m.events, id))
  }

  ghost predicate Sound(m: Market) {
    (forall e :: e in m.events ==> e.order < |m.orders|) &&
    (forall id: nat :: id < |m.orders| ==> OrderSound(m, id))
  }

  /** A committed change keeps the invariant when the changed row does. */
  lemma CommitIsSound(m: Market, id: nat, after: Order, kind: EventKind)
    requires Sound(m) && id < |m.orders|
    requires var o := m.orders[id];
             RowSound(after) &&
             LogAgrees(after.(version := o.version + 1),
                       Tallied(TallyOf(m.events, id), Event(id, kind, o.status, after.status)))
    ensures Sound(Commit(m, id, after, kind))
  {
    var m', e := Commit(m, id, after, kind), Event(id, kind, m.orders[id].status, after.status);
    forall x: nat | x < |m'.orders| ensures OrderSound(m', x) {
      assert OrderSound(m, x);
      TallyAppend(m.events, e, x);
    }
  }

  lemma OthersStaySound(m: Market, managers: seq<string>, now: int, x: nat)
    requires Sound(m) && x < |m.orders|
    ensures OrderSound(Publish(m, managers, now), x)
  {
    assert OrderSound(m, x);
    TallyAppend(m.events, Event(|m.orders|, COURIER_SEARCH_REQUESTED, SEARCHING_COURIER, SEARCHING_COURIER), x);
  }

  lemma PublishedIsSound(m: Market, managers: seq<string>, now: int)
    requires Sound(m)
    ensures OrderSound(Publish(m, managers, now), |m.orders|)
  {
    TallyOfNone(m.events, |m.orders|);
    TallyAppend(m.events, Event(|m.orders|, COURIER_SEARCH_REQUESTED, SEARCHING_COURIER, SEARCHING_COURIER),
                |m.orders|);
  }

  lemma PublishIsSound(m: Market, managers: seq<string>, now: int)
    requires Sound(m)
    ensures Sound(Publish(m, managers, now))
  {
    var m' := Publish(m, managers, now);
    forall x: nat | x < |m'.orders| ensures OrderSound(m', x) {
      if x < |m.orders| {
        OthersStaySound(m, managers, now, x);
      } else {
        PublishedIsSound(m, managers, now);
      }
    }
  }

  lemma AcceptIsSound(m: Market, id: nat, courier: string, version: nat, now: int)
    requires Sound(m)
    ensures Sound(Accept(m, id, courier, version, now))
  {
    if MayAccept(m, id, version, now) {
      assert OrderSound(m, id);
      CommitIsSound(m, id,
        m.orders[id].(courier := Some(courier), status := COURIER_ASSIGNED, acceptanceExpiresAt := None),
        COURIER_ACCEPTED);
    }
  }

  lemma ExpireIsSound(m: Market, id: nat, now: int)
    requires Sound(m)
    ensures Sound(Expire(m, id, now))
  {
    if Due(m, id, now) {
      var o := m.orders[id];
      assert OrderSound(m, id);
      var after := Commit(m, id, o.(status := TimeoutStatus(o), acceptanceExpiresAt := None), COURIER_SEARCH_EXPIRED);
      CommitIsSound(m, id, o.(status := TimeoutStatus(o), acceptanceExpiresAt := None), COURIER_SEARCH_EXPIRED);
      forall x: nat | x < |m.orders| ensures OrderSound(Expire(m, id, now), x) {
        assert OrderSound(after, x);
      }
    }
  }

  lemma RetryIsSound(m: Market, id: nat, version: nat, now: int)
    requires Sound(m)
    ensures Sound(Retry(m, id, version, now))
  {
    if MayRetry(m, id, version) {
      assert OrderSound(m, id);
      CommitIsSound(m, id,
        m.orders[id].(status := SEARCHING_COURIER, acceptanceExpiresAt := Some(now + ACCEPTANCE_WINDOW),
                      dispatchAttemptCount := 2),
        COURIER_SEARCH_RESTARTED);
    }
  }

  lemma CourierCancelIsSound(m: Market, id: nat, courier: string, version: nat, now: int)
    requires Sound(m)
    ensures Sound(CourierCancel(m, id, courier, version, now))
  {
    if MayCourierCancel(m, id, courier, version) {
      assert OrderSound(m, id);
      CommitIsSound(m, id,
        m.orders[id].(
          courier := None, status := SEARCHING_COURIER, acceptanceExpiresAt := Some(now + ACCEPTANCE_WINDOW)),
        COURIER_CANCELLED);
    }
  }

  lemma MerchantCancelIsSound(m: Market, id: nat, version: nat)
    requires Sound(m)
    ensures Sound(MerchantCancel(m, id, version))
  {
    if MayMerchantCancel(m, id, version) {
      var o := m.orders[id];
      assert OrderSound(m, id);
      CommitIsSound(m, id,
        if o.status in FREE_TO_CANCEL then o.(status := CANCELLED, courier := None, acceptanceExpiresAt := None)
        else o.(status := RETURNING_TO_STORE, acceptanceExpiresAt := None, cancelledAfterPickup := true),
        MERCHANT_CANCELLED);
    }
  }

  /** After an acceptance, a change from one held status to another. */
  lemma HeldChangeIsSound(m: Market, id: nat, to: Status)
    requires Sound(m) && id < |m.orders| && Held(m.orders[id].status) && Held(to)
    ensures Sound(Commit(m, id, m.orders[id].(status := to), OTHER_EVENT))
  {
    assert OrderSound(m, id);
    CommitIsSound(m, id, m.orders[id].(status := to), OTHER_EVENT);
  }

  lemma ProceedIsSound(m: Market, id: nat, courier: string, version: nat, to: Status)
    requires Sound(m)
    ensures Sound(Proceed(m, id, courier, version, to))
  {
    if MayProceed(m, id, courier, version, to) {
      HeldChangeIsSound(m, id, to);
    }
  }

  lemma ConcludeIsSound(m: Market, id: nat, to: Status)
    requires Sound(m)
    ensures Sound(Conclude(m, id, to))
  {
    if MayConclude(m, id, to) {
      HeldChangeIsSound(m, id, to);
    }
  }

  lemma ChangeManagersIsSound(m: Market, id: nat, managers: seq<string>)
    requires Sound(m)
    ensures Sound(ChangeManagers(m, id, managers))
  {
    var m' := ChangeManagers(m, id, managers);
    forall x: nat | x < |m'.orders| ensures OrderSound(m', x) {
      assert OrderSound(m, x);
    }
  }

  lemma StepIsSound(m: Market, s: Step)
    requires Sound(m)
    ensures Sound(Apply(m, s))
  {
    match s
    case Publishing(managers, now) => PublishIsSound(m, managers, now);
    case Accepting(id, courier, version, now) => AcceptIsSound(m, id, courier, version, now);
    case Expiring(id, now) => ExpireIsSound(m, id, now);
    case Retrying(id, version, now) => RetryIsSound(m, id, version, now);
    case CourierCancelling(id, courier, version, now) => CourierCancelIsSound(m, id, courier, version, now);
    case MerchantCancelling(id, version, now) => MerchantCancelIsSound(m, id, version);
    case Proceeding(id, courier, version, to, now) => ProceedIsSound(m, id, courier, version, to);
    case Concluding(id, to, now) => ConcludeIsSound(m, id, to);
    case ChangingManagers(id, managers, now) => ChangeManagersIsSound(m, id, managers);
  }

  lemma {:induction false} RunIsSound(m: Market, steps: seq<Step>)
    requires Sound(m)
    ensures Sound(Run(m, steps))
    decreases |steps|
  {
    if steps != [] {
      StepIsSound(m, steps[0]);
      RunIsSound(Apply(m, steps[0]), steps[1..]);
    }
  }
}
