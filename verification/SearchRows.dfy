/** When each transaction on a searched order goes through, and the row and event it then writes. */
module SearchRows {
  import opened Options
  import opened CourierSearch

  /** Order id gets the row `after` and one event of the given kind is appended; nothing else changes. */
  ghost predicate Writes(m: Market, m': Market, id: nat, after: Order, kind: EventKind) {
    id < |m.orders| && m'.orders == m.orders[id := after] && after.version == m.orders[id].version + 1 &&
    m'.events == m.events + [Event(id, kind, m.orders[id].status, after.status)]
  }

  /** A new order is searched for at once, in its first attempt, for five minutes. */
  lemma PublishWrites(m: Market, managers: seq<string>, now: int)
    ensures var m' := Publish(m, managers, now);
            m'.orders == m.orders + [Order(SEARCHING_COURIER, None, Some(now + 300_000), 1, false, 1, managers)] &&
            m'.events == m.events +
                         [Event(|m.orders|, COURIER_SEARCH_REQUESTED, SEARCHING_COURIER, SEARCHING_COURIER)] &&
            m'.notices == m.notices
  {}

  /** A courier gets the order exactly when it is searched for, unassigned, before its deadline and at the version
      the courier has seen. */
  lemma AcceptWrites(m: Market, id: nat, courier: string, version: nat, now: int)
    ensures var m' := Accept(m, id, courier, version, now);
            if id < |m.orders| && m.orders[id].status == SEARCHING_COURIER && m.orders[id].courier == None &&
               m.orders[id].version == version &&
               m.orders[id].acceptanceExpiresAt.Some? && now < m.orders[id].acceptanceExpiresAt.value
            then
              var o := m.orders[id];
              Writes(m, m', id, Order(COURIER_ASSIGNED, Some(courier), None, o.dispatchAttemptCount,
                                      o.cancelledAfterPickup, version + 1, o.managers), COURIER_ACCEPTED) &&
              m'.notices == m.notices
            else m' == m
  {}

  /** A search expires exactly when it is unassigned and its deadline has come; the second time is final. */
  lemma ExpireWrites(m: Market, id: nat, now: int)
    ensures var m' := Expire(m, id, now);
            if id < |m.orders| && m.orders[id].status == SEARCHING_COURIER && m.orders[id].courier == None &&
               m.orders[id].acceptanceExpiresAt.Some? && m.orders[id].acceptanceExpiresAt.value <= now
            then
              var o := m.orders[id];
              var status := if o.dispatchAttemptCount >= 2 then NO_COURIER_AVAILABLE_FINAL else NO_COURIER_AVAILABLE;
              Writes(m, m', id, Order(status, None, None, o.dispatchAttemptCount, o.cancelledAfterPickup,
                                      o.version + 1, o.managers), COURIER_SEARCH_EXPIRED)
            else m' == m
  {}

  /** A merchant may retry exactly once, after the first expiry, at the version seen. */
  lemma RetryWrites(m: Market, id: nat, version: nat, now: int)
    ensures var m' := Retry(m, id, version, now);
            if id < |m.orders| && m.orders[id].status == NO_COURIER_AVAILABLE && m.orders[id].courier == None &&
               m.orders[id].dispatchAttemptCount == 1 && m.orders[id].version == version
            then
              var o := m.orders[id];
              Writes(m, m', id, Order(SEARCHING_COURIER, None, Some(now + 300_000), 2, o.cancelledAfterPickup,
                                      version + 1, o.managers), COURIER_SEARCH_RESTARTED) &&
              m'.notices == m.notices
            else m' == m
  {}

  /** The assigned courier may give the order back before pickup. */
  lemma CourierCancelWrites(m: Market, id: nat, courier: string, version: nat, now: int)
    ensures var m' := CourierCancel(m, id, courier, version, now);
            if id < |m.orders| && m.orders[id].courier == Some(courier) && m.orders[id].version == version &&
               m.orders[id].status in {COURIER_ASSIGNED, COURIER_ARRIVING_PICKUP, AT_PICKUP}
            then
              var o := m.orders[id];
              Writes(m, m', id, Order(SEARCHING_COURIER, None, Some(now + 300_000), o.dispatchAttemptCount,
                                      o.cancelledAfterPickup, version + 1, o.managers), COURIER_CANCELLED) &&
              m'.notices == m.notices
            else m' == m
  {}

  /** A merchant's cancellation is free before pickup; after it the courier keeps the order and returns the goods,
      once. */
  lemma MerchantCancelWrites(m: Market, id: nat, version: nat)
    ensures var m' := MerchantCancel(m, id, version);
            if id < |m.orders| && m.orders[id].version == version && !m.orders[id].cancelledAfterPickup &&
               m.orders[id].status in {SEARCHING_COURIER, NO_COURIER_AVAILABLE, NO_COURIER_AVAILABLE_FINAL,
                                       COURIER_ASSIGNED, COURIER_ARRIVING_PICKUP, AT_PICKUP}
            then
              var o := m.orders[id];
              Writes(m, m', id, Order(CANCELLED, None, None, o.dispatchAttemptCount, false, version + 1, o.managers),
                     MERCHANT_CANCELLED) &&
              m'.notices == m.notices
            else if id < |m.orders| && m.orders[id].version == version && !m.orders[id].cancelledAfterPickup &&
               m.orders[id].status in {PICKED_UP, IN_TRANSIT, AT_DROPOFF, DELIVERY_FAILED, RETURNING_TO_STORE}
            then
              var o := m.orders[id];
              Writes(m, m', id, Order(RETURNING_TO_STORE, o.courier, None, o.dispatchAttemptCount, true, version + 1,
                                      o.managers), MERCHANT_CANCELLED) &&
              m'.notices == m.notices
            else m' == m
  {}

  /** The edges along which the assigned courier takes the order. */
  const DELIVERY_EDGES := {
    (COURIER_ASSIGNED, COURIER_ARRIVING_PICKUP), (COURIER_ARRIVING_PICKUP, AT_PICKUP), (AT_PICKUP, PICKED_UP),
    (PICKED_UP, IN_TRANSIT), (IN_TRANSIT, AT_DROPOFF), (AT_DROPOFF, DELIVERED), (PICKED_UP, DELIVERY_FAILED),
    (IN_TRANSIT, DELIVERY_FAILED), (AT_DROPOFF, DELIVERY_FAILED), (DELIVERY_FAILED, RETURNING_TO_STORE),
    (RETURNING_TO_STORE, RETURN_AWAITING_MERCHANT_CONFIRMATION)}

  lemma DeliveryEdges(from: Status, to: Status)
    ensures LifecycleStep(from, to) <==> (from, to) in DELIVERY_EDGES
  {}

  /** The assigned courier, and nobody else, moves the order along those edges, at the version seen. */
  lemma ProceedWrites(m: Market, id: nat, courier: string, version: nat, to: Status)
    ensures var m' := Proceed(m, id, courier, version, to);
            if id < |m.orders| && m.orders[id].courier == Some(courier) && m.orders[id].version == version &&
               (m.orders[id].status, to) in DELIVERY_EDGES
            then
              Writes(m, m', id, m.orders[id].(status := to, version := version + 1), OTHER_EVENT) &&
              m'.notices == m.notices
            else m' == m
  {
    if id < |m.orders| {
      DeliveryEdges(m.orders[id].status, to);
    }
  }

  /** The edges along which disputes, confirmed returns and completions take a delivered or returned order. */
  const CONCLUDING_EDGES := {
    (DELIVERED, DELIVERY_DISPUTED), (DELIVERED, COMPLETED), (DELIVERY_DISPUTED, COMPLETED),
    (DELIVERY_DISPUTED, DELIVERY_FAILED), (DELIVERY_DISPUTED, RETURNING_TO_STORE),
    (RETURN_AWAITING_MERCHANT_CONFIRMATION, RETURNED), (RETURNED, COMPLETED)}

  lemma ConcludeWrites(m: Market, id: nat, to: Status)
    ensures var m' := Conclude(m, id, to);
            if id < |m.orders| && (m.orders[id].status, to) in CONCLUDING_EDGES then
              Writes(m, m', id, m.orders[id].(status := to, version := m.orders[id].version + 1), OTHER_EVENT) &&
              m'.notices == m.notices
            else m' == m
  {}
}
