/**
 * The stale-order promoter: each run moves every PENDING order created more
 * than five minutes before `now` to PROCESSING, and touches nothing else.
 */
module OrderProcessing {
  import opened Errors
  import opened Domain
  import opened Inventory
  import opened Repository
  import opened OrderService

  /** How old a pending order must be before it is promoted: five minutes, in seconds. */
  const PromotionDelay: int := 300

  /** The cutoff a run at `now` queries with: five minutes earlier. */
  function Cutoff(now: Time): (c: Time)
    ensures c < now
    ensures forall e: OrderEntity :: IsStale(e, c) <==> e.status == Pending && Expired(e.createdAt, now)
  {
    now - PromotionDelay
  }

  /**
   * The selection predicate of the repository query: PENDING and created
   * strictly before the cutoff, that is, a PENDING order whose cancellation
   * window has run out by the time the cutoff was taken.
   */
  function IsStale(e: OrderEntity, cutoff: Time): (b: bool)
    ensures b <==> e.status == Pending && Expired(e.createdAt, cutoff + PromotionDelay)
  {
    e.status == Pending && e.createdAt < cutoff
  }

  /** The ids the repository query returns. */
  function FindPendingBefore(orders: Orders, cutoff: Time): (ids: set<OrderId>)
    ensures forall id :: id in ids <==> id in orders && IsStale(orders[id], cutoff)
  {
    set id | id in orders && IsStale(orders[id], cutoff)
  }

  /** The repository after one run at time `now`. */
  function Promoted(orders: Orders, now: Time): (m: Orders)
    ensures m.Keys == orders.Keys
  {
    map id | id in orders ::
      if IsStale(orders[id], Cutoff(now)) then orders[id].(status := Processing) else orders[id]
  }

  /**
   * A run promotes exactly the selected orders, changes only their status,
   * and leaves every other order as it was.
   */
  lemma PromotionChangesOnlySelected(orders: Orders, now: Time)
    ensures var m := Promoted(orders, now);
            && m.Keys == orders.Keys
            && (forall id :: id in FindPendingBefore(orders, Cutoff(now)) ==>
                  m[id] == orders[id].(status := Processing))
            && (forall id :: id in orders && id !in FindPendingBefore(orders, Cutoff(now)) ==> m[id] == orders[id])
  {
  }

  /** An empty selection changes nothing. */
  lemma EmptySelectionChangesNothing(orders: Orders, now: Time)
    requires FindPendingBefore(orders, Cutoff(now)) == {}
    ensures Promoted(orders, now) == orders
  {
    var m := Promoted(orders, now);
    assert forall id :: id in orders ==> m[id] == orders[id];
  }

  /** Running twice with the same `now` is running once: promoted orders no longer match PENDING. */
  lemma PromotionIdempotent(orders: Orders, now: Time)
    ensures Promoted(Promoted(orders, now), now) == Promoted(orders, now)
  {
    var m := Promoted(orders, now);
    assert forall id :: id in m ==> !IsStale(m[id], Cutoff(now));
    assert forall id :: id in m ==> Promoted(m, now)[id] == m[id];
  }

  /**
   * For the same `now`, the owner's cancellation of a PENDING order is
   * refused as CANCELLATION_EXPIRED exactly when the promoter selects the order.
   */
  lemma PromotedIffCancellationExpired(orders: Orders, id: OrderId, now: Time)
    requires id in orders && orders[id].status == Pending
    ensures id in FindPendingBefore(orders, Cutoff(now))
            <==> CancelGate(orders, id, orders[id].customerId, now) == Failure(Raise(CancellationExpired))
  {
  }

  /**
   * After a promotion, cancelling a promoted order at the same time or later
   * fails, and the ledger and repository are left alone: stock is never
   * released for an order that has moved on to PROCESSING.
   */
  lemma PromotedOrderCannotBeCancelled(stock: Stock, orders: Orders, id: OrderId, customerId: CustomerId,
                                       now: Time, later: Time, fault: Option<Error>)
    requires id in FindPendingBefore(orders, Cutoff(now))
    requires now <= later
    ensures var m := Promoted(orders, now);
            var e := CancelOrderSpec(stock, m, id, customerId, later, fault);
            && e.result.Failure?
            && (e.result.error.code == AccessDenied || e.result.error.code == CancellationExpired)
            && e.stock == stock && e.orders == m
  {
  }

  /** The scheduled job, holding the repository it sweeps. */
  class OrderProcessingJob {
    const repo: OrderRepository

    constructor (repo: OrderRepository)
      ensures this.repo == repo
    {
      this.repo := repo;
    }

    /** processOrders: promote every selected order; the ledger is not in the frame. */
    method ProcessOrders(now: Time)
      requires repo.Valid()
      modifies repo
      ensures repo.Valid()
      ensures repo.orders == Promoted(old(repo.orders), now)
    {
      var cutoff := Cutoff(now);
      var selected := FindPendingBefore(repo.orders, cutoff);
      var todo := selected;
      while todo != {}
        invariant todo <= selected
        invariant repo.orders.Keys == old(repo.orders).Keys
        invariant forall id :: id in old(repo.orders) ==>
                    repo.orders[id] == if id in selected - todo then old(repo.orders)[id].(status := Processing)
                                       else old(repo.orders)[id]
        decreases todo
      {
        var id :| id in todo;
        repo.orders := repo.orders[id := repo.orders[id].(status := Processing)];
        todo := todo - {id};
      }
      assert forall id :: id in old(repo.orders) ==> repo.orders[id] == Promoted(old(repo.orders), now)[id];
    }
  }
}
