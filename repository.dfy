/**
 * The order repository seen from the core: a map from order id to stored
 * order whose `save` either stores the order under its id or fails. Whether
 * a save fails is decided outside the model and arrives as a parameter.
 */
module Repository {
  import opened Errors
  import opened Domain

  type Orders = map<OrderId, OrderEntity>

  /** Every stored order sits under its own id. */
  ghost predicate IdsMatchKeys(orders: Orders)
  {
    forall id :: id in orders ==> orders[id].id == id
  }

  class OrderRepository {
    var orders: Orders

    ghost predicate Valid()
      reads this
    {
      IdsMatchKeys(orders)
    }

    /** A repository holding the given orders. */
    constructor (stored: Orders)
      requires IdsMatchKeys(stored)
      ensures Valid() && orders == stored
    {
      orders := stored;
    }

    /**
     * Stores `e` under its id and returns it, unless the storage layer
     * fails with `fault`, in which case nothing is stored.
     */
    method Save(e: OrderEntity, fault: Option<Error>) returns (r: Result<OrderEntity>)
      requires Valid()
      modifies this
      ensures Valid()
      ensures fault.None? ==> r == Success(e) && orders == old(orders)[e.id := e]
      ensures fault.Some? ==> r == Failure(fault.value) && orders == old(orders)
    {
      if fault.Some? {
        return Failure(fault.value);
      }
      orders := orders[e.id := e];
      return Success(e);
    }
  }
}
