/**
 * The stock ledger: a map from product id to available quantity, seeded
 * once, then changed only by reservations (check-and-decrement) and releases
 * (increment, or nothing for an unknown product). The functions below state
 * what each operation does to a ledger value; the StockLedger class holds the
 * map and updates it in place.
 */
module Inventory {
  import opened Errors
  import opened Domain

  type Stock = map<ProductId, int>

  /** No product's available quantity is negative. */
  ghost predicate NonNegative(stock: Stock)
  {
    forall p :: p in stock ==> stock[p] >= 0
  }

  /** The ledger as seeded at start-up. */
  function SeedStock(): Stock
  {
    map["PROD-1" := 100, "PROD-2" := 50, "PROD-3" := 2]
  }

  /** Whether at least `q` units of `p` are available; an unknown product counts as 0 units. */
  function HasStock(stock: Stock, p: ProductId, q: int): (b: bool)
    ensures p in stock ==> (b <==> stock[p] >= q)
    ensures p !in stock ==> (b <==> q <= 0)
  {
    (if p in stock then stock[p] else 0) >= q
  }

  /** The ledger after reserving `q` units of `p`, or the error the reservation raises. */
  function Reserved(stock: Stock, p: ProductId, q: int): (r: Result<Stock>)
    ensures p !in stock ==> r == Failure(Error(InventoryRecordNotFound, "No inventory record for: " + p))
    ensures p in stock && stock[p] < q ==> r == Failure(Error(InsufficientStock, "Insufficient stock for: " + p))
    ensures r.Success? <==> p in stock && stock[p] >= q
    ensures r.Success? ==> r.value.Keys == stock.Keys && r.value[p] == stock[p] - q && r.value[p] >= 0
    ensures r.Success? ==> forall x :: x in stock && x != p ==> r.value[x] == stock[x]
  {
    if p !in stock then Failure(Error(InventoryRecordNotFound, "No inventory record for: " + p))
    else if stock[p] < q then Failure(Error(InsufficientStock, "Insufficient stock for: " + p))
    else Success(stock[p := stock[p] - q])
  }

  /** The ledger after releasing `q` units of `p`; an unknown product is left absent. */
  function Released(stock: Stock, p: ProductId, q: int): (s: Stock)
    ensures s.Keys == stock.Keys
    ensures p in stock ==> s[p] == stock[p] + q
    ensures forall x :: x in stock && x != p ==> s[x] == stock[x]
  {
    if p in stock then stock[p := stock[p] + q] else stock
  }

  /** Releasing an unknown product changes nothing and adds no entry. */
  lemma ReleaseUnknownIsNoOp(stock: Stock, p: ProductId, q: int)
    requires p !in stock
    ensures Released(stock, p, q) == stock
  {
  }

  /** A reservation followed by a release of the same quantity restores the ledger. */
  lemma ReserveThenReleaseRestores(stock: Stock, p: ProductId, q: int)
    requires Reserved(stock, p, q).Success?
    ensures Released(Reserved(stock, p, q).value, p, q) == stock
  {
    var s := Released(Reserved(stock, p, q).value, p, q);
    assert forall x :: x in stock ==> s[x] == stock[x];
  }

  /** Neither a reservation nor a release of a non-negative quantity makes stock negative. */
  lemma StockStaysNonNegative(stock: Stock, p: ProductId, q: int)
    requires NonNegative(stock)
    ensures Reserved(stock, p, q).Success? ==> NonNegative(Reserved(stock, p, q).value)
    ensures q >= 0 ==> NonNegative(Released(stock, p, q))
  {
  }

  /** For a positive quantity, a reservation succeeds exactly when the stock check holds. */
  lemma HasStockIffReservable(stock: Stock, p: ProductId, q: int)
    requires q >= 1
    ensures HasStock(stock, p, q) <==> Reserved(stock, p, q).Success?
  {
  }

  /**
   * The in-memory ledger. Every method is one atomic step; concurrent
   * callers are not modelled.
   */
  class StockLedger {
    var stock: Stock

    ghost predicate Valid()
      reads this
    {
      NonNegative(stock)
    }

    /** Seeds PROD-1, PROD-2 and PROD-3. */
    constructor Init()
      ensures Valid() && stock == SeedStock()
    {
      stock := map[];
      new;
      stock := stock["PROD-1" := 100];
      stock := stock["PROD-2" := 50];
      stock := stock["PROD-3" := 2];
    }

    /** Atomically checks and decrements the stock of `p`; on failure nothing changes. */
    method ReserveStock(p: ProductId, q: int) returns (o: Outcome)
      requires Valid()
      modifies this
      ensures Valid()
      ensures Reserved(old(stock), p, q).Success? ==> o == Pass && stock == Reserved(old(stock), p, q).value
      ensures Reserved(old(stock), p, q).Failure? ==> o == Fail(Reserved(old(stock), p, q).error) && stock == old(stock)
    {
      if p !in stock {
        return Fail(Error(InventoryRecordNotFound, "No inventory record for: " + p));
      }
      if stock[p] < q {
        return Fail(Error(InsufficientStock, "Insufficient stock for: " + p));
      }
      stock := stock[p := stock[p] - q];
      return Pass;
    }

    /** Adds `q` to the stock of `p` if `p` has an entry; otherwise does nothing. */
    method ReleaseStock(p: ProductId, q: int)
      requires Valid() && q >= 0
      modifies this
      ensures Valid()
      ensures stock == Released(old(stock), p, q)
    {
      if p in stock {
        stock := stock[p := stock[p] + q];
      }
    }
  }
}
