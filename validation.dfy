/**
 * The validator chain run on every requested line before it is reserved:
 * an ordered list of checks, each given the current ledger, the line and its
 * product, each either passing or naming the error that aborts the order.
 */
module Validation {
  import opened Errors
  import opened Domain
  import opened Inventory

  /** A check on one line: None when it passes, Some(error) when it fails. */
  type Validator = (Stock, LineItem, Product) -> Option<Error>

  /**
   * The shipped stock-sufficiency check. It asks the ledger about the line's
   * own product id and quantity; of the product it uses only the name, for the message.
   */
  function InventoryValidator(stock: Stock, item: LineItem, product: Product): (r: Option<Error>)
    ensures r.None? <==> HasStock(stock, item.productId, item.quantity)
    ensures r.Some? ==> r.value == Error(InsufficientStock, "Insufficient stock for '" + product.name + "'.")
  {
    if !HasStock(stock, item.productId, item.quantity) then
      Some(Error(InsufficientStock, "Insufficient stock for '" + product.name + "'."))
    else
      None
  }

  /** The chain as assembled at start-up. */
  const DefaultChain: seq<Validator> := [InventoryValidator]

  /** The verdict of the stock check does not depend on the product's id or price. */
  lemma InventoryValidatorIgnoresProductId(stock: Stock, item: LineItem, p1: Product, p2: Product)
    requires p1.name == p2.name
    ensures InventoryValidator(stock, item, p1) == InventoryValidator(stock, item, p2)
  {
  }

  /** A passing stock check guarantees that reserving the same product and quantity right after it succeeds. */
  lemma PassedCheckReserves(stock: Stock, item: LineItem, product: Product)
    requires InventoryValidator(stock, item, product).None?
    ensures Reserved(stock, item.productId, item.quantity).Success?
  {
    HasStockIffReservable(stock, item.productId, item.quantity);
  }

  /** The error of the first failing validator, in list order, or None when all pass. */
  function FirstFailure(validators: seq<Validator>, stock: Stock, item: LineItem, product: Product): (r: Option<Error>)
    ensures r.None? <==> forall i :: 0 <= i < |validators| ==> validators[i](stock, item, product).None?
    ensures r.Some? ==> exists i :: 0 <= i < |validators| && validators[i](stock, item, product) == r
                                    && forall j :: 0 <= j < i ==> validators[j](stock, item, product).None?
    decreases |validators|
  {
    if validators == [] then None
    else
      var verdict := validators[0](stock, item, product);
      if verdict.Some? then verdict
      else
        var rest := FirstFailure(validators[1..], stock, item, product);
        assert forall i :: 1 <= i < |validators| ==> validators[i] == validators[1..][i - 1];
        assert rest.Some? ==> exists i :: 1 <= i < |validators| && validators[i](stock, item, product) == rest
                                          && forall j :: 0 <= j < i ==> validators[j](stock, item, product).None?
        by {
          if rest.Some? {
            var k :| 0 <= k < |validators[1..]| && validators[1..][k](stock, item, product) == rest
                     && forall j :: 0 <= j < k ==> validators[1..][j](stock, item, product).None?;
            assert validators[k + 1] == validators[1..][k];
            assert forall j :: 1 <= j < k + 1 ==> validators[j] == validators[1..][j - 1];
          }
        }
        rest
  }

  /** Runs every validator in list order and stops at the first failure. */
  method RunValidators(validators: seq<Validator>, stock: Stock, item: LineItem, product: Product)
    returns (r: Option<Error>)
    ensures r == FirstFailure(validators, stock, item, product)
  {
    var i := 0;
    while i < |validators|
      invariant 0 <= i <= |validators|
      invariant FirstFailure(validators, stock, item, product) == FirstFailure(validators[i..], stock, item, product)
    {
      assert validators[i..][1..] == validators[i + 1..];
      var verdict := validators[i](stock, item, product);
      if verdict.Some? {
        return verdict;
      }
      i := i + 1;
    }
    return None;
  }
}
