/**
 * The order lifecycle: creating an order (catalog lookup, validator chain
 * and stock reservation per line, then a save that is compensated by
 * releasing every reserved line when it fails), fetching one order, listing
 * a customer's orders, and cancelling an order inside its five-minute
 * window. The functions state the effect of each operation on a ledger value
 * and a repository value; the OrderService class performs the same steps on
 * the shared ledger and repository objects.
 */
module OrderService {
  import opened Errors
  import opened Domain
  import opened Inventory
  import opened Catalog
  import opened Validation
  import opened Repository

  /** How long after creation an order may still be cancelled: five minutes, in seconds. */
  const CancellationWindow: int := 300

  // ------------------------------------------------------------------
  // Ledger effect of releasing a sequence of order items
  // ------------------------------------------------------------------

  /** The total quantity of `p` over `items`. */
  function Demand(items: seq<OrderItem>, p: ProductId): (n: int)
    ensures n >= 0
    ensures items == [] ==> n == 0
    decreases |items|
  {
    if items == [] then 0
    else
      var last := items[|items| - 1];
      Demand(items[..|items| - 1], p) + (if last.productId == p then last.quantity else 0)
  }

  /** The total over two lists of items is the sum of their totals. */
  lemma {:induction false} DemandAppend(a: seq<OrderItem>, b: seq<OrderItem>, p: ProductId)
    ensures Demand(a + b, p) == Demand(a, p) + Demand(b, p)
    decreases |b|
  {
    if b == [] {
      assert a + b == a;
    } else {
      var n := |b| - 1;
      assert (a + b)[..|a + b| - 1] == a + b[..n];
      DemandAppend(a, b[..n], p);
    }
  }

  /** The ledger after releasing every item once, in order. */
  function ReleaseItems(stock: Stock, items: seq<OrderItem>): (s: Stock)
    ensures s.Keys == stock.Keys
    ensures forall p :: p in stock ==> s[p] == stock[p] + Demand(items, p)
    ensures NonNegative(stock) ==> NonNegative(s)
    decreases |items|
  {
    if items == [] then stock
    else
      var last := items[|items| - 1];
      Released(ReleaseItems(stock, items[..|items| - 1]), last.productId, last.quantity)
  }

  // ------------------------------------------------------------------
  // createOrder
  // ------------------------------------------------------------------

  /** One reserved line: the order item it yields and the ledger after its reservation. */
  datatype Reservation = Reservation(item: OrderItem, stock: Stock)

  /**
   * One line of a create: look the product up, run every validator, then
   * reserve the line's quantity under the product's own id.
   */
  function ReserveLine(stock: Stock, products: Products, validators: seq<Validator>, line: LineItem): (r: Result<Reservation>)
    ensures r.Success? ==> line.productId in products
    ensures r.Success? ==> r.value.item == OrderItem(products[line.productId].id, line.quantity, products[line.productId].priceCents)
    ensures r.Success? ==> Reserved(stock, r.value.item.productId, line.quantity) == Success(r.value.stock)
  {
    match GetProduct(products, line.productId)
    case Failure(e) => Failure(e)
    case Success(product) =>
      match FirstFailure(validators, stock, line, product)
      case Some(e) => Failure(e)
      case None =>
        match Reserved(stock, product.id, line.quantity)
        case Failure(e) => Failure(e)
        case Success(s) => Success(Reservation(OrderItem(product.id, line.quantity, product.priceCents), s))
  }

  /** Per line the checks run in order: lookup, then the validators, then the reservation. */
  lemma LineChecksInOrder(stock: Stock, products: Products, validators: seq<Validator>, line: LineItem)
    ensures line.productId !in products ==>
              ReserveLine(stock, products, validators, line) == Failure(Error(ProductNotFound, "Product not found: " + line.productId))
    ensures line.productId in products && FirstFailure(validators, stock, line, products[line.productId]).Some? ==>
              ReserveLine(stock, products, validators, line) == Failure(FirstFailure(validators, stock, line, products[line.productId]).value)
    ensures line.productId in products && FirstFailure(validators, stock, line, products[line.productId]).None? ==>
              (ReserveLine(stock, products, validators, line).Success?
               <==> Reserved(stock, products[line.productId].id, line.quantity).Success?)
  {
  }

  /**
   * With the shipped validator chain and a catalog that keys every product by
   * its own id, the reservation step never fails: a line fails only at the
   * lookup or at the stock check.
   */
  lemma DefaultChainCoversReservation(stock: Stock, products: Products, line: LineItem)
    requires KeyedById(products)
    ensures var r := ReserveLine(stock, products, DefaultChain, line);
            r.Failure? ==>
              r.error == Error(ProductNotFound, "Product not found: " + line.productId)
              || r.error == Error(InsufficientStock, "Insufficient stock for '" + products[line.productId].name + "'.")
  {
    if line.productId in products {
      var product := products[line.productId];
      assert DefaultChain[0] == InventoryValidator;
      if FirstFailure(DefaultChain, stock, line, product).None? {
        assert InventoryValidator(stock, line, product).None?;
        PassedCheckReserves(stock, line, product);
      }
    }
  }

  /** The state of the walk over the requested lines: the ledger, the items reserved so far, and the failure that stopped it. */
  datatype Walk = Walk(stock: Stock, reserved: seq<OrderItem>, failure: Option<Error>)

  /**
   * Processes the lines in submission order and stops at the first line that
   * fails; the reservations of the lines before it stay in the ledger.
   */
  function WalkLines(stock: Stock, products: Products, validators: seq<Validator>, lines: seq<LineItem>): (w: Walk)
    ensures w.failure.None? <==> |w.reserved| == |lines|
    ensures |w.reserved| <= |lines|
    ensures forall k :: 0 <= k < |w.reserved| ==>
              lines[k].productId in products
              && w.reserved[k] == OrderItem(products[lines[k].productId].id, lines[k].quantity, products[lines[k].productId].priceCents)
    ensures w.stock.Keys == stock.Keys
    ensures NonNegative(stock) ==> NonNegative(w.stock)
    decreases |lines|
  {
    if lines == [] then Walk(stock, [], None)
    else
      var w := WalkLines(stock, products, validators, lines[..|lines| - 1]);
      if w.failure.Some? then w
      else
        match ReserveLine(w.stock, products, validators, lines[|lines| - 1])
        case Failure(e) => Walk(w.stock, w.reserved, Some(e))
        case Success(res) => Walk(res.stock, w.reserved + [res.item], None)
  }

  /** The walk over one more line: nothing more after a failure, otherwise that line's reservation is appended. */
  lemma WalkStep(stock: Stock, products: Products, validators: seq<Validator>, lines: seq<LineItem>, i: nat)
    requires i < |lines|
    ensures var w := WalkLines(stock, products, validators, lines[..i]);
            var r := ReserveLine(w.stock, products, validators, lines[i]);
            WalkLines(stock, products, validators, lines[..i + 1])
            == if w.failure.Some? then w
               else if r.Failure? then Walk(w.stock, w.reserved, Some(r.error))
               else Walk(r.value.stock, w.reserved + [r.value.item], None)
  {
    assert lines[..i + 1][..i] == lines[..i];
  }

  /** The ledger after the walk is the starting ledger less the quantities of the reserved items. */
  lemma {:induction false} WalkStock(stock: Stock, products: Products, validators: seq<Validator>, lines: seq<LineItem>)
    ensures var w := WalkLines(stock, products, validators, lines);
            && (forall k :: 0 <= k < |w.reserved| ==> w.reserved[k].productId in stock)
            && (forall p :: p in stock ==> w.stock[p] == stock[p] - Demand(w.reserved, p))
    decreases |lines|
  {
    if lines != [] {
      var n := |lines| - 1;
      var prefix := lines[..n];
      WalkStock(stock, products, validators, prefix);
      WalkStep(stock, products, validators, lines, n);
      assert lines[..n + 1] == lines;
      var w := WalkLines(stock, products, validators, prefix);
      var r := ReserveLine(w.stock, products, validators, lines[n]);
      if w.failure.None? && r.Success? {
        var res := r.value;
        var reserved := w.reserved + [res.item];
        assert WalkLines(stock, products, validators, lines) == Walk(res.stock, reserved, None);
        assert reserved[..|w.reserved|] == w.reserved;
        assert res.item.productId in stock by {
          assert Reserved(w.stock, res.item.productId, lines[n].quantity).Success?;
          assert w.stock.Keys == stock.Keys;
        }
        assert forall k :: 0 <= k < |w.reserved| ==> reserved[k] == w.reserved[k];
        assert forall p :: p in stock ==>
                 Demand(reserved, p) == Demand(w.reserved, p) + (if res.item.productId == p then res.item.quantity else 0);
      }
    }
  }

  /** Releasing every reserved item once undoes the walk exactly. */
  lemma CompensationRestoresStock(stock: Stock, products: Products, validators: seq<Validator>, lines: seq<LineItem>)
    ensures var w := WalkLines(stock, products, validators, lines);
            ReleaseItems(w.stock, w.reserved) == stock
  {
    WalkStock(stock, products, validators, lines);
    var w := WalkLines(stock, products, validators, lines);
    var s := ReleaseItems(w.stock, w.reserved);
    assert forall p :: p in stock ==> s[p] == stock[p];
  }

  /** Once a prefix of the lines has failed, the lines after it are never looked at. */
  lemma {:induction false} WalkStopsAtFailure(stock: Stock, products: Products, validators: seq<Validator>, lines: seq<LineItem>, k: nat)
    requires k <= |lines|
    requires WalkLines(stock, products, validators, lines[..k]).failure.Some?
    ensures WalkLines(stock, products, validators, lines) == WalkLines(stock, products, validators, lines[..k])
    decreases |lines| - k
  {
    if k == |lines| {
      assert lines[..k] == lines;
    } else {
      var prefix := lines[..|lines| - 1];
      assert prefix[..k] == lines[..k];
      WalkStopsAtFailure(stock, products, validators, prefix, k);
    }
  }

  /**
   * A failed walk failed at line k = |reserved|: every line before k was
   * reserved without failure, and line k raised the error.
   */
  lemma {:induction false} FailureIsAtFirstFailingLine(stock: Stock, products: Products, validators: seq<Validator>, lines: seq<LineItem>)
    requires WalkLines(stock, products, validators, lines).failure.Some?
    ensures var w := WalkLines(stock, products, validators, lines);
            var k := |w.reserved|;
            && k < |lines|
            && WalkLines(stock, products, validators, lines[..k]) == Walk(w.stock, w.reserved, None)
            && ReserveLine(w.stock, products, validators, lines[k]) == Failure(w.failure.value)
    decreases |lines|
  {
    var n := |lines| - 1;
    var prefix := lines[..n];
    WalkStep(stock, products, validators, lines, n);
    assert lines[..n + 1] == lines;
    var w' := WalkLines(stock, products, validators, prefix);
    if w'.failure.Some? {
      FailureIsAtFirstFailingLine(stock, products, validators, prefix);
      var k := |w'.reserved|;
      assert prefix[..k] == lines[..k];
      assert prefix[k] == lines[k];
    }
  }

  /** A freshly created order: PENDING, with the reserved items, created now, at version 0. */
  function NewOrder(id: OrderId, customerId: CustomerId, items: seq<OrderItem>, now: Time): (e: OrderEntity)
    ensures ToDomain(e) == Order(id, customerId, Pending, items, now)
    ensures e.version == 0
    ensures !Expired(e.createdAt, now)
  {
    OrderEntity(id, customerId, Pending, items, now, 0)
  }

  /** The result of an operation together with the ledger and the repository it leaves behind. */
  datatype Effect<T> = Effect(result: Result<T>, stock: Stock, orders: Orders)

  /**
   * createOrder: walk the lines; if a line fails, raise its error and save
   * nothing, leaving the earlier reservations in place; otherwise save a
   * PENDING order, and if the save fails release every reserved item and
   * raise the save's error. The storage layer generates a fresh id for every
   * new order, so `id` is not yet in the repository.
   */
  function CreateOrderSpec(stock: Stock, products: Products, validators: seq<Validator>, orders: Orders,
                           cmd: CreateOrderCommand, id: OrderId, now: Time, fault: Option<Error>): (e: Effect<Order>)
    requires id !in orders
    ensures e.result.Success? <==> WalkLines(stock, products, validators, cmd.items).failure.None? && fault.None?
    ensures e.result.Failure? ==> e.orders == orders
    ensures e.result.Success? ==> e.orders.Keys == orders.Keys + {id}
    ensures e.result.Success? ==> forall k :: k in orders ==> e.orders[k] == orders[k]
    ensures NonNegative(stock) ==> NonNegative(e.stock)
  {
    var w := WalkLines(stock, products, validators, cmd.items);
    if w.failure.Some? then
      Effect(Failure(w.failure.value), w.stock, orders)
    else if fault.Some? then
      Effect(Failure(fault.value), ReleaseItems(w.stock, w.reserved), orders)
    else
      var entity := NewOrder(id, cmd.customerId, w.reserved, now);
      Effect(Success(ToDomain(entity)), w.stock, orders[id := entity])
  }

  /**
   * A successful create stores and returns a PENDING order of the command's
   * customer, created now, with one item per requested line in submission
   * order, each with the line's quantity and the catalog's product id and
   * price; the ledger loses exactly the ordered quantities.
   */
  lemma CreateOrderSucceeds(stock: Stock, products: Products, validators: seq<Validator>, orders: Orders,
                            cmd: CreateOrderCommand, id: OrderId, now: Time, fault: Option<Error>)
    requires id !in orders
    requires CreateOrderSpec(stock, products, validators, orders, cmd, id, now, fault).result.Success?
    ensures var e := CreateOrderSpec(stock, products, validators, orders, cmd, id, now, fault);
            var o := e.result.value;
            && fault.None?
            && o.id == id && o.customerId == cmd.customerId && o.status == Pending && o.createdAt == now
            && |o.items| == |cmd.items|
            && (forall k :: 0 <= k < |o.items| ==>
                  cmd.items[k].productId in products
                  && o.items[k] == OrderItem(products[cmd.items[k].productId].id, cmd.items[k].quantity,
                                             products[cmd.items[k].productId].priceCents))
            && e.orders == orders[id := NewOrder(id, cmd.customerId, o.items, now)]
            && ToDomain(e.orders[id]) == o
            && e.stock.Keys == stock.Keys
            && (forall p :: p in stock ==> e.stock[p] == stock[p] - Demand(o.items, p))
  {
    WalkStock(stock, products, validators, cmd.items);
  }

  /**
   * When line k fails (lookup, a validator, or the reservation), nothing is
   * saved, the line's error is raised, and the reservations of lines 0..k-1
   * stay in the ledger: nothing is released.
   */
  lemma CreateOrderFailsAtLine(stock: Stock, products: Products, validators: seq<Validator>, orders: Orders,
                               cmd: CreateOrderCommand, id: OrderId, now: Time, fault: Option<Error>)
    requires id !in orders
    requires WalkLines(stock, products, validators, cmd.items).failure.Some?
    ensures var e := CreateOrderSpec(stock, products, validators, orders, cmd, id, now, fault);
            var w := WalkLines(stock, products, validators, cmd.items);
            var k := |w.reserved|;
            && k < |cmd.items|
            && e.orders == orders
            && WalkLines(stock, products, validators, cmd.items[..k]) == Walk(e.stock, w.reserved, None)
            && ReserveLine(e.stock, products, validators, cmd.items[k]).Failure?
            && e.result == Failure(ReserveLine(e.stock, products, validators, cmd.items[k]).error)
            && (forall p :: p in stock ==> e.stock[p] == stock[p] - Demand(w.reserved, p))
  {
    FailureIsAtFirstFailingLine(stock, products, validators, cmd.items);
    WalkStock(stock, products, validators, cmd.items);
    var w := WalkLines(stock, products, validators, cmd.items);
    var r := ReserveLine(w.stock, products, validators, cmd.items[|w.reserved|]);
    assert r.Failure?;
  }

  /** A failed save releases every reserved line once and re-raises the save's error: ledger and repository are as before the call. */
  lemma CreateOrderSaveFailureCompensates(stock: Stock, products: Products, validators: seq<Validator>, orders: Orders,
                                          cmd: CreateOrderCommand, id: OrderId, now: Time, fault: Option<Error>)
    requires id !in orders
    requires WalkLines(stock, products, validators, cmd.items).failure.None?
    requires fault.Some?
    ensures CreateOrderSpec(stock, products, validators, orders, cmd, id, now, fault) == Effect(Failure(fault.value), stock, orders)
  {
    CompensationRestoresStock(stock, products, validators, cmd.items);
  }

  /** Two units of PROD-1 reserve cleanly from the seeded ledger. */
  lemma SeededMouseLineReserves()
    ensures ReserveLine(SeedStock(), SeedProducts(), DefaultChain, LineItem("PROD-1", 2))
            == Success(Reservation(OrderItem("PROD-1", 2, 2500), SeedStock()["PROD-1" := 98]))
  {
    var mouse := Product("PROD-1", "Wireless Mouse", 2500);
    assert DefaultChain[0] == InventoryValidator && DefaultChain[1..] == [];
    assert FirstFailure(DefaultChain, SeedStock(), LineItem("PROD-1", 2), mouse) == None;
  }

  /** Five units of PROD-3 fail the stock check when two are left. */
  lemma SeededPhoneLineFails(stock: Stock)
    requires "PROD-3" in stock && stock["PROD-3"] == 2
    ensures ReserveLine(stock, SeedProducts(), DefaultChain, LineItem("PROD-3", 5))
            == Failure(Error(InsufficientStock, "Insufficient stock for 'iPhone 15'."))
  {
    var phone := Product("PROD-3", "iPhone 15", 99900);
    assert DefaultChain[0] == InventoryValidator && DefaultChain[1..] == [];
    assert InventoryValidator(stock, LineItem("PROD-3", 5), phone).Some?;
    assert "Insufficient stock for '" + phone.name + "'." == "Insufficient stock for 'iPhone 15'.";
  }

  /**
   * Reservations made for earlier lines stay in the ledger when a later line
   * fails: two units of PROD-1 followed by five of PROD-3 (of which two are
   * in stock) fails on the second line and leaves PROD-1 at 98.
   */
  lemma EarlierReservationsKeptOnLineFailure(customerId: CustomerId, id: OrderId, now: Time)
    ensures var cmd := CreateOrderCommand(customerId, [LineItem("PROD-1", 2), LineItem("PROD-3", 5)]);
            CreateOrderSpec(SeedStock(), SeedProducts(), DefaultChain, map[], cmd, id, now, None)
            == Effect(Failure(Error(InsufficientStock, "Insufficient stock for 'iPhone 15'.")),
                      SeedStock()["PROD-1" := 98], map[])
  {
    var lines := [LineItem("PROD-1", 2), LineItem("PROD-3", 5)];
    var s1 := SeedStock()["PROD-1" := 98];
    SeededMouseLineReserves();
    SeededPhoneLineFails(s1);
    assert lines[..0] == [];
    var item := OrderItem("PROD-1", 2, 2500);
    var err := Error(InsufficientStock, "Insufficient stock for 'iPhone 15'.");
    WalkStep(SeedStock(), SeedProducts(), DefaultChain, lines, 0);
    assert WalkLines(SeedStock(), SeedProducts(), DefaultChain, lines[..1]) == Walk(s1, [item], None);
    WalkStep(SeedStock(), SeedProducts(), DefaultChain, lines, 1);
    assert lines[..2] == lines;
    assert WalkLines(SeedStock(), SeedProducts(), DefaultChain, lines) == Walk(s1, [item], Some(err));
  }

  // ------------------------------------------------------------------
  // getOrder
  // ------------------------------------------------------------------

  /** The stored order `id` if it exists and belongs to `customerId`; existence is checked before ownership. */
  function FindOwned(orders: Orders, id: OrderId, customerId: CustomerId): (r: Result<OrderEntity>)
    ensures r.Success? <==> id in orders && orders[id].customerId == customerId
    ensures r.Success? ==> r.value == orders[id]
    ensures id !in orders ==> r == Failure(Error(OrderNotFound, "Order not found: " + id))
    ensures id in orders && orders[id].customerId != customerId ==> r == Failure(Raise(AccessDenied))
  {
    if id !in orders then Failure(Error(OrderNotFound, "Order not found: " + id))
    else if orders[id].customerId != customerId then Failure(Raise(AccessDenied))
    else Success(orders[id])
  }

  /** getOrder: the stored order, unchanged, for its owner; ORDER_NOT_FOUND or ACCESS_DENIED otherwise. */
  function GetOrder(orders: Orders, id: OrderId, customerId: CustomerId): (r: Result<Order>)
    ensures r.Success? <==> id in orders && orders[id].customerId == customerId
    ensures r.Success? ==> r.value == ToDomain(orders[id])
    ensures id !in orders ==> r.Failure? && r.error.code == OrderNotFound
    ensures id in orders && orders[id].customerId != customerId ==> r.Failure? && r.error.code == AccessDenied
  {
    match FindOwned(orders, id, customerId)
    case Failure(e) => Failure(e)
    case Success(entity) => Success(ToDomain(entity))
  }

  // ------------------------------------------------------------------
  // getAllOrders
  // ------------------------------------------------------------------

  /** The characters Java's isBlank treats as white space, restricted to ASCII. */
  predicate IsWhitespace(c: char)
  {
    c == ' ' || c == '\t' || c == '\n' || c == '\r' || c == '\U{000B}' || c == '\U{000C}'
    || ('\U{001C}' <= c <= '\U{001F}')
  }

  /**
   * Whether a filter is blank: empty or white space only. No blank string
   * upper-cases to a status name, so the blank branch never hides a status.
   */
  function IsBlank(s: string): (b: bool)
    ensures s == [] ==> b
    ensures b ==> ParseStatus(ToUpper(s)).None?
  {
    if s != [] then
      assert ToUpper(s)[0] == UpperAscii(s[0]);
      forall i :: 0 <= i < |s| ==> IsWhitespace(s[i])
    else
      true
  }

  /** Upper-cases an ASCII letter and leaves every other character alone. */
  function UpperAscii(c: char): (u: char)
    ensures 'a' <= c <= 'z' ==> u as int == c as int - 'a' as int + 'A' as int
    ensures !('a' <= c <= 'z') ==> u == c
  {
    if 'a' <= c <= 'z' then (c as int - 32) as char else c
  }

  /** Upper-cases every ASCII letter of `s` and leaves every other character in place. */
  function ToUpper(s: string): (u: string)
    ensures |u| == |s|
    ensures forall i :: 0 <= i < |s| && 'a' <= s[i] <= 'z' ==> u[i] as int == s[i] as int - 'a' as int + 'A' as int
    ensures forall i :: 0 <= i < |s| && !('a' <= s[i] <= 'z') ==> u[i] == s[i]
  {
    seq(|s|, i requires 0 <= i < |s| => UpperAscii(s[i]))
  }

  /** No lower-case ASCII letter is left after upper-casing. */
  lemma ToUpperLeavesNoLower(s: string)
    ensures forall i :: 0 <= i < |ToUpper(s)| ==> !('a' <= ToUpper(s)[i] <= 'z')
  {
  }

  /** Upper-casing twice is upper-casing once. */
  lemma ToUpperIdempotent(s: string)
    ensures ToUpper(ToUpper(s)) == ToUpper(s)
  {
    ToUpperLeavesNoLower(s);
    ToUpperKeepsNonLower(ToUpper(s));
  }

  /** A string with no lower-case ASCII letter is its own upper-case form. */
  lemma ToUpperKeepsNonLower(s: string)
    requires forall i :: 0 <= i < |s| ==> !('a' <= s[i] <= 'z')
    ensures ToUpper(s) == s
  {
  }

  /**
   * The status filter of getAllOrders: absent or blank selects every status;
   * otherwise its upper-cased text must name a status, or INVALID_REQUEST.
   */
  function ParseFilter(filter: Option<string>): (r: Result<Option<OrderStatus>>)
    ensures filter.None? || IsBlank(filter.value) ==> r == Success(None)
    ensures r.Success? && r.value.Some? ==> filter.Some? && ToUpper(filter.value) == StatusName(r.value.value)
    ensures r.Failure? <==> filter.Some? && !IsBlank(filter.value) && ParseStatus(ToUpper(filter.value)).None?
    ensures r.Failure? ==> r.error == Error(InvalidRequest, "Invalid status: " + filter.value)
  {
    if filter.None? || IsBlank(filter.value) then Success(None)
    else
      match ParseStatus(ToUpper(filter.value))
      case None => Failure(Error(InvalidRequest, "Invalid status: " + filter.value))
      case Some(status) => Success(Some(status))
  }

  /** Any spelling whose upper-cased form is a status name selects that status. */
  lemma FilterIgnoresCase(s: string, status: OrderStatus)
    requires ToUpper(s) == StatusName(status)
    ensures ParseFilter(Some(s)) == Success(Some(status))
  {
    assert |s| > 0 && !IsWhitespace(s[0]) by {
      assert ToUpper(s)[0] == StatusName(status)[0];
    }
    StatusNameRoundTrip(status);
  }

  /** An absent or blank filter selects every status. */
  lemma NoFilterSelectsAll()
    ensures ParseFilter(None) == Success(None)
    ensures ParseFilter(Some(" ")) == Success(None)
  {
  }

  /** A lower-case status name is accepted. */
  lemma LowerCaseFilterAccepted()
    ensures ParseFilter(Some("shipped")) == Success(Some(Shipped))
  {
    assert ToUpper("shipped") == "SHIPPED";
    FilterIgnoresCase("shipped", Shipped);
  }

  /** A filter that names no status is rejected. */
  lemma UnknownFilterRejected()
    ensures ParseFilter(Some("JUNK_STATUS")) == Failure(Error(InvalidRequest, "Invalid status: JUNK_STATUS"))
  {
    ToUpperKeepsNonLower("JUNK_STATUS");
    assert !IsWhitespace("JUNK_STATUS"[0]);
  }

  /**
   * A stored order that the query selects: without a status, the
   * customer-only finder; with one, the customer-and-status finder.
   */
  ghost predicate Matches(e: OrderEntity, customerId: CustomerId, status: Option<OrderStatus>): (b: bool)
    ensures status.None? ==> (b <==> e.customerId == customerId)
    ensures status.Some? ==> (b <==> e.customerId == customerId && e.status == status.value)
  {
    e.customerId == customerId && (status.None? || e.status == status.value)
  }

  /** The orders the repository query selects. */
  ghost function Selected(orders: Orders, customerId: CustomerId, status: Option<OrderStatus>): (r: set<Order>)
    ensures forall o :: o in r ==> o.customerId == customerId && (status.None? || o.status == status.value)
    ensures forall o :: o in r ==> exists id :: id in orders && ToDomain(orders[id]) == o
    ensures forall id :: (id in orders && orders[id].customerId == customerId &&
      (status.None? || orders[id].status == status.value)) ==> ToDomain(orders[id]) in r
  {
    set id | id in orders && Matches(orders[id], customerId, status) :: ToDomain(orders[id])
  }

  ghost predicate IsNewest(o: Order, s: set<Order>)
  {
    o in s && forall x :: x in s ==> x.createdAt <= o.createdAt
  }

  lemma NewestExists(s: set<Order>)
    requires s != {}
    ensures exists o :: IsNewest(o, s)
  {
    var y :| y in s;
    if s - {y} == {} {
      assert s == {y};
      assert IsNewest(y, s);
    } else {
      NewestExists(s - {y});
      var o :| IsNewest(o, s - {y});
      if y.createdAt <= o.createdAt {
        assert IsNewest(o, s);
      } else {
        assert IsNewest(y, s);
      }
    }
  }

  // Putting the newest order in front of a newest-first listing of the
  // others lists the whole set newest first: length, members, order.

  lemma PrependNewestLength(o: Order, s: set<Order>, rest: seq<Order>)
    requires IsNewest(o, s)
    requires |rest| == |s - {o}|
    ensures |[o] + rest| == |s|
  {
    assert s == (s - {o}) + {o};
  }

  lemma PrependNewestMembers(o: Order, s: set<Order>, rest: seq<Order>)
    requires IsNewest(o, s)
    requires forall x :: x in rest <==> x in s - {o}
    ensures forall x :: x in [o] + rest <==> x in s
  {
    var r := [o] + rest;
    forall x
      ensures x in r <==> x in s
    {
      assert x in r <==> x == o || x in rest;
    }
  }

  lemma PrependNewestOrder(o: Order, s: set<Order>, rest: seq<Order>)
    requires IsNewest(o, s)
    requires forall x :: x in rest <==> x in s - {o}
    requires forall i, j :: 0 <= i < j < |rest| ==> rest[i] != rest[j]
    requires forall i, j :: 0 <= i < j < |rest| ==> rest[i].createdAt >= rest[j].createdAt
    ensures forall i, j :: 0 <= i < j < |[o] + rest| ==> ([o] + rest)[i] != ([o] + rest)[j]
    ensures forall i, j :: 0 <= i < j < |[o] + rest| ==> ([o] + rest)[i].createdAt >= ([o] + rest)[j].createdAt
  {
    var r := [o] + rest;
    forall i, j | 0 <= i < j < |r|
      ensures r[i] != r[j] && r[i].createdAt >= r[j].createdAt
    {
      assert r[j] == rest[j - 1] && rest[j - 1] in s - {o};
      if i > 0 {
        assert r[i] == rest[i - 1];
      }
    }
  }

  /** The orders sorted by creation time, newest first; ties in any order. */
  ghost function NewestFirst(s: set<Order>): (r: seq<Order>)
    ensures |r| == |s|
    ensures forall o :: o in r <==> o in s
    ensures forall i, j :: 0 <= i < j < |r| ==> r[i] != r[j]
    ensures forall i, j :: 0 <= i < j < |r| ==> r[i].createdAt >= r[j].createdAt
    decreases |s|
  {
    if s == {} then []
    else
      NewestExists(s);
      var o :| IsNewest(o, s);
      var rest := NewestFirst(s - {o});
      PrependNewestLength(o, s, rest);
      PrependNewestMembers(o, s, rest);
      PrependNewestOrder(o, s, rest);
      [o] + rest
  }

  /**
   * getAllOrders without pagination: the customer's orders, filtered by
   * status when a filter is given, each once, newest first.
   */
  ghost function ListOrders(orders: Orders, customerId: CustomerId, filter: Option<string>): (r: Result<seq<Order>>)
    ensures r.Failure? <==> ParseFilter(filter).Failure?
    ensures r.Failure? ==> r.error == ParseFilter(filter).error
    ensures r.Success? ==> forall o :: o in r.value ==> o.customerId == customerId
    ensures r.Success? ==> forall o :: o in r.value <==> o in Selected(orders, customerId, ParseFilter(filter).value)
    ensures r.Success? ==> forall i, j :: 0 <= i < j < |r.value| ==> r.value[i] != r.value[j]
    ensures r.Success? ==> forall i, j :: 0 <= i < j < |r.value| ==> r.value[i].createdAt >= r.value[j].createdAt
  {
    match ParseFilter(filter)
    case Failure(e) => Failure(e)
    case Success(status) => Success(NewestFirst(Selected(orders, customerId, status)))
  }

  /**
   * With every order stored under its own id, the listing holds exactly one
   * entry per matching stored order: each entry is the domain view of the
   * order under its id, every matching id is listed, and no id twice.
   */
  lemma ListOrdersOnePerKey(orders: Orders, customerId: CustomerId, filter: Option<string>)
    requires IdsMatchKeys(orders)
    requires ListOrders(orders, customerId, filter).Success?
    ensures var r, status := ListOrders(orders, customerId, filter).value, ParseFilter(filter).value;
      forall i :: 0 <= i < |r| ==>
        r[i].id in orders && Matches(orders[r[i].id], customerId, status) && r[i] == ToDomain(orders[r[i].id])
    ensures var r, status := ListOrders(orders, customerId, filter).value, ParseFilter(filter).value;
      forall id :: id in orders && Matches(orders[id], customerId, status) ==> exists i :: 0 <= i < |r| && r[i].id == id
    ensures var r := ListOrders(orders, customerId, filter).value;
      forall i, j :: 0 <= i < j < |r| ==> r[i].id != r[j].id
  {
    var r, status := ListOrders(orders, customerId, filter).value, ParseFilter(filter).value;
    var sel := Selected(orders, customerId, status);
    forall i | 0 <= i < |r|
      ensures r[i].id in orders && Matches(orders[r[i].id], customerId, status) && r[i] == ToDomain(orders[r[i].id])
    {
      assert r[i] in sel;
      var id :| id in orders && ToDomain(orders[id]) == r[i];
      assert orders[id].id == id;
    }
    forall id | id in orders && Matches(orders[id], customerId, status)
      ensures exists i :: 0 <= i < |r| && r[i].id == id
    {
      assert ToDomain(orders[id]) in r;
      var i :| 0 <= i < |r| && r[i] == ToDomain(orders[id]);
      assert orders[id].id == id;
    }
  }

  // ------------------------------------------------------------------
  // cancelOrder
  // ------------------------------------------------------------------

  /** Whether the cancellation window of an order created at `createdAt` has passed at `now`; exactly five minutes is still inside it. */
  function Expired(createdAt: Time, now: Time): (b: bool)
    ensures b <==> now - createdAt > 300
    ensures b ==> createdAt < now
  {
    createdAt + CancellationWindow < now
  }

  /** Once the window has passed it stays passed. */
  lemma ExpiryIsPermanent(createdAt: Time, now: Time, later: Time)
    requires Expired(createdAt, now) && now <= later
    ensures Expired(createdAt, later)
  {
  }

  /** The four gates of cancelOrder, in order: existence, ownership, time window, status. */
  function CancelGate(orders: Orders, id: OrderId, customerId: CustomerId, now: Time): (r: Result<OrderEntity>)
    ensures r.Success? <==> id in orders && orders[id].customerId == customerId
                            && !Expired(orders[id].createdAt, now) && orders[id].status == Pending
    ensures r.Success? ==> r.value == orders[id]
    ensures id !in orders ==> r == Failure(Error(OrderNotFound, "Order not found: " + id))
    ensures id in orders && orders[id].customerId != customerId ==> r == Failure(Raise(AccessDenied))
    ensures id in orders && orders[id].customerId == customerId && Expired(orders[id].createdAt, now) ==>
              r == Failure(Raise(CancellationExpired))
    ensures id in orders && orders[id].customerId == customerId && !Expired(orders[id].createdAt, now)
            && orders[id].status != Pending ==>
              r == Failure(Error(InvalidOrderStatus, "Current status: " + StatusName(orders[id].status)))
  {
    match FindOwned(orders, id, customerId)
    case Failure(e) => Failure(e)
    case Success(entity) =>
      if Expired(entity.createdAt, now) then Failure(Raise(CancellationExpired))
      else if entity.status != Pending then
        Failure(Error(InvalidOrderStatus, "Current status: " + StatusName(entity.status)))
      else Success(entity)
  }

  /**
   * cancelOrder: once all gates pass, release every item and save the order
   * as CANCELLED. A failed save raises its error after the release, which is
   * not undone.
   */
  function CancelOrderSpec(stock: Stock, orders: Orders, id: OrderId, customerId: CustomerId, now: Time,
                           fault: Option<Error>): (e: Effect<Order>)
    ensures CancelGate(orders, id, customerId, now).Failure? ==>
              e == Effect(Failure(CancelGate(orders, id, customerId, now).error), stock, orders)
    ensures CancelGate(orders, id, customerId, now).Success? && fault.None? ==> e.result.Success?
    ensures CancelGate(orders, id, customerId, now).Success? && fault.Some? ==>
              e == Effect(Failure(fault.value), ReleaseItems(stock, orders[id].items), orders)
    ensures NonNegative(stock) ==> NonNegative(e.stock)
  {
    match CancelGate(orders, id, customerId, now)
    case Failure(err) => Effect(Failure(err), stock, orders)
    case Success(entity) =>
      var released := ReleaseItems(stock, entity.items);
      var cancelled := entity.(status := Cancelled);
      if fault.Some? then Effect(Failure(fault.value), released, orders)
      else Effect(Success(ToDomain(cancelled)), released, orders[id := cancelled])
  }

  /** getOrder and cancelOrder apply the same existence and ownership checks, with the same errors. */
  lemma GetAndCancelShareOwnershipChecks(orders: Orders, id: OrderId, customerId: CustomerId, now: Time)
    ensures GetOrder(orders, id, customerId).Failure? ==>
              CancelGate(orders, id, customerId, now) == Failure(GetOrder(orders, id, customerId).error)
    ensures CancelGate(orders, id, customerId, now).Success? ==> GetOrder(orders, id, customerId).Success?
  {
  }

  /**
   * A successful cancel saves the stored order with status CANCELLED and every
   * other field unchanged, returns it, and gives each item's quantity back.
   */
  lemma CancelOrderSucceeds(stock: Stock, orders: Orders, id: OrderId, customerId: CustomerId, now: Time,
                            fault: Option<Error>)
    requires CancelOrderSpec(stock, orders, id, customerId, now, fault).result.Success?
    ensures var e := CancelOrderSpec(stock, orders, id, customerId, now, fault);
            && fault.None?
            && id in orders && orders[id].customerId == customerId && orders[id].status == Pending
            && orders[id].createdAt + CancellationWindow >= now
            && e.orders == orders[id := orders[id].(status := Cancelled)]
            && e.result.value == ToDomain(orders[id]).(status := Cancelled)
            && e.stock.Keys == stock.Keys
            && (forall p :: p in stock ==> e.stock[p] == stock[p] + Demand(orders[id].items, p))
  {
  }

  /** An order past its window reports CANCELLATION_EXPIRED whatever its status, even a SHIPPED one, and nothing changes. */
  lemma ExpiryCheckedBeforeStatus(stock: Stock, orders: Orders, id: OrderId, now: Time, fault: Option<Error>)
    requires id in orders && Expired(orders[id].createdAt, now)
    ensures CancelOrderSpec(stock, orders, id, orders[id].customerId, now, fault)
            == Effect(Failure(Raise(CancellationExpired)), stock, orders)
  {
  }

  /** The window boundary, to the second: 4m59s and 5m00s after creation are inside, 5m01s is outside. */
  lemma CancellationWindowBoundary(createdAt: Time)
    ensures !Expired(createdAt, createdAt + 299)
    ensures !Expired(createdAt, createdAt + 300)
    ensures Expired(createdAt, createdAt + 301)
  {
  }

  /**
   * Creating an order and cancelling it inside its window by its owner gives
   * back exactly the stock the create took, and leaves the order CANCELLED.
   */
  lemma CreateThenCancelRestoresStock(stock: Stock, products: Products, validators: seq<Validator>, orders: Orders,
                                      cmd: CreateOrderCommand, id: OrderId, created: Time, now: Time)
    requires id !in orders
    requires CreateOrderSpec(stock, products, validators, orders, cmd, id, created, None).result.Success?
    requires created <= now <= created + CancellationWindow
    ensures var c := CreateOrderSpec(stock, products, validators, orders, cmd, id, created, None);
            var e := CancelOrderSpec(c.stock, c.orders, id, cmd.customerId, now, None);
            && e.result.Success?
            && e.result.value.status == Cancelled
            && e.result.value == c.result.value.(status := Cancelled)
            && e.stock == stock
  {
    CompensationRestoresStock(stock, products, validators, cmd.items);
  }

  /** A cancelled order cannot be cancelled again, so its stock is never released twice. */
  lemma NoDoubleRelease(stock: Stock, orders: Orders, id: OrderId, customerId: CustomerId, now: Time, later: Time,
                        stock2: Stock, fault: Option<Error>)
    requires CancelOrderSpec(stock, orders, id, customerId, now, None).result.Success?
    ensures var e := CancelOrderSpec(stock, orders, id, customerId, now, None);
            var again := CancelOrderSpec(stock2, e.orders, id, customerId, later, fault);
            && again.result.Failure?
            && (again.result.error.code == InvalidOrderStatus || again.result.error.code == CancellationExpired)
            && again.stock == stock2 && again.orders == e.orders
  {
  }

  /**
   * A cancel whose save fails has already released the stock and leaves the
   * order PENDING, so a retry inside the window releases the same stock a
   * second time: the release is not compensated.
   */
  lemma FailedCancelSaveReleasesAgainOnRetry(stock: Stock, orders: Orders, id: OrderId, customerId: CustomerId,
                                             now: Time, fault: Option<Error>)
    requires CancelGate(orders, id, customerId, now).Success?
    requires fault.Some?
    ensures var e1 := CancelOrderSpec(stock, orders, id, customerId, now, fault);
            var e2 := CancelOrderSpec(e1.stock, e1.orders, id, customerId, now, None);
            && e1.result == Failure(fault.value) && e1.orders == orders
            && e2.result.Success?
            && forall p :: p in stock ==> e2.stock[p] == stock[p] + 2 * Demand(orders[id].items, p)
  {
  }

  /**
   * Two units of PROD-1 at 25.00 from the seeded ledger: stored PENDING with
   * PROD-1 down to 98, cancelled a minute later by the same customer, and the
   * ledger ends as seeded.
   */
  lemma SeededRoundTrip(customerId: CustomerId, id: OrderId, created: Time)
    ensures var cmd := CreateOrderCommand(customerId, [LineItem("PROD-1", 2)]);
            var c := CreateOrderSpec(SeedStock(), SeedProducts(), DefaultChain, map[], cmd, id, created, None);
            var e := CancelOrderSpec(c.stock, c.orders, id, customerId, created + 60, None);
            && c.result == Success(Order(id, customerId, Pending, [OrderItem("PROD-1", 2, 2500)], created))
            && c.stock["PROD-1"] == 98
            && e.result.Success? && e.result.value.status == Cancelled
            && e.stock == SeedStock()
  {
    var cmd := CreateOrderCommand(customerId, [LineItem("PROD-1", 2)]);
    assert cmd.items[..0] == [];
    assert DefaultChain[0] == InventoryValidator;
    CreateThenCancelRestoresStock(SeedStock(), SeedProducts(), DefaultChain, map[], cmd, id, created, created + 60);
  }

  // ------------------------------------------------------------------
  // The service object
  // ------------------------------------------------------------------

  /**
   * The order service, wired to the shared ledger, the catalog, the
   * repository and the validator chain. Each method is one sequential
   * atomic step; time, fresh ids and storage failures are parameters.
   */
  class OrderService {
    const repo: OrderRepository
    const ledger: StockLedger
    const catalog: ProductCatalog
    const validators: seq<Validator>

    ghost predicate Valid()
      reads this, repo, ledger
    {
      repo.Valid() && ledger.Valid()
    }

    constructor (repo: OrderRepository, ledger: StockLedger, catalog: ProductCatalog, validators: seq<Validator>)
      requires repo.Valid() && ledger.Valid()
      ensures Valid()
      ensures this.repo == repo && this.ledger == ledger && this.catalog == catalog && this.validators == validators
    {
      this.repo := repo;
      this.ledger := ledger;
      this.catalog := catalog;
      this.validators := validators;
    }

    /**
     * createOrder. `id` is the fresh identifier the storage layer assigns, `now`
     * the creation time, and `fault` the error the save raises, if any.
     */
    method CreateOrder(cmd: CreateOrderCommand, id: OrderId, now: Time, fault: Option<Error>) returns (r: Result<Order>)
      requires Valid() && id !in repo.orders
      modifies repo, ledger
      ensures Valid()
      ensures Effect(r, ledger.stock, repo.orders)
              == CreateOrderSpec(old(ledger.stock), catalog.products, validators, old(repo.orders), cmd, id, now, fault)
    {
      var items, failure := ReserveLines(cmd.items);
      if failure.Some? {
        return Failure(failure.value);
      }
      var saved := repo.Save(NewOrder(id, cmd.customerId, items, now), fault);
      if saved.Failure? {
        ReleaseAll(items);
        return Failure(saved.error);
      }
      return Success(ToDomain(saved.value));
    }

    /**
     * The per-line walk of createOrder: reserves the lines in order and stops
     * at the first one that fails, keeping the earlier reservations.
     */
    method ReserveLines(lines: seq<LineItem>) returns (items: seq<OrderItem>, failure: Option<Error>)
      requires ledger.Valid()
      modifies ledger
      ensures ledger.Valid()
      ensures Walk(ledger.stock, items, failure) == WalkLines(old(ledger.stock), catalog.products, validators, lines)
    {
      ghost var stock0 := ledger.stock;
      items := [];
      var i := 0;
      while i < |lines|
        invariant 0 <= i <= |lines|
        invariant ledger.Valid()
        invariant WalkLines(stock0, catalog.products, validators, lines[..i]) == Walk(ledger.stock, items, None)
      {
        WalkStep(stock0, catalog.products, validators, lines, i);
        ghost var step := ReserveLine(ledger.stock, catalog.products, validators, lines[i]);
        var line := ReserveOneLine(lines[i]);
        if line.Failure? {
          assert step == Failure(line.error);
          WalkStopsAtFailure(stock0, catalog.products, validators, lines, i + 1);
          return items, Some(line.error);
        }
        assert step == Success(Reservation(line.value, ledger.stock));
        items := items + [line.value];
        i := i + 1;
      }
      assert lines[..i] == lines;
      return items, None;
    }

    /** One line of createOrder: lookup, every validator in order, then the reservation. */
    method ReserveOneLine(line: LineItem) returns (r: Result<OrderItem>)
      requires ledger.Valid()
      modifies ledger
      ensures ledger.Valid()
      ensures ReserveLine(old(ledger.stock), catalog.products, validators, line).Success? ==>
                && r == Success(ReserveLine(old(ledger.stock), catalog.products, validators, line).value.item)
                && ledger.stock == ReserveLine(old(ledger.stock), catalog.products, validators, line).value.stock
      ensures ReserveLine(old(ledger.stock), catalog.products, validators, line).Failure? ==>
                && r == Failure(ReserveLine(old(ledger.stock), catalog.products, validators, line).error)
                && ledger.stock == old(ledger.stock)
    {
      var found := GetProduct(catalog.products, line.productId);
      if found.Failure? {
        return Failure(found.error);
      }
      var product := found.value;
      var verdict := RunValidators(validators, ledger.stock, line, product);
      if verdict.Some? {
        return Failure(verdict.value);
      }
      var reserved := ledger.ReserveStock(product.id, line.quantity);
      if reserved.Fail? {
        return Failure(reserved.error);
      }
      return Success(OrderItem(product.id, line.quantity, product.priceCents));
    }

    /** Releases every item's quantity once, in order. */
    method ReleaseAll(items: seq<OrderItem>)
      requires ledger.Valid()
      modifies ledger
      ensures ledger.Valid()
      ensures ledger.stock == ReleaseItems(old(ledger.stock), items)
    {
      var j := 0;
      while j < |items|
        invariant 0 <= j <= |items|
        invariant ledger.Valid()
        invariant ledger.stock == ReleaseItems(old(ledger.stock), items[..j])
      {
        assert items[..j + 1][..j] == items[..j];
        ledger.ReleaseStock(items[j].productId, items[j].quantity);
        j := j + 1;
      }
      assert items[..j] == items;
    }

    /** cancelOrder at time `now`; `fault` is the error the save raises, if any. */
    method CancelOrder(id: OrderId, customerId: CustomerId, now: Time, fault: Option<Error>) returns (r: Result<Order>)
      requires Valid()
      modifies repo, ledger
      ensures Valid()
      ensures Effect(r, ledger.stock, repo.orders)
              == CancelOrderSpec(old(ledger.stock), old(repo.orders), id, customerId, now, fault)
    {
      var gate := CancelGate(repo.orders, id, customerId, now);
      if gate.Failure? {
        return Failure(gate.error);
      }
      var entity := gate.value;
      ReleaseAll(entity.items);
      var saved := repo.Save(entity.(status := Cancelled), fault);
      if saved.Failure? {
        return Failure(saved.error);
      }
      return Success(ToDomain(saved.value));
    }
  }
}
