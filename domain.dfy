/**
 * The records the order workflow passes around: products, the requested
 * line items of a create command, stored order entities and the order value
 * handed back to callers, and the order status with its textual names.
 */
module Domain {
  import opened Errors

  type ProductId = string
  type CustomerId = string
  /** The textual form of an order's UUID; ids are supplied by the storage layer. */
  type OrderId = string
  /** A point in time, in seconds. */
  type Time = int
  /** A requested quantity; the request boundary admits only quantities of at least 1. */
  type Quantity = q: int | q >= 1 witness 1

  /** A catalog product; the price is in cents. */
  datatype Product = Product(id: ProductId, name: string, priceCents: int)

  datatype OrderStatus = Pending | Processing | Shipped | Cancelled

  /** One requested line of a create command. */
  datatype LineItem = LineItem(productId: ProductId, quantity: Quantity)

  datatype CreateOrderCommand = CreateOrderCommand(customerId: CustomerId, items: seq<LineItem>)

  /** One line of an order, with the unit price captured when the order was created. */
  datatype OrderItem = OrderItem(productId: ProductId, quantity: Quantity, priceCents: int)

  /** An order as the repository stores it; `version` is the storage layer's opaque lock token. */
  datatype OrderEntity = OrderEntity(
    id: OrderId,
    customerId: CustomerId,
    status: OrderStatus,
    items: seq<OrderItem>,
    createdAt: Time,
    version: int)

  /** An order as returned to callers. */
  datatype Order = Order(
    id: OrderId,
    customerId: CustomerId,
    status: OrderStatus,
    items: seq<OrderItem>,
    createdAt: Time)

  /** The domain view of a stored order. */
  function ToDomain(e: OrderEntity): (o: Order)
    ensures o.id == e.id && o.customerId == e.customerId && o.status == e.status
    ensures o.items == e.items && o.createdAt == e.createdAt
  {
    Order(e.id, e.customerId, e.status, e.items, e.createdAt)
  }

  /** The domain view keeps every field of the entity except its version. */
  lemma ToDomainForgetsOnlyVersion(a: OrderEntity, b: OrderEntity)
    ensures ToDomain(a) == ToDomain(b) <==> a == b.(version := a.version)
  {
  }

  /** The constant name of a status. */
  function StatusName(s: OrderStatus): string
  {
    match s
    case Pending => "PENDING"
    case Processing => "PROCESSING"
    case Shipped => "SHIPPED"
    case Cancelled => "CANCELLED"
  }

  /** The status a name denotes, if any: an exact, case-sensitive match of a constant name. */
  function ParseStatus(name: string): (r: Option<OrderStatus>)
    ensures r.Some? ==> StatusName(r.value) == name
  {
    if name == "PENDING" then Some(Pending)
    else if name == "PROCESSING" then Some(Processing)
    else if name == "SHIPPED" then Some(Shipped)
    else if name == "CANCELLED" then Some(Cancelled)
    else None
  }

  /** Parsing recovers every status from its name, so names are distinct. */
  lemma StatusNameRoundTrip(s: OrderStatus)
    ensures ParseStatus(StatusName(s)) == Some(s)
  {
  }
}
