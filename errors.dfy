/**
 * The error taxonomy of the order service: the nine constants of the
 * ErrorCode table, each with a stable code string, a default message and an
 * HTTP status, and the failure-carrying result types that every operation of
 * the model returns in place of a thrown BusinessException.
 */
module Errors {

  datatype Option<+T> = None | Some(value: T)

  /** The constants of the error table, in declaration order. */
  datatype ErrorCode =
    | InternalError
    | InvalidRequest
    | ProductNotFound
    | InsufficientStock
    | InventoryRecordNotFound
    | OrderNotFound
    | AccessDenied
    | CancellationExpired
    | InvalidOrderStatus

  /**
   * The machine-readable code a caller branches on: the prefix of the area
   * the error belongs to (general, catalog, inventory, order) and a serial
   * number within that area.
   */
  function Code(e: ErrorCode): (r: string)
    ensures |r| > 4 && r[|r| - 4..] in {"_001", "_002", "_003", "_004"}
    ensures r[..|r| - 4] == "ERR" <==> e == InternalError || e == InvalidRequest
    ensures r[..|r| - 4] == "PROD" <==> e == ProductNotFound
    ensures r[..|r| - 4] == "INV" <==> e == InsufficientStock || e == InventoryRecordNotFound
    ensures r[..|r| - 4] == "ORD" <==> e == OrderNotFound || e == AccessDenied || e == CancellationExpired || e == InvalidOrderStatus
  {
    // The four area prefixes differ in their first letter.
    assert "ERR"[0] == 'E' && "PROD"[0] == 'P' && "INV"[0] == 'I' && "ORD"[0] == 'O';
    match e
    case InternalError => "ERR_001"
    case InvalidRequest => "ERR_002"
    case ProductNotFound => "PROD_001"
    case InsufficientStock => "INV_001"
    case InventoryRecordNotFound => "INV_002"
    case OrderNotFound => "ORD_001"
    case AccessDenied => "ORD_002"
    case CancellationExpired => "ORD_003"
    case InvalidOrderStatus => "ORD_004"
  }

  /** The message used when an error is raised without a message of its own. */
  function DefaultMessage(e: ErrorCode): (m: string)
    ensures |m| > 0
  {
    match e
    case InternalError => "An unexpected error occurred"
    case InvalidRequest => "Invalid request parameters"
    case ProductNotFound => "Product not found in catalog"
    case InsufficientStock => "Insufficient stock for product"
    case InventoryRecordNotFound => "Inventory record not found"
    case OrderNotFound => "Order not found"
    case AccessDenied => "You do not have permission to access this order"
    case CancellationExpired => "Cancellation window of 5 minutes has expired"
    case InvalidOrderStatus => "Order cannot be cancelled in its current status"
  }

  /**
   * The HTTP status the error is reported with: always an error status, and
   * a server-side one only for the unexpected error and the missing
   * inventory record.
   */
  function HttpStatus(e: ErrorCode): (status: int)
    ensures 400 <= status < 600
    ensures status >= 500 <==> e == InternalError || e == InventoryRecordNotFound
  {
    match e
    case InternalError => 500
    case InvalidRequest => 400
    case ProductNotFound => 404
    case InsufficientStock => 422
    case InventoryRecordNotFound => 500
    case OrderNotFound => 404
    case AccessDenied => 403
    case CancellationExpired => 422
    case InvalidOrderStatus => 422
  }

  /** Reads a code string back to the error it names, if any. */
  function FromCode(s: string): (r: Option<ErrorCode>)
    ensures r.Some? ==> Code(r.value) == s
  {
    if s == "ERR_001" then Some(InternalError)
    else if s == "ERR_002" then Some(InvalidRequest)
    else if s == "PROD_001" then Some(ProductNotFound)
    else if s == "INV_001" then Some(InsufficientStock)
    else if s == "INV_002" then Some(InventoryRecordNotFound)
    else if s == "ORD_001" then Some(OrderNotFound)
    else if s == "ORD_002" then Some(AccessDenied)
    else if s == "ORD_003" then Some(CancellationExpired)
    else if s == "ORD_004" then Some(InvalidOrderStatus)
    else None
  }

  /** Every code reads back to its own error. */
  lemma CodeRoundTrip(e: ErrorCode)
    ensures FromCode(Code(e)) == Some(e)
  {
  }

  /** Distinct errors have distinct codes, so a code identifies its error. */
  lemma CodesDistinct(a: ErrorCode, b: ErrorCode)
    ensures Code(a) == Code(b) <==> a == b
  {
    CodeRoundTrip(a);
    CodeRoundTrip(b);
  }

  /** The response classification of each error. */
  lemma StatusClasses(e: ErrorCode)
    ensures HttpStatus(e) == 400 <==> e == InvalidRequest
    ensures HttpStatus(e) == 403 <==> e == AccessDenied
    ensures HttpStatus(e) == 404 <==> e == ProductNotFound || e == OrderNotFound
    ensures HttpStatus(e) == 422 <==> e == InsufficientStock || e == CancellationExpired || e == InvalidOrderStatus
    ensures HttpStatus(e) == 500 <==> e == InternalError || e == InventoryRecordNotFound
  {
  }

  /** The entries callers rely on most: the not-found and bad-request codes. */
  lemma CallerFacingEntries()
    ensures Code(OrderNotFound) == "ORD_001" && HttpStatus(OrderNotFound) == 404
    ensures Code(ProductNotFound) == "PROD_001" && HttpStatus(ProductNotFound) == 404
    ensures Code(InvalidRequest) == "ERR_002" && HttpStatus(InvalidRequest) == 400
  {
  }

  /** A raised business error: its code and the message it was raised with. */
  datatype Error = Error(code: ErrorCode, message: string)

  /** An error raised with the code's default message. */
  function Raise(code: ErrorCode): (e: Error)
    ensures e.code == code && |e.message| > 0
  {
    Error(code, DefaultMessage(code))
  }

  /** The two errors the order service raises without a message of its own carry these messages. */
  lemma RaisedDefaultMessages()
    ensures Raise(AccessDenied) == Error(AccessDenied, "You do not have permission to access this order")
    ensures Raise(CancellationExpired) == Error(CancellationExpired, "Cancellation window of 5 minutes has expired")
  {
  }

  /** The outcome of an operation that returns a value or raises an error. */
  datatype Result<+T> = Success(value: T) | Failure(error: Error)

  /** The outcome of an operation that returns nothing or raises an error. */
  datatype Outcome = Pass | Fail(error: Error)
}
