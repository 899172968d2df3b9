# peerislands-ecommerce order core in Dafny

This project models the order-management core of a small e-commerce service.
- **Catalog.** A read-only map of three seeded products.
- **Stock ledger.** A map from product id to available quantity. It is changed only by atomic check-and-decrement reservations and by releases.
- **Validator chain.** It runs for each requested line. The shipped chain holds a single stock check.
- **Order lifecycle:**
  - **create** walks the lines in order: catalog lookup, the validators, then a reservation. It then saves a PENDING order. If the save fails, every reserved line is released.
  - **get** returns an order to its owner only.
  - **list** returns a customer's orders newest first, optionally filtered by a status name in any letter case.
  - **cancel** is allowed for the owner of a PENDING order within five minutes of creation. It releases the order's stock and marks the order CANCELLED.
- **Promoter.** A scheduled job moves every PENDING order older than five minutes to PROCESSING.
- **Error table.** Nine business error codes, each with a code string, a default message and an HTTP status.

Each state-changing operation (reserve, release, create, cancel, promote) is written twice:
- **A pure function over values.** It takes a ledger value (`Stock`), a repository value (`Orders`) or both, and gives the outcome and the state after the call:
  - `Reserved` and `Released` for the ledger;
  - `CreateOrderSpec` and `CancelOrderSpec` for the order service, each returning an `Effect`: the result, the ledger after the call and the repository after the call;
  - `Promoted` for the promoter.
- **A class method** that updates the shared objects in place, mirroring the source's steps. These are `StockLedger.ReserveStock`/`ReleaseStock`, `OrderService.CreateOrder`/`CancelOrder` and `OrderProcessingJob.ProcessOrders`. Each method's postcondition ties its result and its new state to its function.

The read-only operations are functions only: the stock check, the catalog lookup, the validators, getOrder and the listing. The one exception is the validator chain, whose loop `RunValidators` is proved equal to the function `FirstFailure`. The repository's `Save` is a method specified directly by the map it leaves behind.

Lemmas then state the properties of these functions:
- a reservation and a release of the same quantity cancel out;
- stock never goes negative;
- compensation undoes a create exactly;
- create followed by cancel restores the ledger;
- the cancel gates are checked in order;
- promotion is idempotent and agrees with the cancellation window;
- the error codes round-trip.

Modelling conventions:
- Time is an integer number of seconds.
- Prices are integer cents.
- The order id the storage layer assigns is a parameter of create.
- The outcome of each storage save is a parameter: `fault` is `None` for a save that succeeds, or the error it raises.

Files:
- `errors.dfy`: the error-code table, business errors and result types.
- `domain.dfy`: products, commands, order items, stored orders and domain orders, order status names.
- `inventory.dfy`: the stock ledger.
- `catalog.dfy`: the product catalog.
- `validation.dfy`: the validator chain and the stock-check validator.
- `repository.dfy`: the order repository as a map with a failing or succeeding save.
- `order_service.dfy`: create, get, list and cancel, plus the `OrderService` class.
- `order_processing.dfy`: the stale-order promoter.

## Model

| member | source | states |
|---|---|---|
| Errors.Code | src/main/java/com/peerislands/ecommerce/exception/ErrorCode.java:10-24 | every code is an area prefix and a serial from _001 to _004; ERR is exactly the two general errors, PROD the catalog error, INV the two inventory errors, ORD the four order errors |
| Errors.DefaultMessage | src/main/java/com/peerislands/ecommerce/exception/ErrorCode.java:10-24 | every error has a non-empty default message |
| Errors.HttpStatus | src/main/java/com/peerislands/ecommerce/exception/ErrorCode.java:10-24 | every error is reported with a 4xx or 5xx status, and with a 5xx status exactly for INTERNAL_ERROR and INVENTORY_RECORD_NOT_FOUND |
| Errors.FromCode | src/main/java/com/peerislands/ecommerce/exception/ErrorCode.java:10-24 | a code string that reads back to an error is that error's code |
| Errors.CodeRoundTrip | src/main/java/com/peerislands/ecommerce/exception/ErrorCode.java:10-24 | every error's code reads back to that error |
| Errors.CodesDistinct | src/main/java/com/peerislands/ecommerce/exception/ErrorCode.java:10-24 | two errors have the same code exactly when they are the same error |
| Errors.StatusClasses | src/main/java/com/peerislands/ecommerce/exception/ErrorCode.java:10-24 | for each HTTP status, exactly which errors answer with it: 400 for INVALID_REQUEST only, 403 for ACCESS_DENIED, 404 for the two not-found errors, 422 for insufficient stock, expired cancellation and bad status, 500 for INTERNAL_ERROR and INVENTORY_RECORD_NOT_FOUND |
| Errors.CallerFacingEntries | src/main/java/com/peerislands/ecommerce/exception/ErrorCode.java:11-21 | ORDER_NOT_FOUND is ORD_001 with 404, PRODUCT_NOT_FOUND is PROD_001 with 404, INVALID_REQUEST is ERR_002 with 400 |
| Errors.Raise | src/main/java/com/peerislands/ecommerce/exception/BusinessException.java:10-13 | an error raised without a message of its own keeps its code and carries a non-empty message |
| Errors.RaisedDefaultMessages | src/main/java/com/peerislands/ecommerce/exception/ErrorCode.java:22-23 | ACCESS_DENIED and CANCELLATION_EXPIRED, raised without a message, carry "You do not have permission to access this order" and "Cancellation window of 5 minutes has expired" |
| Domain.ToDomainForgetsOnlyVersion | src/main/java/com/peerislands/ecommerce/service/impl/OrderServiceImpl.java:132-137 | the mapping from stored order to domain order keeps id, customer, status, items (with product id, quantity and price) and creation time; two stored orders map to the same domain order exactly when they differ at most in their version |
| Domain.ToDomain | src/main/java/com/peerislands/ecommerce/service/impl/OrderServiceImpl.java:132-137 | the domain order carries the stored order's id, customer, status, items and creation time |
| Domain.ParseStatus | src/main/java/com/peerislands/ecommerce/service/impl/OrderServiceImpl.java:94 | a name that parses denotes the status whose constant name it is, matched exactly |
| Domain.StatusNameRoundTrip | src/main/java/com/peerislands/ecommerce/service/impl/OrderServiceImpl.java:94 | every status's constant name parses back to that status |
| Inventory.HasStock | src/main/java/com/peerislands/ecommerce/service/impl/InMemoryInventoryServiceImpl.java:25-27 | for a known product, true exactly when its stock is at least the quantity; an unknown product counts as zero units |
| Inventory.Reserved | src/main/java/com/peerislands/ecommerce/service/impl/InMemoryInventoryServiceImpl.java:30-40 | unknown product fails with INVENTORY_RECORD_NOT_FOUND "No inventory record for: p"; too little stock fails with INSUFFICIENT_STOCK "Insufficient stock for: p"; it succeeds exactly when stock covers the quantity, and then only p drops, by exactly the quantity, stays non-negative, and no key is added or removed |
| Inventory.Released | src/main/java/com/peerislands/ecommerce/service/impl/InMemoryInventoryServiceImpl.java:43-45 | a known product's stock rises by the quantity, every other product and the key set are unchanged, and an unknown product gets no entry |
| Inventory.ReleaseUnknownIsNoOp | src/main/java/com/peerislands/ecommerce/service/impl/InMemoryInventoryServiceImpl.java:44 | releasing a product with no entry leaves the ledger exactly as it was |
| Inventory.ReserveThenReleaseRestores | src/main/java/com/peerislands/ecommerce/service/impl/InMemoryInventoryServiceImpl.java:30-45 | a successful reservation followed by a release of the same product and quantity restores the ledger exactly |
| Inventory.StockStaysNonNegative | src/main/java/com/peerislands/ecommerce/service/impl/InMemoryInventoryServiceImpl.java:35-38 | from a non-negative ledger, a successful reservation and a release of a non-negative quantity both leave every stock non-negative |
| Inventory.HasStockIffReservable | src/main/java/com/peerislands/ecommerce/service/impl/InMemoryInventoryServiceImpl.java:25-38 | for a positive quantity, the stock check passes exactly when the reservation would succeed |
| Inventory.StockLedger.Init | src/main/java/com/peerislands/ecommerce/service/impl/InMemoryInventoryServiceImpl.java:17-22 | the ledger starts as PROD-1: 100, PROD-2: 50, PROD-3: 2 |
| Inventory.StockLedger.ReserveStock | src/main/java/com/peerislands/ecommerce/service/impl/InMemoryInventoryServiceImpl.java:30-40 | one atomic check-and-decrement: the outcome and new ledger are those of Reserved, and a failed reservation changes nothing |
| Inventory.StockLedger.ReleaseStock | src/main/java/com/peerislands/ecommerce/service/impl/InMemoryInventoryServiceImpl.java:43-45 | the new ledger is Released of the old one |
| Catalog.GetProduct | src/main/java/com/peerislands/ecommerce/service/impl/InMemoryCatalogServiceImpl.java:27-33 | succeeds exactly for a catalogued id and returns its product; otherwise PRODUCT_NOT_FOUND "Product not found: id" |
| Catalog.SeedIsKeyedById | src/main/java/com/peerislands/ecommerce/service/impl/InMemoryCatalogServiceImpl.java:20-24 | the seeded catalog stores each product under its own id, so a successful lookup returns a product with the requested id |
| Catalog.SeedLookups | src/main/java/com/peerislands/ecommerce/service/impl/InMemoryCatalogServiceImpl.java:20-33 | PROD-1 is "Wireless Mouse" at 25.00, PROD-2 and PROD-3 are present, and UNKNOWN-ID fails with PRODUCT_NOT_FOUND |
| Catalog.ProductCatalog.Init | src/main/java/com/peerislands/ecommerce/service/impl/InMemoryCatalogServiceImpl.java:19-24 | the catalog starts with exactly the three seeded products |
| Validation.InventoryValidator | src/main/java/com/peerislands/ecommerce/service/validator/InventoryValidator.java:20-25 | passes exactly when the ledger has the requested quantity of the requested product; otherwise INSUFFICIENT_STOCK "Insufficient stock for 'name'." with the product's name |
| Validation.InventoryValidatorIgnoresProductId | src/main/java/com/peerislands/ecommerce/service/validator/InventoryValidator.java:21 | the check consults the line's product id, not the looked-up product's id or price |
| Validation.PassedCheckReserves | src/main/java/com/peerislands/ecommerce/service/validator/InventoryValidator.java:21 | a passing stock check means a reservation of the same line succeeds on the same ledger |
| Validation.FirstFailure | src/main/java/com/peerislands/ecommerce/service/impl/OrderServiceImpl.java:51 | none when every validator passes; otherwise the error of the first failing validator in list order, all earlier ones having passed |
| Validation.RunValidators | src/main/java/com/peerislands/ecommerce/service/impl/OrderServiceImpl.java:51 | running the validators in order and stopping at the first error yields FirstFailure |
| Repository.OrderRepository.Save | src/main/java/com/peerislands/ecommerce/service/impl/OrderServiceImpl.java:66 | a successful save stores the order under its id and returns it; a failed save raises its error and stores nothing |
| OrderService.Demand | src/main/java/com/peerislands/ecommerce/service/impl/OrderServiceImpl.java:69-71 | the per-product total quantity over a list of order items, which the release, walk and cancel contracts are stated against; it is never negative and is zero for no items |
| OrderService.DemandAppend | src/main/java/com/peerislands/ecommerce/service/impl/OrderServiceImpl.java:69-71 | the total of a product over two lists of items is the sum of the two totals |
| OrderService.ReleaseItems | src/main/java/com/peerislands/ecommerce/service/impl/OrderServiceImpl.java:69-71 | releasing a list of items adds each product's total quantity over the items to its stock, adds no key, and keeps stock non-negative |
| OrderService.ReserveLine | src/main/java/com/peerislands/ecommerce/service/impl/OrderServiceImpl.java:49-59 | a reserved line yields an item with the catalog's product id and price and the line's quantity, and the ledger after it is the reservation of that product and quantity |
| OrderService.LineChecksInOrder | src/main/java/com/peerislands/ecommerce/service/impl/OrderServiceImpl.java:49-53 | per line: an uncatalogued product fails with PRODUCT_NOT_FOUND before any validator; a failing validator's error is raised before any reservation; otherwise the line succeeds exactly when the reservation does |
| OrderService.DefaultChainCoversReservation | src/main/java/com/peerislands/ecommerce/service/impl/OrderServiceImpl.java:49-53 | with the shipped chain and the seeded kind of catalog, a line fails only at the lookup or at the validator's stock check, never at the reservation |
| OrderService.WalkLines | src/main/java/com/peerislands/ecommerce/service/impl/OrderServiceImpl.java:47-61 | the lines are handled in submission order; the walk stops at a failure exactly when fewer items than lines were reserved; item k carries line k's quantity and the catalog's id and price for line k's product; stock stays non-negative |
| OrderService.WalkStock | src/main/java/com/peerislands/ecommerce/service/impl/OrderServiceImpl.java:53 | after the walk every product's stock is its starting stock less its total reserved quantity |
| OrderService.CompensationRestoresStock | src/main/java/com/peerislands/ecommerce/service/impl/OrderServiceImpl.java:69-71 | releasing every reserved item once restores the ledger that the walk started from |
| OrderService.WalkStopsAtFailure | src/main/java/com/peerislands/ecommerce/service/impl/OrderServiceImpl.java:47-61 | once a line fails, the lines after it are never looked at |
| OrderService.FailureIsAtFirstFailingLine | src/main/java/com/peerislands/ecommerce/service/impl/OrderServiceImpl.java:47-61 | a failed walk failed at line k equal to the number of reserved items: lines before k reserved cleanly and line k raised the error |
| OrderService.CreateOrderSpec | src/main/java/com/peerislands/ecommerce/service/impl/OrderServiceImpl.java:41-74 | for an id not yet stored, as the storage layer generates: a create succeeds exactly when every line reserves and the save succeeds; a failed create stores nothing; a successful one adds exactly the new id and leaves every stored order unchanged; stock stays non-negative |
| OrderService.NewOrder | src/main/java/com/peerislands/ecommerce/service/impl/OrderServiceImpl.java:42-45 | a new order is PENDING, belongs to the customer, carries the reserved items, is created now at version 0, and is inside its cancellation window at creation |
| OrderService.CreateOrderSucceeds | src/main/java/com/peerislands/ecommerce/service/impl/OrderServiceImpl.java:41-67 | a successful create had no save failure and returns and stores a PENDING order of the customer, created now, with one item per line in order at catalog id and price, and the ledger loses exactly the ordered quantities |
| OrderService.CreateOrderFailsAtLine | src/main/java/com/peerislands/ecommerce/service/impl/OrderServiceImpl.java:47-61 | a line failure raises that line's error, saves nothing, and leaves the reservations of the earlier lines in the ledger |
| OrderService.EarlierReservationsKeptOnLineFailure | src/main/java/com/peerislands/ecommerce/service/impl/OrderServiceImpl.java:47-61 | from the seeded state, two PROD-1 then five PROD-3 fails with the validator's INSUFFICIENT_STOCK for 'iPhone 15' and leaves PROD-1 at 98 |
| OrderService.CreateOrderSaveFailureCompensates | src/main/java/com/peerislands/ecommerce/service/impl/OrderServiceImpl.java:65-73 | a failed save re-raises its error and leaves ledger and repository exactly as before the call |
| OrderService.FindOwned | src/main/java/com/peerislands/ecommerce/service/impl/OrderServiceImpl.java:78-83 | existence is checked before ownership: ORDER_NOT_FOUND "Order not found: id" for a missing order, ACCESS_DENIED for another customer's order, the stored order otherwise |
| OrderService.GetOrder | src/main/java/com/peerislands/ecommerce/service/impl/OrderServiceImpl.java:77-85 | returns the stored order's domain view exactly for its owner; ORDER_NOT_FOUND for a missing order, ACCESS_DENIED for another customer's |
| OrderService.ToUpper | src/main/java/com/peerislands/ecommerce/service/impl/OrderServiceImpl.java:94 | upper-casing keeps the length, maps each ASCII lower-case letter to its upper-case letter, and leaves every other character in place |
| OrderService.ToUpperLeavesNoLower | src/main/java/com/peerislands/ecommerce/service/impl/OrderServiceImpl.java:94 | no ASCII lower-case letter remains after upper-casing |
| OrderService.ToUpperIdempotent | src/main/java/com/peerislands/ecommerce/service/impl/OrderServiceImpl.java:94 | upper-casing an upper-cased filter changes nothing more |
| OrderService.IsBlank | src/main/java/com/peerislands/ecommerce/service/impl/OrderServiceImpl.java:92 | the empty filter is blank, and no blank filter upper-cases to a status name, so the blank branch never hides a status |
| OrderService.ParseFilter | src/main/java/com/peerislands/ecommerce/service/impl/OrderServiceImpl.java:92-101 | an absent or blank filter selects every status; otherwise the upper-cased filter must name a status, or INVALID_REQUEST "Invalid status: filter" with the filter as given |
| OrderService.FilterIgnoresCase | src/main/java/com/peerislands/ecommerce/service/impl/OrderServiceImpl.java:94 | any spelling whose upper-case form is a status name selects that status |
| OrderService.NoFilterSelectsAll | src/main/java/com/peerislands/ecommerce/service/impl/OrderServiceImpl.java:92 | an absent and a blank filter both select every status |
| OrderService.LowerCaseFilterAccepted | src/main/java/com/peerislands/ecommerce/service/impl/OrderServiceImpl.java:94 | "shipped" selects SHIPPED |
| OrderService.UnknownFilterRejected | src/main/java/com/peerislands/ecommerce/service/impl/OrderServiceImpl.java:96-97 | "JUNK_STATUS" fails with INVALID_REQUEST "Invalid status: JUNK_STATUS" |
| OrderService.Matches | src/main/java/com/peerislands/ecommerce/repository/OrderRepository.java:15-16 | with no status, an order matches exactly when it belongs to the customer (findByCustomerId); with a status, exactly when it belongs to the customer and has that status (findByCustomerIdAndStatus) |
| OrderService.Selected | src/main/java/com/peerislands/ecommerce/service/impl/OrderServiceImpl.java:93-103 | the query result holds only the customer's orders of the requested status, each the domain view of a stored order, and the domain view of every matching stored order |
| OrderService.NewestExists | src/main/java/com/peerislands/ecommerce/service/impl/OrderServiceImpl.java:89 | a non-empty set of orders has one created no earlier than any other |
| OrderService.NewestFirst | src/main/java/com/peerislands/ecommerce/service/impl/OrderServiceImpl.java:89 | the sort by creation time, descending, lists every order of the set once and nothing else |
| OrderService.ListOrders | src/main/java/com/peerislands/ecommerce/service/impl/OrderServiceImpl.java:88-104 | fails exactly when the filter is rejected; otherwise lists every order of the customer that matches the filter, each once, nothing else, newest first |
| OrderService.ListOrdersOnePerKey | src/main/java/com/peerislands/ecommerce/service/impl/OrderServiceImpl.java:88-104 | with every order stored under its own id, the list has one entry per matching stored order: each entry is the view of the order under its id, every matching id appears, and no id appears twice |
| OrderService.Expired | src/main/java/com/peerislands/ecommerce/service/impl/OrderServiceImpl.java:116 | an order is past its cancellation window exactly when more than 300 seconds have passed since its creation, which is never before it was created |
| OrderService.ExpiryIsPermanent | src/main/java/com/peerislands/ecommerce/service/impl/OrderServiceImpl.java:116 | once an order is past its window, it is past it at every later time |
| OrderService.CancelGate | src/main/java/com/peerislands/ecommerce/service/impl/OrderServiceImpl.java:109-122 | the gates in order: ORDER_NOT_FOUND, ACCESS_DENIED, CANCELLATION_EXPIRED when more than five minutes have passed, INVALID_ORDER_STATUS "Current status: S" when not PENDING; passes exactly when all four hold |
| OrderService.CancelOrderSpec | src/main/java/com/peerislands/ecommerce/service/impl/OrderServiceImpl.java:108-130 | a cancel refused by a gate raises that gate's error and changes neither ledger nor repository; passing the gates with a succeeding save succeeds; passing the gates with a failing save raises the save's error, keeps the repository, and leaves every item released; stock stays non-negative |
| OrderService.GetAndCancelShareOwnershipChecks | src/main/java/com/peerislands/ecommerce/service/impl/OrderServiceImpl.java:77-83 | get and cancel fail with the same error whenever get fails, and a cancel that passes its gates concerns an order that get returns |
| OrderService.CancelOrderSucceeds | src/main/java/com/peerislands/ecommerce/service/impl/OrderServiceImpl.java:108-130 | a successful cancel concerns the owner's PENDING order within its window, stores it as CANCELLED with every other field unchanged, returns it, and gives back each item's quantity |
| OrderService.ExpiryCheckedBeforeStatus | src/main/java/com/peerislands/ecommerce/service/impl/OrderServiceImpl.java:116-122 | an order past its window is refused with CANCELLATION_EXPIRED whatever its status, and nothing changes |
| OrderService.CancellationWindowBoundary | src/main/java/com/peerislands/ecommerce/service/impl/OrderServiceImpl.java:116 | 299 and 300 seconds after creation are inside the window, 301 is outside |
| OrderService.CreateThenCancelRestoresStock | src/main/java/com/peerislands/ecommerce/service/impl/OrderServiceImpl.java:41-130 | an order created and then cancelled by its owner within its window ends CANCELLED and the ledger is exactly as before the create |
| OrderService.NoDoubleRelease | src/main/java/com/peerislands/ecommerce/service/impl/OrderServiceImpl.java:120-126 | a cancelled order cannot be cancelled again, so the second attempt releases nothing and changes nothing |
| OrderService.FailedCancelSaveReleasesAgainOnRetry | src/main/java/com/peerislands/ecommerce/service/impl/OrderServiceImpl.java:124-129 | a cancel whose save fails has released the stock and leaves the order PENDING, so a retry in the window succeeds and releases the same quantities a second time |
| OrderService.SeededRoundTrip | src/main/java/com/peerislands/ecommerce/service/impl/OrderServiceImpl.java:41-130 | from the seeded state, two PROD-1 give a PENDING order at 25.00 and PROD-1 at 98; cancelling a minute later restores the seeded ledger |
| OrderService.OrderService.CreateOrder | src/main/java/com/peerislands/ecommerce/service/impl/OrderServiceImpl.java:41-74 | the result, the new ledger and the new repository are those of CreateOrderSpec on the old ones |
| OrderService.OrderService.ReserveLines | src/main/java/com/peerislands/ecommerce/service/impl/OrderServiceImpl.java:47-61 | the items reserved, the new ledger and the failure that stopped the walk are those of WalkLines on the old ledger |
| OrderService.OrderService.ReserveOneLine | src/main/java/com/peerislands/ecommerce/service/impl/OrderServiceImpl.java:48-60 | the item and new ledger of one line are those of ReserveLine, and a failed line leaves the ledger unchanged |
| OrderService.OrderService.ReleaseAll | src/main/java/com/peerislands/ecommerce/service/impl/OrderServiceImpl.java:69-71 | the new ledger is ReleaseItems of the old one |
| OrderService.OrderService.CancelOrder | src/main/java/com/peerislands/ecommerce/service/impl/OrderServiceImpl.java:108-130 | the result, the new ledger and the new repository are those of CancelOrderSpec on the old ones |
| OrderProcessing.Cutoff | src/main/java/com/peerislands/ecommerce/job/OrderProcessingJob.java:26 | the cutoff lies before the run's time, and an order is stale at it exactly when it is PENDING and its cancellation window has run out by the run's time |
| OrderProcessing.IsStale | src/main/java/com/peerislands/ecommerce/job/OrderProcessingJob.java:26-27 | the query selects an order exactly when it is PENDING and its cancellation window had run out at the time the cutoff was taken |
| OrderProcessing.FindPendingBefore | src/main/java/com/peerislands/ecommerce/repository/OrderRepository.java:14 | selects exactly the PENDING orders created strictly before the cutoff |
| OrderProcessing.Promoted | src/main/java/com/peerislands/ecommerce/job/OrderProcessingJob.java:24-33 | a run keeps the set of stored orders |
| OrderProcessing.PromotionChangesOnlySelected | src/main/java/com/peerislands/ecommerce/job/OrderProcessingJob.java:26-32 | each selected order changes only its status, to PROCESSING; every other order is unchanged |
| OrderProcessing.EmptySelectionChangesNothing | src/main/java/com/peerislands/ecommerce/job/OrderProcessingJob.java:27-32 | with nothing selected, a run changes nothing |
| OrderProcessing.PromotionIdempotent | src/main/java/com/peerislands/ecommerce/job/OrderProcessingJob.java:24-33 | a second run at the same time changes nothing more |
| OrderProcessing.PromotedIffCancellationExpired | src/main/java/com/peerislands/ecommerce/job/OrderProcessingJob.java:26 | at the same time, the job selects a PENDING order exactly when cancelling it would be refused as expired |
| OrderProcessing.PromotedOrderCannotBeCancelled | src/main/java/com/peerislands/ecommerce/job/OrderProcessingJob.java:31 | once promoted, an order's cancel is refused from then on and releases nothing |
| OrderProcessing.OrderProcessingJob.ProcessOrders | src/main/java/com/peerislands/ecommerce/job/OrderProcessingJob.java:24-33 | the repository after the run is Promoted of the one before, and the ledger is not touched |

## Left out

- **Concurrency.**
  - The ledger's per-key atomicity is modelled as one atomic step per call.
  - Interleavings of concurrent creates, cancels and promoter runs are not modelled. This includes two promoter runs racing and optimistic-locking conflicts.
- **Transactions.**
  - Database rollback is modelled only where it is observable. A failed save stores nothing.
  - The ledger is never rolled back.
  - Where a non-storage exception would abort a create or cancel after a partial change, the model reports the changes the source makes before raising.
- **Storage-layer ids, versions and item-row ids.**
  - The order id the storage layer generates is a parameter of create.
  - OrderService.CreateOrderSpec requires that id to be absent from the repository, because the storage layer generates a fresh UUID for every new order (entity/OrderEntity.java:19-21). UUID generation itself is not modelled.
  - The optimistic-lock version is 0 at creation and is not incremented by saves or by the promoter.
  - Order item row ids are not modelled.
- **Clock.** The clock is a parameter `now` in whole seconds; sub-second timestamps are not modelled.
- **Prices.** Prices are integer cents instead of decimal amounts.
- **Integer width.**
  - Quantities and stock are unbounded integers.
  - Java's 32-bit Integer overflow on a release that pushes stock past 2^31 - 1 is not modelled.
  - Quantities are at least 1, as the request boundary enforces.
- **Inventory.StockLedger.ReleaseStock:** requires a non-negative quantity, because every caller releases a reserved, positive quantity. The source itself accepts any integer.
- **Pagination.**
  - The page and size parameters of getAllOrders and the page metadata are not modelled.
  - OrderService.ListOrders returns the full sorted list that the pages are cut from.
  - It is a ghost function, because it picks orders from a set.
- **Letter case and white space.**
  - Letter case and white space are ASCII only. Java's Unicode upper-casing and Unicode white space in the blank test are not modelled.
  - Upper-casing is taken as locale-neutral. The source's toUpperCase follows the default locale. Under a Turkish locale, "shipped" becomes "SHİPPED" and is rejected, so OrderService.LowerCaseFilterAccepted holds only under a locale that maps 'i' to 'I'.
- **Around the core.**
  - The HTTP controller, the request and response types, the global exception handler (which turns a non-business exception into INTERNAL_ERROR) and logging are not modelled.
  - The product service interface is not modelled.
  - The storage layer itself is not modelled. Only its save, its lookups by id, its status and creation-time query, and its customer and customer-and-status finders are modelled, as map operations.
- **Order status enum.** The enum's source file is not part of this model. Its four constants are taken as PENDING, PROCESSING, SHIPPED and CANCELLED.
- **Compensation scope.**
  - createOrder releases reservations only when the save fails (OrderServiceImpl.java:65-73).
  - A later line's failure keeps the reservations of the earlier lines in the ledger (OrderServiceImpl.java:47-61); OrderService.EarlierReservationsKeptOnLineFailure shows such a state.
  - cancelOrder releases stock before its save (OrderServiceImpl.java:124-129). A failed save keeps the release and leaves the order PENDING, so a retry releases again: OrderService.FailedCancelSaveReleasesAgainOnRetry.
