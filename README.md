# exbuy order and inventory write path, in Dafny

This project models the part of the `exbuy` shop backend that changes the
database: placing an order (`OrderViewSet.create`), placing many orders in one
request (`bulk_create_orders`), reserving stock (`reserve_inventory`), updating
an order's status (`OrderViewSet.partial_update`), plus the field rules and
cascades of the schema (`models.py`), the request validators (`serializers.py`)
and the product search filters (`search_products`, `ProductViewSet.get_queryset`).

The database is an in-memory `Store` object. It has four fields: the product
table (a map from id to product), the order table (a map from id to order,
each order holding its lines), the next order id, and the review table. Every
DecimalField has two fraction digits, so prices and totals are whole numbers of
cents and their arithmetic is exact.

Files and modules:

- `results.dfy` (`Results`): `Option` and `Result`.
- `models.dfy` (`Models`): products, orders, lines, reviews, the five order
  statuses, the declared bounds, the line subtotal and the delete cascades.
- `serializers.dfy` (`Serializers`): the requests and their validators.
- `responses.dfy` (`Responses`): the failures and the HTTP status each one produces.
- `search.dfy` (`Search`): the product filters, as chains of `.filter` calls.
- `ordering.dfy` (`Ordering`): order placement, bulk placement and status
  update as pure functions, and the lemmas about them.
- `inventory.dfy` (`Inventory`): reservation as a pure function, and the
  no-oversell lemma.
- `shop.dfy` (`Shop`): the `Store` class. Its methods are the endpoints,
  written as loops over local copies of the tables. The four endpoint
  methods (create, bulk create, reserve, status update) are each proved
  equal to their pure function; the delete and price-change methods state
  their new state directly. Each method commits only on success, so a
  failed request leaves the store unchanged; this is how the model captures
  `@transaction.atomic`.

Behaviour of the code the model keeps:

- The code fetches the product again for every line, after earlier lines
  have saved their decrements. So a product that appears twice in one order
  is checked against the stock the earlier line left. Because of this,
  `RunSucceedsIff` proves that an order succeeds exactly when each product's
  total demand fits its stock.
- When `create` or `bulk_create_orders` finds too little stock, it raises
  `ValueError`. That is an unhandled server error (500), not a 400.
- When the product is missing, `reserve_inventory` raises `DoesNotExist`
  from `Product.objects.get`. That is also a 500.
- `partial_update` looks the order up (404) before it validates the status
  (400).
- The bulk path fetches products one line at a time, like `create`; it does
  not fetch them all at once first. An empty `orders` list passes validation
  and creates nothing.

## Model

| member | source | states |
|---|---|---|
| `Models.ParseStatus` | exbuy/shop/models.py:42-48 | a stored status key names exactly one of the five statuses, and each status's key parses back to that status; any other text, the display labels included, names none |
| `Models.WithoutProduct` | exbuy/shop/models.py:72 | deleting a product removes exactly the lines that name it and keeps every other line as often as it occurred (multiset counts), so repeated identical lines all survive |
| `Models.OrdersWithoutProduct` | exbuy/shop/models.py:72 | deleting a product keeps every order under its id, with the same user, status and stored total; only the order's lines lose those naming the product |
| `Models.Subtotal` | exbuy/shop/models.py:84-86 | a line's subtotal, quantity times the stored unit price: a single unit costs the unit price, and a line with quantity ≥ 1 at a price ≥ 0 costs at least one unit and never less than zero |
| `Models.ReviewsWithoutProduct` | exbuy/shop/models.py:93 | deleting a product removes exactly the reviews of that product, and leaves the others unchanged |
| `Serializers.FirstInvalidLine` | exbuy/shop/serializers.py:121-122 | returns no position iff every line has quantity ≥ 1; otherwise a line below 1 such that every earlier line is valid |
| `Serializers.ValidateOrder` | exbuy/shop/serializers.py:147-157 | accepts an order request iff it has at least one line and every quantity is ≥ 1; it returns an accepted request unchanged; an empty list is rejected as such, and any other rejection names a line whose quantity is below 1 |
| `Serializers.FirstInvalidOrder` | exbuy/shop/serializers.py:171 | returns no position iff every nested order passes the single-order rules; otherwise a failing order, every order before it valid, and the reason the single-order rules give |
| `Serializers.ValidateBulk` | exbuy/shop/serializers.py:167-176 | accepts a bulk request iff every order passes the single-order rules and there are at most 1000 orders (the cap is inclusive); returns it unchanged; well-formed but longer than 1000 is rejected as too many |
| `Serializers.ValidateReserve` | exbuy/shop/serializers.py:181-186 | accepts a reservation request iff its quantity is ≥ 1; returns it unchanged; a rejection names the quantity given |
| `Serializers.ValidateStatus` | exbuy/shop/serializers.py:160-164 | accepts exactly the keys of the status choices and yields the status whose key was sent |
| `Search.SearchProducts` | exbuy/shop/views.py:102-134 | `search_products`: text, category, minimum price, maximum price and in-stock filters chained in that order; its contract is carried by `SearchFindsExactlyMatches` |
| `Search.ListProducts` | exbuy/shop/views.py:38-74 | `ProductViewSet.get_queryset`: category, minimum price, maximum price and text filters chained in that order; its contract is carried by `ListingIsSearchWithoutStockFilter` |
| `Search.ChainIsConjunction` | exbuy/shop/views.py:109-131 | chaining `.filter` calls keeps the same rows, in the same order, as one pass testing all the filters together |
| `Search.IContainsMeaning` | exbuy/shop/views.py:113-114 | `icontains` holds iff the query occurs at some offset of the text with every character equal up to (ASCII) case |
| `Search.IContainsIgnoresCase` | exbuy/shop/views.py:113-114 | folding the case of either the text or the query does not change whether `icontains` matches |
| `Search.FilterMeanings` | exbuy/shop/views.py:111-131 | each parameter adds its filter only when it is present and non-empty: a case-insensitive substring of name or description, category equality, price ≥ min, price ≤ max, and stock > 0 only for `in_stock` equal to `true` |
| `Search.SearchFindsExactlyMatches` | exbuy/shop/views.py:109-131 | search returns exactly the table's products that satisfy every supplied filter, and never more rows than the table has |
| `Search.ListingIsSearchWithoutStockFilter` | exbuy/shop/views.py:45-63 | the product listing gives the same rows as the search with `in_stock` dropped, even though it applies the filters in another order |
| `Ordering.Step` | exbuy/shop/views.py:184-202 | one turn of the per-line loop: 404 for a missing product, `ValueError` when the stock is below the quantity, else decrement, append a line at the current price and add its subtotal; its contract is carried by the `Run*` rows below |
| `Ordering.Run` | exbuy/shop/views.py:183-202 | the per-line loop of `create`, stopping at the first failure; its properties are `RunKeepsCatalog`, `RunStock`, `RunKeepsStockNonNegative`, `RunSnapshots`, `RunTotals`, `RunSucceedsIff`, `RunErrorNamesCulprit` and `RunFailsAtFirstCulprit` |
| `Ordering.PlaceOrder` | exbuy/shop/views.py:165-213 | `create`: validate, run the loop from the stored products, build a pending order; its contract is carried by `PlacedOrderIsPriced`, `PlaceOrderSucceedsIff` and `PlaceOrderFailure` |
| `Ordering.RunOrders` | exbuy/shop/views.py:243-275 | the outer loop of `bulk_create_orders` over one shared product table, stopping at the first failure; its properties are `BatchIsOneLongOrder`, `BatchSucceedsIff`, `BatchStock` and `BatchOrders` |
| `Ordering.PlaceBatch` | exbuy/shop/views.py:230-280 | `bulk_create_orders`: validate the whole request (400), then `RunOrders`; its contract is carried by the `Batch*` rows and `Shop.Store.BulkCreateOrders` |
| `Ordering.RunKeepsCatalog` | exbuy/shop/views.py:183-202 | after a successful loop every line named an existing product, and only stock changed on any product |
| `Ordering.RunStock` | exbuy/shop/views.py:183-192 | each product's stock drops by exactly the total quantity the lines ask of it |
| `Ordering.RunKeepsStockNonNegative` | exbuy/shop/views.py:186-192 | the loop never drives a stock below zero |
| `Ordering.RunSnapshots` | exbuy/shop/views.py:194-201 | the loop adds one line per requested line, in request order, with the same product and quantity, priced at the product's price |
| `Ordering.RunTotals` | exbuy/shop/views.py:179-202 | the running total grows by exactly the subtotal of each added line |
| `Ordering.RunSucceedsIff` | exbuy/shop/views.py:183-192 | for valid lines, the loop succeeds iff every product exists and each product's total demand, repeated lines included, fits its stock |
| `Ordering.RunErrorNamesCulprit` | exbuy/shop/views.py:184-188 | a failure either names a missing product that some line asks for, or names an existing product whose total demand exceeds its stock |
| `Ordering.RunFailsAtFirstCulprit` | exbuy/shop/views.py:183-188 | the loop stops at the first failing line: the error is that line's own (404 if its product is missing, else the stock shortfall), every earlier line fits, and that line pushes its product's demand past the stock |
| `Ordering.LineOrderDecidesError` | exbuy/shop/views.py:183-188 | with stock 2, the lines (5 of product 1, 1 of missing product 9) fail on stock, and the same lines reversed fail with 404 |
| `Ordering.UpdateStatus` | exbuy/shop/views.py:215-227 | an unknown order id gives 404 whatever the status; otherwise an invalid status key is a 400 naming that key, a valid one succeeds, and it changes only that order's status |
| `Ordering.PlacedOrderIsPriced` | exbuy/shop/views.py:165-213 | a created order is pending and belongs to the requesting user; its lines are the requested lines at the product prices; its total is the sum of its lines' subtotals; each stock drops by the order's demand and stays ≥ 0 |
| `Ordering.PlaceOrderSucceedsIff` | exbuy/shop/views.py:171-192 | an order is created iff the request is valid, every product exists, and no product is asked for more than its stock |
| `Ordering.PlaceOrderFailure` | exbuy/shop/views.py:171-188 | a failed order is a 400 iff the request is invalid; otherwise it is a 404 naming a missing product some line asks for, or a 500 naming a product whose demand exceeds its stock; over a table with stock ≥ 0 it is exactly the error of the first line that fails |
| `Ordering.RepeatedOrderOverdraws` | exbuy/shop/views.py:183-208 | with stock 5, an order for 3 leaves 2 and costs 3 × price; the same order placed again then fails on stock |
| `Ordering.DuplicateLinesOverdraw` | exbuy/shop/views.py:183-192 | an order naming one product twice, 3 each, against a stock of 5 fails on stock: the second line sees the 2 the first one left |
| `Ordering.BatchIsOneLongOrder` | exbuy/shop/views.py:243-275 | later orders in a batch see the stock earlier ones left: the batch changes the products, or fails, exactly as one order holding all its lines would |
| `Ordering.BatchSucceedsIff` | exbuy/shop/views.py:243-269 | a batch of valid orders succeeds iff every product exists and no product is asked for more than its stock across the whole batch |
| `Ordering.BatchStock` | exbuy/shop/views.py:253-260 | a successful batch lowers each stock by the batch's total demand, changes nothing else on products, and keeps stock ≥ 0 |
| `Ordering.BatchOrders` | exbuy/shop/views.py:243-275 | a successful batch creates one order per request, in input order, each the order that request would produce on its own |
| `Ordering.OverdrawnBatchFails` | exbuy/shop/views.py:243-260 | two orders for 3 against a stock of 5 fail together as one batch |
| `Inventory.Reserve` | exbuy/shop/views.py:292-324 | a reservation succeeds iff quantity ≥ 1, the product exists and its stock covers the quantity. On success the stock drops by the quantity to a value ≥ 0, which is reported as `remaining_stock`, and nothing else changes. Otherwise the error is a 400 for validation or shortfall, or DoesNotExist for a missing product |
| `Inventory.NoOversell` | exbuy/shop/views.py:306-317 | over any sequence of reservations, a product's stock ends at its initial stock minus the quantity granted; so it never goes negative and never grants more than the initial stock |
| `Responses.HttpStatus` | exbuy/shop/views.py:184-310 | the status each failure reaches the client with: 400 for validation (`is_valid`) and the reservation shortfall, 404 for `get_object_or_404` and `get_object`, 500 for the unhandled `ValueError` and `DoesNotExist` |
| `Shop.AssembleLines` | exbuy/shop/views.py:182-202 | the imperative loop over an order's lines computes exactly the lines, total and decremented stock that `Ordering.Run` defines |
| `Shop.AssembleBatch` | exbuy/shop/views.py:243-275 | the imperative loop over a batch's orders computes exactly the orders and stock that `Ordering.RunOrders` defines |
| `Shop.PlaceOrderKeepsConsistent` | exbuy/shop/models.py:71-74 | storing a created order keeps every stock ≥ 0, every line's quantity ≥ 1 and every line's product existing |
| `Shop.PlaceBatchKeepsConsistent` | exbuy/shop/views.py:243-280 | storing a successful batch under consecutive ids keeps the database consistent, with one order per request |
| `Shop.Store.CreateOrder` | exbuy/shop/views.py:165-213 | on success, the order is stored under the next id and the products take the decremented stock; on any failure, the store is unchanged and the error is returned |
| `Shop.Store.BulkCreateOrders` | exbuy/shop/views.py:230-280 | on success, `created` is the number of orders and `order_ids` are consecutive new ids in input order, each stored with its order; on any failure, nothing changes |
| `Shop.Store.ReserveInventory` | exbuy/shop/views.py:284-324 | the pessimistic branch and the optimistic branch (any other lock type) both have exactly the effect and reply of `Inventory.Reserve`; orders are untouched |
| `Shop.Store.PartialUpdate` | exbuy/shop/views.py:215-227 | the order table becomes the one `Ordering.UpdateStatus` defines; no product changes, and a failure changes nothing |
| `Shop.Store.DeleteOrder` | exbuy/shop/models.py:71 | deleting an order removes it together with its lines; an unknown id gives 404 and changes nothing |
| `Shop.Store.DeleteProduct` | exbuy/shop/models.py:72 | deleting a product removes it, every order line naming it and every review of it (models.py:93); orders stay, with their stored totals |
| `Shop.Store.ChangePrice` | exbuy/shop/models.py:74 | changing a product's price changes only that product; existing lines keep their unit price, so no subtotal or order total changes |

Every method of `Store` keeps `Valid()`: every stock is ≥ 0, every line
quantity is ≥ 1, every line and review names an existing product, every
rating is in 1..5, and every order id is below the next id. The status of an
order is always one of the five choices, because the `Status` type has no
other value, and a created order starts as `Models.DefaultStatus`, the
pending status (models.py:51), as `Ordering.PlacedOrderIsPriced` states.

## Left out

- Real concurrency. `select_for_update` and the store-side `F('stock') - quantity` update exist to exercise database locking. The model runs requests one at a time, and both branches of `reserve_inventory` are modelled in that setting only.
- Order ids after a rollback: the model gives a failed order's id back. In the code `Order.objects.create` has already drawn an id from the PostgreSQL sequence when a line then fails with a 404 or a `ValueError`, so that id is skipped; a 400 fails before any order is created and skips nothing.
- `max_digits` limits on prices and totals are enforced by the database when saving, so overflow is not modelled.
- 32-bit integer columns are not modelled: ids, stock and quantities are unbounded integers.
- The model's `IContains` folds ASCII letters only; PostgreSQL's `UPPER(...) LIKE UPPER(...)` also folds non-ASCII letters, and that is not modelled.
- Query parameters arrive already parsed. Price bounds arrive as cents. A malformed `min_price` or `max_price` makes Django raise `ValidationError` while `.filter(price__gte=…)` or `.filter(price__lte=…)` builds the lookup, before any query runs; that unhandled 500 is not modelled. DRF's coercion of strings to integers is not modelled either.
- Validation error bodies: DRF's list serializers validate every line and every nested order and report an error for each failing one. The model reports only the first failing position (`FirstInvalidLine`, `FirstInvalidOrder`) and does not model the error bodies; which requests are rejected is the same.
- `ordering` and `optimize`, the serializer field lists, and prefetch and select_related only shape output and queries.
- `top_products` is a database group-by, and its serializer is never used.
- The average rating divides into a float.
- `FileUploadView` and `health_check` echo metadata or return a constant.
- Creating and editing reviews, and creating products, are generic CRUD endpoints outside the write path. The store starts from a given valid table of products and reviews.
- The seeding command and the load-test scripts generate random data and HTTP traffic.
- URL routing and the admin site.
- Timestamps (`created_at`, `updated_at`) and the default ordering by them. The search takes the product rows already in the queryset's order.
