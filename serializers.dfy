/**
 * Request validation of the write endpoints (exbuy/shop/serializers.py).
 * Each validator either hands back its input unchanged or rejects it with
 * the reason; nothing here touches the database.
 */
module Serializers {
  import opened Results
  import opened Models

  /** Largest number of orders one bulk request may carry. */
  const MaxBulkOrders: nat := 1000

  /** One requested line: `{product_id, quantity}`. */
  datatype ItemRequest = ItemRequest(productId: int, quantity: int)

  /** `{user_id, items}`. */
  datatype OrderRequest = OrderRequest(userId: int, items: seq<ItemRequest>)

  /** `{orders}`. */
  datatype BulkRequest = BulkRequest(orders: seq<OrderRequest>)

  /** `{product_id, quantity}` of a reservation. */
  datatype ReserveRequest = ReserveRequest(productId: int, quantity: int)

  /** `{status}` of a status update, as the client sent it. */
  datatype StatusRequest = StatusRequest(status: string)

  datatype ValidationError =
    | QuantityBelowMinimum(line: nat)
    | ReserveQuantityBelowMinimum(quantity: int)
    | EmptyItems
    | OrderRejected(index: nat, reason: ValidationError)
    | TooManyOrders(count: nat)
    | UnknownStatus(given: string)

  // ---------- the rules, stated declaratively ----------

  predicate ValidLine(line: ItemRequest)
  {
    line.quantity >= 1
  }

  predicate ValidLines(lines: seq<ItemRequest>)
  {
    forall i | 0 <= i < |lines| :: ValidLine(lines[i])
  }

  predicate ValidOrderRequest(req: OrderRequest)
  {
    |req.items| > 0 && ValidLines(req.items)
  }

  predicate ValidBulkRequest(req: BulkRequest)
  {
    && (forall k | 0 <= k < |req.orders| :: ValidOrderRequest(req.orders[k]))
    && |req.orders| <= MaxBulkOrders
  }

  // ---------- the validators ----------

  /** Position of the first line whose quantity is below 1, if any. */
  function FirstInvalidLine(lines: seq<ItemRequest>): (r: Option<nat>)
    ensures r.None? <==> ValidLines(lines)
    ensures r.Some? ==> r.value < |lines| && !ValidLine(lines[r.value])
    ensures r.Some? ==> forall j | 0 <= j < r.value :: ValidLine(lines[j])
  {
    if lines == [] then None
    else if !ValidLine(lines[0]) then Some(0)
    else match FirstInvalidLine(lines[1..])
      case None => None
      case Some(i) => Some(i + 1)
  }

  /**
   * `OrderCreateSerializer`: every line's fields are checked first, then
   * `validate_items` refuses an empty list.
   */
  function ValidateOrder(req: OrderRequest): (r: Result<OrderRequest, ValidationError>)
    ensures r.Ok? <==> ValidOrderRequest(req)
    ensures r.Ok? ==> r.value == req
    ensures r.Err? && req.items == [] ==> r.error == EmptyItems
    ensures r.Err? && req.items != [] ==>
      r.error.QuantityBelowMinimum? && r.error.line < |req.items| && !ValidLine(req.items[r.error.line])
  {
    match FirstInvalidLine(req.items)
    case Some(i) => Err(QuantityBelowMinimum(i))
    case None => if req.items == [] then Err(EmptyItems) else Ok(req)
  }

  /** Position and reason of the first order of a bulk request that fails validation. */
  function FirstInvalidOrder(orders: seq<OrderRequest>): (r: Option<(nat, ValidationError)>)
    ensures r.None? <==> forall k | 0 <= k < |orders| :: ValidOrderRequest(orders[k])
    ensures r.Some? ==> r.value.0 < |orders| && ValidateOrder(orders[r.value.0]) == Err(r.value.1)
    ensures r.Some? ==> forall j | 0 <= j < r.value.0 :: ValidOrderRequest(orders[j])
  {
    if orders == [] then None
    else match ValidateOrder(orders[0])
      case Err(e) => Some((0, e))
      case Ok(_) =>
        match FirstInvalidOrder(orders[1..])
        case None => None
        case Some((k, e)) => Some((k + 1, e))
  }

  /**
   * `BulkOrderCreateSerializer`: each nested order is validated by the
   * single-order rules; only when all pass does `validate_orders` apply
   * the size cap.
   */
  function ValidateBulk(req: BulkRequest): (r: Result<BulkRequest, ValidationError>)
    ensures r.Ok? <==> ValidBulkRequest(req)
    ensures r.Ok? ==> r.value == req
    ensures (forall k | 0 <= k < |req.orders| :: ValidOrderRequest(req.orders[k])) && |req.orders| > MaxBulkOrders
      ==> r == Err(TooManyOrders(|req.orders|))
  {
    match FirstInvalidOrder(req.orders)
    case Some((k, e)) => Err(OrderRejected(k, e))
    case None =>
      if |req.orders| > MaxBulkOrders then Err(TooManyOrders(|req.orders|)) else Ok(req)
  }

  /** `InventoryReserveSerializer`. */
  function ValidateReserve(req: ReserveRequest): (r: Result<ReserveRequest, ValidationError>)
    ensures r.Ok? <==> req.quantity >= 1
    ensures r.Ok? ==> r.value == req
    ensures r.Err? ==> r.error == ReserveQuantityBelowMinimum(req.quantity)
  {
    if req.quantity < 1 then Err(ReserveQuantityBelowMinimum(req.quantity)) else Ok(req)
  }

  /** `OrderStatusUpdateSerializer`: only a key of the status choices is accepted. */
  function ValidateStatus(req: StatusRequest): (r: Result<Status, ValidationError>)
    ensures r.Ok? <==> exists s: Status :: StatusKey(s) == req.status
    ensures r.Ok? ==> StatusKey(r.value) == req.status
    ensures r.Err? ==> r.error == UnknownStatus(req.status)
  {
    match ParseStatus(req.status)
    case Some(s) => Ok(s)
    case None => Err(UnknownStatus(req.status))
  }
}
