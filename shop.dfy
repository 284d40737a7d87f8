/**
 * The order and inventory write path of exbuy/shop/views.py over an
 * in-memory database.
 *
 * Every endpoint runs as one transaction: it works on local copies of the
 * tables and assigns them back to the store only when it succeeds, so a
 * failing request leaves the store exactly as it found it.
 */
module Shop {
  import opened Results
  import opened Models
  import opened Serializers
  import opened Responses
  import opened Ordering
  import opened Inventory

  /** The 201 response of a bulk request: `{created, order_ids}`. */
  datatype BulkReply = BulkReply(created: nat, orderIds: seq<int>)

  /**
   * The loop over one order's lines: fetch each product, check its stock,
   * decrement it, snapshot its price into a new line and add to the total.
   * Works on a copy of the products; changes nothing itself.
   */
  method AssembleLines(catalog: Catalog, lines: seq<ItemRequest>) returns (r: Result<Acc, Error>)
    ensures r == Run(Start(catalog), lines)
  {
    var products := catalog;
    var items: seq<OrderItem> := [];
    var total := 0;
    var i := 0;
    while i < |lines|
      invariant 0 <= i <= |lines|
      invariant Run(Start(catalog), lines[..i]) == Ok(Acc(products, items, total))
    {
      var line := lines[i];
      assert lines[..i + 1][..i] == lines[..i];
      if line.productId !in products {
        RunFailureSticks(Start(catalog), lines, i + 1);
        return Err(ProductNotFound(line.productId));
      }
      var product := products[line.productId];
      if product.stock < line.quantity {
        RunFailureSticks(Start(catalog), lines, i + 1);
        return Err(InsufficientStock(line.productId));
      }
      product := product.(stock := product.stock - line.quantity);
      products := products[line.productId := product];
      items := items + [OrderItem(line.productId, line.quantity, product.priceCents)];
      total := total + product.priceCents * line.quantity;
      i := i + 1;
    }
    assert lines[..i] == lines;
    return Ok(Acc(products, items, total));
  }

  /**
   * The loop over the orders of a bulk request, in input order, over one
   * shared copy of the products. Changes nothing itself.
   */
  method AssembleBatch(catalog: Catalog, reqs: seq<OrderRequest>) returns (r: Result<Batch, Error>)
    ensures r == RunOrders(catalog, reqs)
  {
    var working := catalog;
    var created: seq<Order> := [];
    var k := 0;
    while k < |reqs|
      invariant 0 <= k <= |reqs|
      invariant RunOrders(catalog, reqs[..k]) == Ok(Batch(working, created))
    {
      var req := reqs[k];
      assert reqs[..k + 1][..k] == reqs[..k];
      var run := AssembleLines(working, req.items);
      if run.Err? {
        BatchFailureSticks(catalog, reqs, k + 1);
        return Err(run.error);
      }
      created := created + [Order(req.userId, DefaultStatus, run.value.total, run.value.items)];
      working := run.value.catalog;
      k := k + 1;
    }
    assert reqs[..k] == reqs;
    return Ok(Batch(working, created));
  }

  /** The declared bounds of every row and the integrity of every foreign key. */
  ghost predicate Consistent(products: Catalog, orders: map<int, Order>, nextOrderId: int, reviews: map<int, Review>)
  {
    && nextOrderId >= 1
    && StocksNonNegative(products)
    && (forall oid | oid in orders :: 1 <= oid < nextOrderId && ItemsWellFormed(products, orders[oid].items))
    && (forall rid | rid in reviews :: RatingInRange(reviews[rid]) && reviews[rid].productId in products)
  }

  /** Storing a successful order keeps the database consistent. */
  lemma PlaceOrderKeepsConsistent(products: Catalog, orders: map<int, Order>, nextOrderId: int, reviews: map<int, Review>, req: OrderRequest)
    requires Consistent(products, orders, nextOrderId, reviews)
    requires PlaceOrder(products, req).Ok?
    ensures var placed := PlaceOrder(products, req).value;
      Consistent(placed.catalog, orders[nextOrderId := placed.order], nextOrderId + 1, reviews)
  {
    PlacedOrderIsPriced(products, req);
    SnapshotWellFormed(products, req.items);
  }

  /** Storing a successful batch under consecutive ids keeps the database consistent. */
  lemma PlaceBatchKeepsConsistent(products: Catalog, orders: map<int, Order>, nextOrderId: int, reviews: map<int, Review>, reqs: seq<OrderRequest>)
    requires Consistent(products, orders, nextOrderId, reviews)
    requires forall k | 0 <= k < |reqs| :: ValidOrderRequest(reqs[k])
    requires RunOrders(products, reqs).Ok?
    ensures var batch := RunOrders(products, reqs).value;
      && |batch.orders| == |reqs|
      && Consistent(batch.catalog, orders + Numbered(nextOrderId, batch.orders), nextOrderId + |reqs|, reviews)
  {
    var batch := RunOrders(products, reqs).value;
    BatchOrders(products, reqs);
    BatchStock(products, reqs);
    var added := Numbered(nextOrderId, batch.orders);
    forall id | id in added ensures ItemsWellFormed(batch.catalog, added[id].items) {
      var j := id - nextOrderId;
      assert added[id] == batch.orders[j] == Priced(products, reqs[j]);
      assert ValidOrderRequest(reqs[j]);
      SnapshotWellFormed(products, reqs[j].items);
    }
  }

  /** Deleting a product together with its cascades keeps the database consistent. */
  lemma DeleteProductKeepsConsistent(products: Catalog, orders: map<int, Order>, nextOrderId: int, reviews: map<int, Review>, pid: int)
    requires Consistent(products, orders, nextOrderId, reviews)
    ensures Consistent(products - {pid}, OrdersWithoutProduct(orders, pid), nextOrderId, ReviewsWithoutProduct(reviews, pid))
  {
  }

  class Store {
    /** The product table. */
    var products: Catalog
    /** The order table; each order holds its lines. */
    var orders: map<int, Order>
    /** The id the next created order receives. */
    var nextOrderId: int
    /** The review table. */
    var reviews: map<int, Review>

    ghost predicate Valid()
      reads this
    {
      Consistent(products, orders, nextOrderId, reviews)
    }

    /** A database holding the given products and reviews and no orders yet. */
    constructor (catalog: Catalog, initialReviews: map<int, Review>)
      requires StocksNonNegative(catalog)
      requires forall rid | rid in initialReviews ::
        RatingInRange(initialReviews[rid]) && initialReviews[rid].productId in catalog
      ensures Valid()
      ensures products == catalog && orders == map[] && nextOrderId == 1 && reviews == initialReviews
    {
      products := catalog;
      orders := map[];
      nextOrderId := 1;
      reviews := initialReviews;
    }

    /**
     * `POST /orders`. On success the new order is stored under the next id
     * and the products take the decremented stock; on any failure nothing
     * changes.
     */
    method CreateOrder(req: OrderRequest) returns (r: Result<int, Error>)
      requires Valid()
      modifies this
      ensures Valid()
      ensures reviews == old(reviews)
      ensures match PlaceOrder(old(products), req)
        case Ok(placed) =>
          && r == Ok(old(nextOrderId))
          && products == placed.catalog
          && orders == old(orders)[old(nextOrderId) := placed.order]
          && nextOrderId == old(nextOrderId) + 1
        case Err(e) =>
          && r == Err(e)
          && products == old(products) && orders == old(orders) && nextOrderId == old(nextOrderId)
    {
      var valid := ValidateOrder(req);
      if valid.Err? {
        return Err(BadRequest(valid.error));
      }
      var orderId := nextOrderId;
      var run := AssembleLines(products, req.items);
      if run.Err? {
        return Err(run.error);
      }
      var a := run.value;
      var order := Order(req.userId, DefaultStatus, a.total, a.items);
      PlaceOrderKeepsConsistent(products, orders, nextOrderId, reviews, req);
      products := a.catalog;
      orders := orders[orderId := order];
      nextOrderId := nextOrderId + 1;
      r := Ok(orderId);
    }

    /**
     * `POST /orders/bulk`. The orders are placed in input order over one
     * shared copy of the products; either all are stored, under
     * consecutive ids, or none is and nothing changes.
     */
    method BulkCreateOrders(req: BulkRequest) returns (r: Result<BulkReply, Error>)
      requires Valid()
      modifies this
      ensures Valid()
      ensures reviews == old(reviews)
      ensures match PlaceBatch(old(products), req)
        case Ok(batch) =>
          && r == Ok(BulkReply(|req.orders|, ConsecutiveIds(old(nextOrderId), |req.orders|)))
          && products == batch.catalog
          && orders == old(orders) + Numbered(old(nextOrderId), batch.orders)
          && nextOrderId == old(nextOrderId) + |req.orders|
        case Err(e) =>
          && r == Err(e)
          && products == old(products) && orders == old(orders) && nextOrderId == old(nextOrderId)
    {
      var valid := ValidateBulk(req);
      if valid.Err? {
        return Err(BadRequest(valid.error));
      }
      var run := AssembleBatch(products, req.orders);
      if run.Err? {
        return Err(run.error);
      }
      var created := run.value.orders;
      PlaceBatchKeepsConsistent(products, orders, nextOrderId, reviews, req.orders);
      var ids := ConsecutiveIds(nextOrderId, |created|);
      products := run.value.catalog;
      orders := orders + Numbered(nextOrderId, created);
      nextOrderId := nextOrderId + |created|;
      r := Ok(BulkReply(|created|, ids));
    }

    /**
     * `POST /inventory/reserve?lock_type=...`. The pessimistic branch locks
     * the row, decrements the copy in hand and saves it; any other lock type
     * runs the store-side update `stock = stock - quantity` and re-reads the
     * row. Run one at a time, both have the effect of `Reserve`.
     */
    method ReserveInventory(req: ReserveRequest, lockType: string) returns (r: Result<Reservation, Error>)
      requires Valid()
      modifies this
      ensures Valid()
      ensures orders == old(orders) && reviews == old(reviews) && nextOrderId == old(nextOrderId)
      ensures match Reserve(old(products), req)
        case Ok((after, reply)) => r == Ok(reply) && products == after
        case Err(e) => r == Err(e) && products == old(products)
    {
      var valid := ValidateReserve(req);
      if valid.Err? {
        return Err(BadRequest(valid.error));
      }
      if req.productId !in products {
        return Err(ProductDoesNotExist(req.productId));
      }
      var product := products[req.productId];
      if product.stock < req.quantity {
        return Err(StockShortfall(req.productId));
      }
      if lockType == "pessimistic" {
        product := product.(stock := product.stock - req.quantity);
        products := products[req.productId := product];
      } else {
        var stored := products[req.productId];
        products := products[req.productId := stored.(stock := stored.stock - req.quantity)];
        product := products[req.productId];
      }
      r := Ok(Reservation(req.productId, req.quantity, product.stock));
    }

    /**
     * `PATCH /orders/{id}`: sets the order's status to the validated choice;
     * no other order field, no line and no product changes.
     */
    method PartialUpdate(orderId: int, req: StatusRequest) returns (r: Result<Order, Error>)
      requires Valid()
      modifies this
      ensures Valid()
      ensures products == old(products) && reviews == old(reviews) && nextOrderId == old(nextOrderId)
      ensures match UpdateStatus(old(orders), orderId, req)
        case Ok(updated) => orders == updated && r == Ok(updated[orderId])
        case Err(e) => orders == old(orders) && r == Err(e)
    {
      if orderId !in orders {
        return Err(OrderNotFound(orderId));
      }
      var order := orders[orderId];
      var valid := ValidateStatus(req);
      if valid.Err? {
        return Err(BadRequest(valid.error));
      }
      order := order.(status := valid.value);
      orders := orders[orderId := order];
      r := Ok(order);
    }

    /** Deleting an order deletes its lines with it; products keep their stock. */
    method DeleteOrder(orderId: int) returns (r: Result<(), Error>)
      requires Valid()
      modifies this
      ensures Valid()
      ensures products == old(products) && reviews == old(reviews) && nextOrderId == old(nextOrderId)
      ensures orderId in old(orders) ==> r == Ok(()) && orders == old(orders) - {orderId}
      ensures orderId !in old(orders) ==> r == Err(OrderNotFound(orderId)) && orders == old(orders)
    {
      if orderId !in orders {
        return Err(OrderNotFound(orderId));
      }
      orders := orders - {orderId};
      r := Ok(());
    }

    /**
     * Deleting a product deletes, by cascade, every order line and every
     * review naming it. The orders themselves stay, with their stored totals.
     */
    method DeleteProduct(productId: int) returns (r: Result<(), Error>)
      requires Valid()
      modifies this
      ensures Valid()
      ensures nextOrderId == old(nextOrderId)
      ensures productId in old(products) ==>
        && r == Ok(())
        && products == old(products) - {productId}
        && orders.Keys == old(orders).Keys
        && (forall oid | oid in orders ::
              orders[oid] == old(orders)[oid].(items := WithoutProduct(old(orders)[oid].items, productId)))
        && reviews == ReviewsWithoutProduct(old(reviews), productId)
      ensures productId !in old(products) ==>
        && r == Err(ProductNotFound(productId))
        && products == old(products) && orders == old(orders) && reviews == old(reviews)
    {
      if productId !in products {
        return Err(ProductNotFound(productId));
      }
      DeleteProductKeepsConsistent(products, orders, nextOrderId, reviews, productId);
      products := products - {productId};
      orders := OrdersWithoutProduct(orders, productId);
      reviews := ReviewsWithoutProduct(reviews, productId);
      r := Ok(());
    }

    /**
     * Changing a product's price touches that product only: existing lines
     * keep the unit price they were created with, so no subtotal or order
     * total changes.
     */
    method ChangePrice(productId: int, priceCents: int) returns (r: Result<(), Error>)
      requires Valid()
      modifies this
      ensures Valid()
      ensures orders == old(orders) && reviews == old(reviews) && nextOrderId == old(nextOrderId)
      ensures productId in old(products) ==>
        r == Ok(()) && products == old(products)[productId := old(products)[productId].(priceCents := priceCents)]
      ensures productId !in old(products) ==> r == Err(ProductNotFound(productId)) && products == old(products)
    {
      if productId !in products {
        return Err(ProductNotFound(productId));
      }
      products := products[productId := products[productId].(priceCents := priceCents)];
      r := Ok(());
    }
  }
}
