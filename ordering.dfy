/**
 * What order creation does to the database, as pure functions
 * (`OrderViewSet.create`, `bulk_create_orders` and
 * `OrderViewSet.partial_update` in exbuy/shop/views.py), and what it
 * guarantees. The imperative versions in module Shop are proved equal to
 * these functions.
 */
module Ordering {
  import opened Results
  import opened Models
  import opened Serializers
  import opened Responses

  /** The product table, by id. */
  type Catalog = map<int, Product>

  /**
   * The state of the loop over an order's lines: the product table as the
   * transaction sees it, the lines built so far and the running total.
   */
  datatype Acc = Acc(catalog: Catalog, items: seq<OrderItem>, total: int)

  function Start(catalog: Catalog): Acc
  {
    Acc(catalog, [], 0)
  }

  /**
   * One turn of the loop: fetch the product (404 when missing), refuse a
   * quantity above its current stock, decrement the stock, and append a line
   * priced at the product's current price.
   */
  function Step(a: Acc, line: ItemRequest): Result<Acc, Error>
  {
    if line.productId !in a.catalog then Err(ProductNotFound(line.productId))
    else
      var product := a.catalog[line.productId];
      if product.stock < line.quantity then Err(InsufficientStock(line.productId))
      else Ok(Acc(
        a.catalog[line.productId := product.(stock := product.stock - line.quantity)],
        a.items + [OrderItem(line.productId, line.quantity, product.priceCents)],
        a.total + product.priceCents * line.quantity))
  }

  /** The loop over `lines`, in request order, stopping at the first failure. */
  function Run(a: Acc, lines: seq<ItemRequest>): Result<Acc, Error>
  {
    if lines == [] then Ok(a)
    else match Run(a, lines[..|lines| - 1])
      case Err(e) => Err(e)
      case Ok(b) => Step(b, lines[|lines| - 1])
  }

  datatype Placement = Placement(catalog: Catalog, order: Order)

  /**
   * `OrderViewSet.create`: validate, run the loop from the stored products,
   * and build a pending order holding the lines and their total. On an
   * error nothing is kept (the method is atomic).
   */
  function PlaceOrder(catalog: Catalog, req: OrderRequest): Result<Placement, Error>
  {
    match ValidateOrder(req)
    case Err(v) => Err(BadRequest(v))
    case Ok(_) =>
      match Run(Start(catalog), req.items)
      case Err(e) => Err(e)
      case Ok(a) => Ok(Placement(a.catalog, Order(req.userId, DefaultStatus, a.total, a.items)))
  }

  datatype Batch = Batch(catalog: Catalog, orders: seq<Order>)

  /** The orders of a bulk request, in input order, over one shared product table. */
  function RunOrders(catalog: Catalog, reqs: seq<OrderRequest>): Result<Batch, Error>
  {
    if reqs == [] then Ok(Batch(catalog, []))
    else match RunOrders(catalog, reqs[..|reqs| - 1])
      case Err(e) => Err(e)
      case Ok(b) =>
        var req := reqs[|reqs| - 1];
        match Run(Start(b.catalog), req.items)
        case Err(e) => Err(e)
        case Ok(a) => Ok(Batch(a.catalog, b.orders + [Order(req.userId, DefaultStatus, a.total, a.items)]))
  }

  /** `bulk_create_orders`: validate the whole request, then place every order or none. */
  function PlaceBatch(catalog: Catalog, req: BulkRequest): Result<Batch, Error>
  {
    match ValidateBulk(req)
    case Err(v) => Err(BadRequest(v))
    case Ok(_) => RunOrders(catalog, req.orders)
  }

  /**
   * `OrderViewSet.partial_update`: the order is looked up first (404), then
   * the status is validated (400); only that order's status changes.
   */
  function UpdateStatus(orders: map<int, Order>, orderId: int, req: StatusRequest): (r: Result<map<int, Order>, Error>)
    ensures orderId !in orders ==> r == Err(OrderNotFound(orderId))
    ensures r.Ok? <==> orderId in orders && exists s: Status :: StatusKey(s) == req.status
    ensures orderId in orders && (forall s: Status :: StatusKey(s) != req.status) ==>
      r == Err(BadRequest(UnknownStatus(req.status)))
    ensures r.Ok? ==> r.value.Keys == orders.Keys && StatusKey(r.value[orderId].status) == req.status
    ensures r.Ok? ==> r.value[orderId] == orders[orderId].(status := r.value[orderId].status)
    ensures r.Ok? ==> forall oid | oid in orders && oid != orderId :: r.value[oid] == orders[oid]
  {
    if orderId !in orders then Err(OrderNotFound(orderId))
    else match ValidateStatus(req)
      case Err(v) => Err(BadRequest(v))
      case Ok(s) => Ok(orders[orderId := orders[orderId].(status := s)])
  }

  // ---------- specification vocabulary ----------

  /** Every line names a product of the table. */
  predicate LinesKnown(catalog: Catalog, lines: seq<ItemRequest>)
  {
    forall i | 0 <= i < |lines| :: lines[i].productId in catalog
  }

  /** The lines an order over `lines` should hold: same products and quantities, in order, priced from `catalog`. */
  function Snapshot(catalog: Catalog, lines: seq<ItemRequest>): (r: seq<OrderItem>)
    requires LinesKnown(catalog, lines)
  {
    seq(|lines|, i requires 0 <= i < |lines| =>
      OrderItem(lines[i].productId, lines[i].quantity, catalog[lines[i].productId].priceCents))
  }

  /** The order `req` should produce against `catalog`. */
  function Priced(catalog: Catalog, req: OrderRequest): Order
    requires LinesKnown(catalog, req.items)
  {
    var items := Snapshot(catalog, req.items);
    Order(req.userId, DefaultStatus, LinesTotal(items), items)
  }

  /** Total quantity the lines request of product `pid`. */
  function Demand(lines: seq<ItemRequest>, pid: int): int
  {
    if lines == [] then 0
    else Demand(lines[..|lines| - 1], pid)
         + (if lines[|lines| - 1].productId == pid then lines[|lines| - 1].quantity else 0)
  }

  /** All lines of all orders, in processing order. */
  function Flatten(reqs: seq<OrderRequest>): seq<ItemRequest>
  {
    if reqs == [] then [] else Flatten(reqs[..|reqs| - 1]) + reqs[|reqs| - 1].items
  }

  /** Same products with the same fields; only stock may differ. */
  predicate SameCatalog(before: Catalog, after: Catalog)
  {
    && before.Keys == after.Keys
    && forall pid | pid in before :: after[pid] == before[pid].(stock := after[pid].stock)
  }

  /** Every line names a product, and no product is asked for more than its stock in total. */
  predicate Fits(catalog: Catalog, lines: seq<ItemRequest>)
  {
    LinesKnown(catalog, lines) && forall pid | pid in catalog :: Demand(lines, pid) <= catalog[pid].stock
  }

  /** The error a line raises when it is the one that fails: 404 for a missing product, else the stock shortfall. */
  function LineError(catalog: Catalog, line: ItemRequest): Error
  {
    if line.productId !in catalog then ProductNotFound(line.productId) else InsufficientStock(line.productId)
  }

  /** What a run does to the product table, or how it fails. */
  function Effect(r: Result<Acc, Error>): Result<Catalog, Error>
  {
    match r
    case Ok(a) => Ok(a.catalog)
    case Err(e) => Err(e)
  }

  function BatchEffect(r: Result<Batch, Error>): Result<Catalog, Error>
  {
    match r
    case Ok(b) => Ok(b.catalog)
    case Err(e) => Err(e)
  }

  // ---------- the loop over one order's lines ----------

  /** Every line of a successful run names a product; the run changes stock and nothing else. */
  lemma {:induction false} RunKeepsCatalog(a: Acc, lines: seq<ItemRequest>)
    requires Run(a, lines).Ok?
    ensures LinesKnown(a.catalog, lines)
    ensures SameCatalog(a.catalog, Run(a, lines).value.catalog)
    decreases |lines|
  {
    if lines != [] {
      var init := lines[..|lines| - 1];
      RunKeepsCatalog(a, init);
      assert forall i | 0 <= i < |init| :: lines[i] == init[i];
    }
  }

  /** Each product's stock drops by exactly the quantity the lines request of it. */
  lemma {:induction false} RunStock(a: Acc, lines: seq<ItemRequest>)
    requires Run(a, lines).Ok?
    ensures forall pid | pid in a.catalog ::
      pid in Run(a, lines).value.catalog &&
      Run(a, lines).value.catalog[pid].stock == a.catalog[pid].stock - Demand(lines, pid)
    decreases |lines|
  {
    if lines != [] {
      var init := lines[..|lines| - 1];
      RunStock(a, init);
      RunKeepsCatalog(a, init);
    }
  }

  /** A run never drives a stock below zero. */
  lemma {:induction false} RunKeepsStockNonNegative(a: Acc, lines: seq<ItemRequest>)
    requires Run(a, lines).Ok?
    requires StocksNonNegative(a.catalog)
    ensures StocksNonNegative(Run(a, lines).value.catalog)
    decreases |lines|
  {
    if lines != [] {
      RunKeepsStockNonNegative(a, lines[..|lines| - 1]);
    }
  }

  /** The run appends one line per request line, in order, each priced at the product's price. */
  lemma {:induction false} RunSnapshots(a: Acc, lines: seq<ItemRequest>)
    requires Run(a, lines).Ok?
    ensures LinesKnown(a.catalog, lines)
    ensures Run(a, lines).value.items == a.items + Snapshot(a.catalog, lines)
    decreases |lines|
  {
    RunKeepsCatalog(a, lines);
    if lines != [] {
      var init := lines[..|lines| - 1];
      RunSnapshots(a, init);
      RunKeepsCatalog(a, init);
      assert forall i | 0 <= i < |init| :: lines[i] == init[i];
      assert Snapshot(a.catalog, lines) == Snapshot(a.catalog, init) + [Snapshot(a.catalog, lines)[|init|]];
    }
  }

  /** The running total grows by exactly the subtotal of each appended line. */
  lemma {:induction false} RunTotals(a: Acc, lines: seq<ItemRequest>)
    requires Run(a, lines).Ok?
    ensures Run(a, lines).value.total - LinesTotal(Run(a, lines).value.items) == a.total - LinesTotal(a.items)
    decreases |lines|
  {
    if lines != [] {
      var init := lines[..|lines| - 1];
      RunTotals(a, init);
      var b := Run(a, init).value;
      var c := Run(a, lines).value;
      assert c == Step(b, lines[|lines| - 1]).value;
      assert c.items == b.items + [c.items[|c.items| - 1]];
      assert LinesTotal(c.items) == LinesTotal(b.items) + Subtotal(c.items[|c.items| - 1]);
      assert c.items[..|c.items| - 1] == b.items;
    }
  }

  /**
   * Lines are checked one after the other against the stock left by the
   * lines before them, so a run of validated lines succeeds exactly when
   * every product exists and no product is asked for more than its stock
   * in total, repeated lines included.
   */
  lemma {:induction false} RunSucceedsIff(a: Acc, lines: seq<ItemRequest>)
    requires StocksNonNegative(a.catalog)
    requires ValidLines(lines)
    ensures Run(a, lines).Ok? <==>
      LinesKnown(a.catalog, lines) && forall pid | pid in a.catalog :: Demand(lines, pid) <= a.catalog[pid].stock
    decreases |lines|
  {
    if Run(a, lines).Ok? {
      RunKeepsCatalog(a, lines);
      RunStock(a, lines);
      RunKeepsStockNonNegative(a, lines);
    } else if lines != [] && LinesKnown(a.catalog, lines) && forall pid | pid in a.catalog :: Demand(lines, pid) <= a.catalog[pid].stock {
      var init, last := lines[..|lines| - 1], lines[|lines| - 1];
      assert forall i | 0 <= i < |init| :: lines[i] == init[i];
      assert ValidLine(last);
      RunSucceedsIff(a, init);
      RunKeepsCatalog(a, init);
      RunStock(a, init);
      assert false;
    }
  }

  /**
   * A failure names its cause: a missing product that some line asks for,
   * or an existing product asked for more than its stock in total.
   */
  lemma {:induction false} RunErrorNamesCulprit(a: Acc, lines: seq<ItemRequest>)
    requires ValidLines(lines)
    requires Run(a, lines).Err?
    ensures Run(a, lines).error.ProductNotFound? || Run(a, lines).error.InsufficientStock?
    ensures Run(a, lines).error.ProductNotFound? ==>
      var pid := Run(a, lines).error.productId;
      pid !in a.catalog && exists i | 0 <= i < |lines| :: lines[i].productId == pid
    ensures Run(a, lines).error.InsufficientStock? ==>
      var pid := Run(a, lines).error.productId;
      pid in a.catalog && Demand(lines, pid) > a.catalog[pid].stock
    decreases |lines|
  {
    var init, last := lines[..|lines| - 1], lines[|lines| - 1];
    assert forall i | 0 <= i < |init| :: lines[i] == init[i];
    assert ValidLine(last);
    if Run(a, init).Err? {
      RunErrorNamesCulprit(a, init);
    } else {
      RunKeepsCatalog(a, init);
      RunStock(a, init);
    }
  }

  /** Once a prefix of the lines fails, the whole run fails the same way. */
  lemma {:induction false} RunFailureSticks(a: Acc, lines: seq<ItemRequest>, k: nat)
    requires k <= |lines|
    requires Run(a, lines[..k]).Err?
    ensures Run(a, lines) == Run(a, lines[..k])
    decreases |lines| - k
  {
    if k == |lines| {
      assert lines[..k] == lines;
    } else {
      var init := lines[..|lines| - 1];
      assert init[..k] == lines[..k];
      RunFailureSticks(a, init, k);
    }
  }

  /** Running two lists of lines one after the other is running their concatenation. */
  lemma {:induction false} RunAppend(a: Acc, xs: seq<ItemRequest>, ys: seq<ItemRequest>)
    ensures Run(a, xs + ys) == match Run(a, xs) case Err(e) => Err(e) case Ok(b) => Run(b, ys)
    decreases |ys|
  {
    if ys == [] {
      assert xs + ys == xs;
    } else {
      var init := ys[..|ys| - 1];
      assert (xs + ys)[..|xs + ys| - 1] == xs + init;
      RunAppend(a, xs, init);
    }
  }

  /** What a run does to the products, and how it fails, depends only on the products. */
  lemma {:induction false} RunEffectIgnoresLines(a: Acc, items: seq<OrderItem>, total: int, lines: seq<ItemRequest>)
    ensures Effect(Run(a, lines)) == Effect(Run(Acc(a.catalog, items, total), lines))
    decreases |lines|
  {
    if lines != [] {
      RunEffectIgnoresLines(a, items, total, lines[..|lines| - 1]);
    }
  }

  // ---------- single orders ----------

  /**
   * A created order is pending, belongs to the requesting user, holds one
   * line per requested line in request order with the product's price as
   * unit price, and its total is the sum of its lines' subtotals. Each
   * product's stock dropped by exactly what the order asks of it; nothing
   * else about the products changed.
   */
  lemma PlacedOrderIsPriced(catalog: Catalog, req: OrderRequest)
    requires PlaceOrder(catalog, req).Ok?
    ensures ValidOrderRequest(req) && LinesKnown(catalog, req.items)
    ensures PlaceOrder(catalog, req).value.order == Priced(catalog, req)
    ensures SameCatalog(catalog, PlaceOrder(catalog, req).value.catalog)
    ensures forall pid | pid in catalog ::
      PlaceOrder(catalog, req).value.catalog[pid].stock == catalog[pid].stock - Demand(req.items, pid)
    ensures StocksNonNegative(catalog) ==> StocksNonNegative(PlaceOrder(catalog, req).value.catalog)
  {
    RunKeepsCatalog(Start(catalog), req.items);
    RunSnapshots(Start(catalog), req.items);
    RunTotals(Start(catalog), req.items);
    RunStock(Start(catalog), req.items);
    assert [] + Snapshot(catalog, req.items) == Snapshot(catalog, req.items);
    if StocksNonNegative(catalog) {
      RunKeepsStockNonNegative(Start(catalog), req.items);
    }
  }

  /**
   * An order is created exactly when the request is valid, every product
   * exists and none is asked for more than its stock.
   */
  lemma PlaceOrderSucceedsIff(catalog: Catalog, req: OrderRequest)
    requires StocksNonNegative(catalog)
    ensures PlaceOrder(catalog, req).Ok? <==>
      && ValidOrderRequest(req)
      && LinesKnown(catalog, req.items)
      && forall pid | pid in catalog :: Demand(req.items, pid) <= catalog[pid].stock
  {
    if ValidOrderRequest(req) {
      RunSucceedsIff(Start(catalog), req.items);
    }
  }

  /**
   * The loop stops at the first line that fails: a failure is raised by a
   * line `i` such that the lines before it fit, and that line either names a
   * missing product (404) or pushes its product's demand past the stock.
   * Request order therefore decides between the 404 and the 500.
   */
  lemma {:induction false} RunFailsAtFirstCulprit(a: Acc, lines: seq<ItemRequest>)
    requires StocksNonNegative(a.catalog)
    requires ValidLines(lines)
    requires Run(a, lines).Err?
    ensures exists i | 0 <= i < |lines| ::
      && Fits(a.catalog, lines[..i])
      && Run(a, lines).error == LineError(a.catalog, lines[i])
      && (lines[i].productId in a.catalog ==>
            Demand(lines[..i + 1], lines[i].productId) > a.catalog[lines[i].productId].stock)
    decreases |lines|
  {
    var n := |lines|;
    var init, last := lines[..n - 1], lines[n - 1];
    assert forall i | 0 <= i < |init| :: lines[i] == init[i];
    if Run(a, init).Err? {
      RunFailsAtFirstCulprit(a, init);
      var i :| && 0 <= i < |init|
        && Fits(a.catalog, init[..i])
        && Run(a, init).error == LineError(a.catalog, init[i])
        && (init[i].productId in a.catalog ==>
              Demand(init[..i + 1], init[i].productId) > a.catalog[init[i].productId].stock);
      assert init[..i] == lines[..i] && init[..i + 1] == lines[..i + 1] && init[i] == lines[i];
    } else {
      var b := Run(a, init).value;
      assert Run(a, lines) == Step(b, last);
      RunSucceedsIff(a, init);
      RunKeepsCatalog(a, init);
      assert lines[..n - 1] == init && lines[..n] == lines;
      if last.productId in a.catalog {
        RunStock(a, init);
        assert Demand(lines, last.productId) == Demand(init, last.productId) + last.quantity;
      }
    }
  }

  /**
   * A failed order reports why: an invalid request (400), a missing product
   * some line names (404), or a product asked for more than its stock (the
   * unhandled ValueError, 500); for a valid request over a consistent table,
   * the error is the one raised by the first line that fails.
   */
  lemma PlaceOrderFailure(catalog: Catalog, req: OrderRequest)
    requires PlaceOrder(catalog, req).Err?
    ensures var e := PlaceOrder(catalog, req).error;
      && (e.BadRequest? <==> !ValidOrderRequest(req))
      && (e.ProductNotFound? ==>
            && HttpStatus(e) == 404
            && e.productId !in catalog
            && exists i | 0 <= i < |req.items| :: req.items[i].productId == e.productId)
      && (e.InsufficientStock? ==>
            && HttpStatus(e) == 500
            && e.productId in catalog
            && Demand(req.items, e.productId) > catalog[e.productId].stock)
      && (e.BadRequest? || e.ProductNotFound? || e.InsufficientStock?)
      && (ValidOrderRequest(req) && StocksNonNegative(catalog) ==>
            exists i | 0 <= i < |req.items| ::
              && Fits(catalog, req.items[..i])
              && e == LineError(catalog, req.items[i])
              && (req.items[i].productId in catalog ==>
                    Demand(req.items[..i + 1], req.items[i].productId) > catalog[req.items[i].productId].stock))
  {
    if ValidOrderRequest(req) {
      RunErrorNamesCulprit(Start(catalog), req.items);
      if StocksNonNegative(catalog) {
        RunFailsAtFirstCulprit(Start(catalog), req.items);
      }
    }
  }

  // ---------- bulk orders ----------

  lemma {:induction false} FlattenValid(reqs: seq<OrderRequest>)
    requires forall k | 0 <= k < |reqs| :: ValidOrderRequest(reqs[k])
    ensures ValidLines(Flatten(reqs))
    decreases |reqs|
  {
    if reqs != [] {
      var init := reqs[..|reqs| - 1];
      assert forall k | 0 <= k < |init| :: init[k] == reqs[k];
      FlattenValid(init);
      assert ValidOrderRequest(reqs[|reqs| - 1]);
      var xs, ys := Flatten(init), reqs[|reqs| - 1].items;
      forall i | 0 <= i < |xs + ys| ensures ValidLine((xs + ys)[i]) {
        if i < |xs| { assert (xs + ys)[i] == xs[i]; } else { assert (xs + ys)[i] == ys[i - |xs|]; }
      }
    }
  }

  /**
   * Later orders of a batch see the stock earlier ones left: the batch does
   * to the products exactly what one order holding all its lines would do,
   * and fails exactly when, and the same way as, that order would.
   */
  lemma {:induction false} BatchIsOneLongOrder(catalog: Catalog, reqs: seq<OrderRequest>)
    ensures BatchEffect(RunOrders(catalog, reqs)) == Effect(Run(Start(catalog), Flatten(reqs)))
    decreases |reqs|
  {
    if reqs != [] {
      var init, req := reqs[..|reqs| - 1], reqs[|reqs| - 1];
      BatchIsOneLongOrder(catalog, init);
      RunAppend(Start(catalog), Flatten(init), req.items);
      match Run(Start(catalog), Flatten(init))
      case Err(e) =>
      case Ok(b) =>
        RunEffectIgnoresLines(b, [], 0, req.items);
    }
  }

  /**
   * A batch succeeds exactly when every product it names exists and no
   * product is asked for more than its stock across all its orders.
   */
  lemma BatchSucceedsIff(catalog: Catalog, reqs: seq<OrderRequest>)
    requires StocksNonNegative(catalog)
    requires forall k | 0 <= k < |reqs| :: ValidOrderRequest(reqs[k])
    ensures RunOrders(catalog, reqs).Ok? <==>
      LinesKnown(catalog, Flatten(reqs)) && forall pid | pid in catalog :: Demand(Flatten(reqs), pid) <= catalog[pid].stock
  {
    BatchIsOneLongOrder(catalog, reqs);
    FlattenValid(reqs);
    RunSucceedsIff(Start(catalog), Flatten(reqs));
  }

  /** A successful batch decrements each stock by the batch's total demand, never below zero. */
  lemma BatchStock(catalog: Catalog, reqs: seq<OrderRequest>)
    requires RunOrders(catalog, reqs).Ok?
    ensures SameCatalog(catalog, RunOrders(catalog, reqs).value.catalog)
    ensures forall pid | pid in catalog ::
      RunOrders(catalog, reqs).value.catalog[pid].stock == catalog[pid].stock - Demand(Flatten(reqs), pid)
    ensures StocksNonNegative(catalog) ==> StocksNonNegative(RunOrders(catalog, reqs).value.catalog)
  {
    BatchIsOneLongOrder(catalog, reqs);
    RunKeepsCatalog(Start(catalog), Flatten(reqs));
    RunStock(Start(catalog), Flatten(reqs));
    if StocksNonNegative(catalog) {
      RunKeepsStockNonNegative(Start(catalog), Flatten(reqs));
    }
  }

  lemma SnapshotSameCatalog(before: Catalog, after: Catalog, lines: seq<ItemRequest>)
    requires SameCatalog(before, after)
    requires LinesKnown(after, lines)
    ensures LinesKnown(before, lines) && Snapshot(after, lines) == Snapshot(before, lines)
  {
  }

  /** The order a run over a request's lines builds, against a table with the same prices, is the priced order. */
  lemma RunBuildsPricedOrder(catalog: Catalog, current: Catalog, req: OrderRequest)
    requires SameCatalog(catalog, current)
    requires Run(Start(current), req.items).Ok?
    ensures LinesKnown(catalog, req.items)
    ensures var a := Run(Start(current), req.items).value;
      Order(req.userId, DefaultStatus, a.total, a.items) == Priced(catalog, req)
  {
    RunSnapshots(Start(current), req.items);
    RunTotals(Start(current), req.items);
    SnapshotSameCatalog(catalog, current, req.items);
    assert [] + Snapshot(current, req.items) == Snapshot(current, req.items);
  }

  /**
   * A successful batch creates one order per request, in input order, each
   * exactly the order the request would create on its own against the
   * product prices (which the batch does not change).
   */
  lemma {:induction false} BatchOrders(catalog: Catalog, reqs: seq<OrderRequest>)
    requires RunOrders(catalog, reqs).Ok?
    ensures |RunOrders(catalog, reqs).value.orders| == |reqs|
    ensures forall k | 0 <= k < |reqs| ::
      LinesKnown(catalog, reqs[k].items) && RunOrders(catalog, reqs).value.orders[k] == Priced(catalog, reqs[k])
    decreases |reqs|
  {
    if reqs != [] {
      var init, req := reqs[..|reqs| - 1], reqs[|reqs| - 1];
      BatchOrders(catalog, init);
      BatchStock(catalog, init);
      var b := RunOrders(catalog, init).value;
      RunBuildsPricedOrder(catalog, b.catalog, req);
      var orders := RunOrders(catalog, reqs).value.orders;
      assert orders == b.orders + [Priced(catalog, req)];
      forall k | 0 <= k < |reqs|
        ensures LinesKnown(catalog, reqs[k].items) && orders[k] == Priced(catalog, reqs[k])
      {
        if k < |init| {
          assert reqs[k] == init[k] && orders[k] == b.orders[k];
        }
      }
    }
  }

  /** Once a prefix of a batch fails, the whole batch fails the same way. */
  lemma {:induction false} BatchFailureSticks(catalog: Catalog, reqs: seq<OrderRequest>, k: nat)
    requires k <= |reqs|
    requires RunOrders(catalog, reqs[..k]).Err?
    ensures RunOrders(catalog, reqs) == RunOrders(catalog, reqs[..k])
    decreases |reqs| - k
  {
    if k == |reqs| {
      assert reqs[..k] == reqs;
    } else {
      var init := reqs[..|reqs| - 1];
      assert init[..k] == reqs[..k];
      BatchFailureSticks(catalog, init, k);
    }
  }

  /** The lines of a priced order satisfy the declared bounds and point at existing products. */
  lemma SnapshotWellFormed(catalog: Catalog, lines: seq<ItemRequest>)
    requires LinesKnown(catalog, lines) && ValidLines(lines)
    ensures ItemsWellFormed(catalog, Snapshot(catalog, lines))
  {
  }

  /**
   * Product 1 has stock 5. An order for 3 succeeds, leaves 2 and costs 3
   * times the price; the same order placed again then fails on stock and
   * leaves the 2 in place.
   */
  lemma RepeatedOrderOverdraws()
    ensures var catalog := map[1 := Product("A", 1250, 5, "books", "")];
      var req := OrderRequest(7, [ItemRequest(1, 3)]);
      && PlaceOrder(catalog, req).Ok?
      && PlaceOrder(catalog, req).value.catalog[1].stock == 2
      && PlaceOrder(catalog, req).value.order.totalCents == 3 * 1250
      && PlaceOrder(PlaceOrder(catalog, req).value.catalog, req) == Err(InsufficientStock(1))
  {
  }

  /**
   * One order naming product 1 twice, 3 each, against a stock of 5: the
   * second line is checked against the 2 the first line left, so the order
   * fails although each line alone would fit.
   */
  lemma DuplicateLinesOverdraw()
    ensures var catalog := map[1 := Product("A", 1250, 5, "books", "")];
      PlaceOrder(catalog, OrderRequest(7, [ItemRequest(1, 3), ItemRequest(1, 3)])) == Err(InsufficientStock(1))
  {
    var catalog := map[1 := Product("A", 1250, 5, "books", "")];
    var line := ItemRequest(1, 3);
    var lines := [line, line];
    assert ValidLine(line);
    assert lines[..1] == [line] && [line][..0] == [];
    var left := catalog[1 := catalog[1].(stock := 2)];
    assert Run(Start(catalog), [line]) == Step(Start(catalog), line);
    assert Step(Start(catalog), line).Ok? && Step(Start(catalog), line).value.catalog == left;
    assert Step(Step(Start(catalog), line).value, line) == Err(InsufficientStock(1));
  }

  /**
   * Product 1 has stock 2; product 9 does not exist. Asking for 5 of product
   * 1 and then 1 of product 9 fails on stock (500); the same lines in the
   * other order fail with 404.
   */
  lemma LineOrderDecidesError()
    ensures var catalog := map[1 := Product("A", 1250, 2, "books", "")];
      && Run(Start(catalog), [ItemRequest(1, 5), ItemRequest(9, 1)]) == Err(InsufficientStock(1))
      && Run(Start(catalog), [ItemRequest(9, 1), ItemRequest(1, 5)]) == Err(ProductNotFound(9))
  {
    var catalog := map[1 := Product("A", 1250, 2, "books", "")];
    var over, missing := ItemRequest(1, 5), ItemRequest(9, 1);
    assert [over, missing][..1] == [over] && [over][..0] == [];
    assert [missing, over][..1] == [missing] && [missing][..0] == [];
    assert Run(Start(catalog), [over]) == Step(Start(catalog), over) == Err(InsufficientStock(1));
    assert Run(Start(catalog), [missing]) == Step(Start(catalog), missing) == Err(ProductNotFound(9));
  }

  /**
   * The same two orders sent as one batch fail as a whole: together they
   * ask for 6 of a stock of 5.
   */
  lemma OverdrawnBatchFails()
    ensures var catalog := map[1 := Product("A", 1250, 5, "books", "")];
      var req := OrderRequest(7, [ItemRequest(1, 3)]);
      RunOrders(catalog, [req, req]) == Err(InsufficientStock(1))
  {
    var catalog := map[1 := Product("A", 1250, 5, "books", "")];
    var req := OrderRequest(7, [ItemRequest(1, 3)]);
    var line := ItemRequest(1, 3);
    assert [line][..0] == [];
    var first := Run(Start(catalog), req.items);
    assert first == Step(Start(catalog), line);
    var left := catalog[1 := catalog[1].(stock := 2)];
    assert first.Ok? && first.value.catalog == left;
    assert [req][..0] == [];
    assert RunOrders(catalog, [req]).Ok? && RunOrders(catalog, [req]).value.catalog == left;
    assert Run(Start(left), req.items) == Step(Start(left), line) == Err(InsufficientStock(1));
    assert [req, req][..1] == [req];
  }

  /** Order ids are handed out consecutively from `first`, in input order. */
  function ConsecutiveIds(first: int, n: nat): (ids: seq<int>)
    ensures |ids| == n
    ensures forall k | 0 <= k < n :: ids[k] == first + k
  {
    seq(n, k => first + k)
  }

  /** The orders of a batch keyed by the ids they receive. */
  function Numbered(first: int, orders: seq<Order>): (m: map<int, Order>)
    ensures forall id :: id in m <==> first <= id < first + |orders|
    ensures forall k | 0 <= k < |orders| :: m[first + k] == orders[k]
  {
    if orders == [] then map[]
    else Numbered(first, orders[..|orders| - 1])[first + |orders| - 1 := orders[|orders| - 1]]
  }
}
