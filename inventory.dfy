/**
 * Stock reservation (`reserve_inventory`, exbuy/shop/views.py) as a pure
 * function. Module Shop runs both lock disciplines the endpoint offers and
 * proves each equal to this function.
 */
module Inventory {
  import opened Results
  import opened Models
  import opened Serializers
  import opened Responses
  import opened Ordering

  /** The 200 response: `{product_id, reserved, remaining_stock}`. */
  datatype Reservation = Reservation(productId: int, reserved: int, remainingStock: int)

  /**
   * Validate, fetch the product (a missing one raises DoesNotExist), answer
   * 400 when its stock is below the quantity, else take the quantity off.
   */
  function Reserve(catalog: Catalog, req: ReserveRequest): (r: Result<(Catalog, Reservation), Error>)
    ensures r.Ok? <==> req.quantity >= 1 && req.productId in catalog && catalog[req.productId].stock >= req.quantity
    ensures req.quantity < 1 ==> r == Err(BadRequest(ReserveQuantityBelowMinimum(req.quantity)))
    ensures req.quantity >= 1 && req.productId !in catalog ==> r == Err(ProductDoesNotExist(req.productId))
    ensures req.quantity >= 1 && req.productId in catalog && catalog[req.productId].stock < req.quantity
      ==> r == Err(StockShortfall(req.productId)) && HttpStatus(r.error) == 400
    ensures r.Ok? ==>
      var (after, reply) := r.value;
      && SameCatalog(catalog, after)
      && reply == Reservation(req.productId, req.quantity, after[req.productId].stock)
      && after[req.productId].stock == catalog[req.productId].stock - req.quantity
      && 0 <= after[req.productId].stock < catalog[req.productId].stock
      && forall pid | pid in catalog && pid != req.productId :: after[pid] == catalog[pid]
  {
    match ValidateReserve(req)
    case Err(v) => Err(BadRequest(v))
    case Ok(_) =>
      if req.productId !in catalog then Err(ProductDoesNotExist(req.productId))
      else
        var product := catalog[req.productId];
        if product.stock < req.quantity then Err(StockShortfall(req.productId))
        else
          var after := catalog[req.productId := product.(stock := product.stock - req.quantity)];
          Ok((after, Reservation(req.productId, req.quantity, after[req.productId].stock)))
  }

  /**
   * Reservation requests served one after another, each in its own
   * transaction: a refused one changes nothing. Yields the final products
   * and the granted reservations, in order.
   */
  function ReserveAll(catalog: Catalog, reqs: seq<ReserveRequest>): (Catalog, seq<Reservation>)
  {
    if reqs == [] then (catalog, [])
    else
      var (current, granted) := ReserveAll(catalog, reqs[..|reqs| - 1]);
      match Reserve(current, reqs[|reqs| - 1])
      case Ok((after, reply)) => (after, granted + [reply])
      case Err(_) => (current, granted)
  }

  /** Total quantity granted of product `pid`. */
  function Granted(rs: seq<Reservation>, pid: int): int
  {
    if rs == [] then 0
    else Granted(rs[..|rs| - 1], pid) + (if rs[|rs| - 1].productId == pid then rs[|rs| - 1].reserved else 0)
  }

  /**
   * No overselling: whatever reservations arrive, a product's stock ends
   * at its initial stock minus what was granted of it, never below zero,
   * so the grants never exceed the initial stock.
   */
  lemma {:induction false} NoOversell(catalog: Catalog, reqs: seq<ReserveRequest>, pid: int)
    requires pid in catalog && catalog[pid].stock >= 0
    ensures var (after, granted) := ReserveAll(catalog, reqs);
      && pid in after
      && after[pid].stock == catalog[pid].stock - Granted(granted, pid)
      && after[pid].stock >= 0
      && Granted(granted, pid) <= catalog[pid].stock
    decreases |reqs|
  {
    if reqs != [] {
      var init := reqs[..|reqs| - 1];
      NoOversell(catalog, init, pid);
      var (current, granted) := ReserveAll(catalog, init);
      match Reserve(current, reqs[|reqs| - 1])
      case Ok((after, reply)) =>
        assert (granted + [reply])[..|granted|] == granted;
      case Err(_) =>
    }
  }
}
