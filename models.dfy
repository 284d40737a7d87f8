/**
 * The shop's database entities (exbuy/shop/models.py).
 *
 * Every money field of the schema is a DecimalField with two fraction digits,
 * so each amount is kept exactly as an integer number of cents.
 */
module Models {
  import opened Results

  /** A row of the product table; `priceCents` is the price times 100. */
  datatype Product = Product(
    name: string,
    priceCents: int,
    stock: int,
    category: string,
    description: string)

  /** The five choices of `Order.status`; no other status is representable. */
  datatype Status = Pending | Processing | Shipped | Delivered | Cancelled

  /** The key stored for each status (the first component of each choice). */
  function StatusKey(s: Status): string
  {
    match s
    case Pending => "pending"
    case Processing => "processing"
    case Shipped => "shipped"
    case Delivered => "delivered"
    case Cancelled => "cancelled"
  }

  /** Status of a freshly created order. */
  const DefaultStatus: Status := Pending

  /**
   * Looks a stored key up among the status choices. A key names exactly one
   * status; anything else, the display labels included, names none.
   */
  function ParseStatus(key: string): (r: Option<Status>)
    ensures r.Some? ==> StatusKey(r.value) == key
    ensures r.None? <==> forall s: Status :: StatusKey(s) != key
    ensures forall s: Status :: StatusKey(s) == key ==> r == Some(s)
  {
    if key == "pending" then Some(Pending)
    else if key == "processing" then Some(Processing)
    else if key == "shipped" then Some(Shipped)
    else if key == "delivered" then Some(Delivered)
    else if key == "cancelled" then Some(Cancelled)
    else None
  }

  /**
   * A line of an order. `unitPriceCents` is stored on the line itself, apart
   * from the product's price; the subtotal is derived, never stored.
   */
  datatype OrderItem = OrderItem(productId: int, quantity: int, unitPriceCents: int)

  /** An order owns its lines: deleting the order deletes them with it. */
  datatype Order = Order(userId: int, status: Status, totalCents: int, items: seq<OrderItem>)

  datatype Review = Review(productId: int, userId: int, rating: int, body: string)

  /**
   * `OrderItem.subtotal`: quantity times the stored unit price. A line that
   * meets its bounds, at a price that is not negative, costs at least one
   * unit and never less than zero.
   */
  function Subtotal(item: OrderItem): (r: int)
    ensures item.quantity >= 1 && item.unitPriceCents >= 0 ==> item.unitPriceCents <= r
    ensures item.quantity >= 0 && item.unitPriceCents >= 0 ==> r >= 0
    ensures item.quantity == 1 ==> r == item.unitPriceCents
  {
    item.quantity * item.unitPriceCents
  }

  /** Sum of the subtotals of a list of lines. */
  function LinesTotal(items: seq<OrderItem>): int
  {
    if items == [] then 0
    else LinesTotal(items[..|items| - 1]) + Subtotal(items[|items| - 1])
  }

  /** Declared bound of `Product.stock` over a whole catalogue. */
  predicate StocksNonNegative(catalog: map<int, Product>)
  {
    forall pid | pid in catalog :: catalog[pid].stock >= 0
  }

  /**
   * Declared bound of `OrderItem.quantity`, and the foreign key of every line
   * pointing at an existing product.
   */
  predicate ItemsWellFormed(catalog: map<int, Product>, items: seq<OrderItem>)
  {
    forall item | item in items :: item.quantity >= 1 && item.productId in catalog
  }

  /** Declared bounds of `Review.rating`. */
  predicate RatingInRange(review: Review)
  {
    1 <= review.rating <= 5
  }

  /**
   * The lines that survive when product `pid` is deleted: the foreign key
   * from a line to its product cascades, so every line naming `pid` goes.
   */
  function WithoutProduct(items: seq<OrderItem>, pid: int): (r: seq<OrderItem>)
    ensures forall item :: item in r <==> item in items && item.productId != pid
    ensures forall item :: multiset(r)[item] == if item.productId == pid then 0 else multiset(items)[item]
    ensures |r| <= |items|
  {
    if items == [] then []
    else
      assert items == [items[0]] + items[1..];
      (if items[0].productId == pid then [] else [items[0]]) + WithoutProduct(items[1..], pid)
  }

  /** Every order, with the lines naming product `pid` cascaded away; the orders themselves stay. */
  function OrdersWithoutProduct(orders: map<int, Order>, pid: int): (r: map<int, Order>)
    ensures r.Keys == orders.Keys
    ensures forall oid | oid in r :: r[oid] == orders[oid].(items := WithoutProduct(orders[oid].items, pid))
  {
    map oid | oid in orders :: orders[oid].(items := WithoutProduct(orders[oid].items, pid))
  }

  /** The reviews that survive when product `pid` is deleted (cascade). */
  function ReviewsWithoutProduct(reviews: map<int, Review>, pid: int): (r: map<int, Review>)
    ensures forall rid :: rid in r <==> rid in reviews && reviews[rid].productId != pid
    ensures forall rid | rid in r :: r[rid] == reviews[rid]
  {
    map rid | rid in reviews && reviews[rid].productId != pid :: reviews[rid]
  }
}
