/**
 * How the write endpoints of exbuy/shop/views.py fail, and the HTTP status
 * each failure reaches the client with.
 */
module Responses {
  import opened Serializers

  datatype Error =
    | BadRequest(reason: ValidationError)  // serializer.is_valid(raise_exception=True)
    | ProductNotFound(productId: int)      // get_object_or_404 raises Http404
    | InsufficientStock(productId: int)    // raise ValueError: not handled, a server error
    | OrderNotFound(orderId: int)          // self.get_object() raises Http404
    | ProductDoesNotExist(productId: int)  // Product.objects.get(...) raises DoesNotExist: a server error
    | StockShortfall(productId: int)       // the explicit 400 response of reserve_inventory

  /** Client errors are 400 (validation, the reservation shortfall) and 404 (missing rows); the rest are 500. */
  function HttpStatus(e: Error): (r: int)
    ensures r == 400 <==> e.BadRequest? || e.StockShortfall?
    ensures r == 404 <==> e.ProductNotFound? || e.OrderNotFound?
    ensures r == 500 <==> e.InsufficientStock? || e.ProductDoesNotExist?
  {
    match e
    case BadRequest(_) => 400
    case ProductNotFound(_) => 404
    case InsufficientStock(_) => 500
    case OrderNotFound(_) => 404
    case ProductDoesNotExist(_) => 500
    case StockShortfall(_) => 400
  }
}
