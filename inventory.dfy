/** The records the purchase workflow of the inventory service reads and writes. */
module Inventory {

  datatype Option<T> = None | Some(value: T)

  /** A catalog record: availability flag, current stock and the per-purchase bounds. */
  datatype Product = Product(
    productId: int,
    name: string,
    enabled: bool,
    inInventory: int,
    min: int,
    max: int)

  /** One requested line of a purchase: a product id and a quantity. */
  datatype LineItem = LineItem(productId: int, quantity: int)

  /** The incoming purchase request: header fields and the requested line items. */
  datatype BuyRequest = BuyRequest(
    date: string,
    clientIdType: string,
    clientId: string,
    clientName: string,
    products: seq<LineItem>)

  /** A saved purchase record; its line items reference products by id only. */
  datatype Buy = Buy(
    date: string,
    clientIdType: string,
    clientId: string,
    clientName: string,
    products: seq<LineItem>)

  /** The product catalog, keyed by product id. */
  type Store = map<int, Product>

  /** Every record is stored under its own id, as an entity repository keeps it. */
  predicate WellKeyed(store: Store)
  {
    forall id | id in store :: store[id].productId == id
  }

  /** The purchase record built from a request: same header, same line items. */
  function BuyOf(request: BuyRequest): (b: Buy)
    ensures b.products == request.products
    ensures (b.date, b.clientIdType, b.clientId, b.clientName)
      == (request.date, request.clientIdType, request.clientId, request.clientName)
  {
    Buy(request.date, request.clientIdType, request.clientId, request.clientName, request.products)
  }
}
