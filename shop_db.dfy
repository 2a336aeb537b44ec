/** The tables of the Stationery shop (the PERN variant) as one object that
    every request handler reads and updates: products, cart items, orders,
    order items and return requests. Each handler is modelled as one
    atomic step over these tables. */
module ShopDb {
  import opened Common

  /** A product row; `price` is in cents. */
  datatype Product = Product(title: string, description: Option<string>, price: int, stock: int, status: string)

  /** A cart_items row. */
  datatype CartItem = CartItem(id: int, userId: int, productId: int, quantity: int)

  datatype OrderStatus = Pending | InTransit | Delivered | Cancelled | Returned

  /** Cancelled and returned orders are final. */
  predicate Final(s: OrderStatus)
  {
    s == Cancelled || s == Returned
  }

  /** An orders row; `totalPrice` is in cents. */
  datatype Order = Order(userId: int, totalPrice: int, status: OrderStatus)

  /** An order_items row: the product's price is copied at placement time. */
  datatype OrderItem = OrderItem(orderId: int, productId: int, quantity: int, price: int)

  /** `Requested` stands for the returns table's column default, which is
      not part of this model; the handlers only ever write the other three. */
  datatype ReturnStatus = Requested | Approved | Rejected | Processed

  /** A returns row. */
  datatype ReturnRequest = ReturnRequest(orderId: int, userId: int, reason: string, status: ReturnStatus)

  /** The 4xx answers of the handlers. */
  datatype Error =
    | InvalidInput                    // missing or malformed body field (400)
    | ProductNotFound                 // 404
    | InsufficientStock(productId: int) // 400
    | CartItemNotFound                // 404
    | EmptyCart                       // 400
    | OrderNotFound                   // 404
    | Forbidden                       // 403
    | StatusRequired                  // 400
    | InvalidStatus                   // 400
    | FinalStatus                     // 400: the order is cancelled or returned
    | NotPending                      // 400
    | NotDelivered                    // 400
    | ReturnExists                    // 400
    | ReturnNotFound                  // 404
    | InvalidTitle                    // 400
    | InvalidPrice                    // 400
    | InvalidStock                    // 400
    | InvalidProductStatus            // 400
    | ServerError                     // 500: a query the database rejects

  datatype Result<T> = Ok(value: T) | Err(error: Error)

  /** No two cart rows share an id, and no user has two rows for one product. */
  predicate CartKeysDistinct(items: seq<CartItem>)
  {
    forall i, j :: 0 <= i < j < |items| ==>
      items[i].id != items[j].id &&
      (items[i].userId != items[j].userId || items[i].productId != items[j].productId)
  }

  /** Product ids below the counter, prices and stock never negative. */
  predicate ProductsOk(products: map<int, Product>, nextId: int)
  {
    forall id :: id in products ==> 1 <= id < nextId && products[id].price >= 0 && products[id].stock >= 0
  }

  /** Cart row ids below the counter, quantities at least one. */
  predicate CartRowsOk(items: seq<CartItem>, nextId: int)
  {
    forall k :: 0 <= k < |items| ==> 1 <= items[k].id < nextId && items[k].quantity >= 1
  }

  /** Rows taken from a well-formed cart form a well-formed cart. */
  lemma CartRowsFrom(items: seq<CartItem>, sub: seq<CartItem>, nextId: int)
    requires CartRowsOk(items, nextId)
    requires forall it :: it in sub ==> it in items
    ensures CartRowsOk(sub, nextId)
  {
    forall k | 0 <= k < |sub| ensures 1 <= sub[k].id < nextId && sub[k].quantity >= 1 {
      assert sub[k] in items;
    }
  }

  /** No two return requests refer to the same order. */
  predicate OneReturnPerOrder(rs: map<int, ReturnRequest>)
  {
    forall a, b :: a in rs && b in rs && a != b ==> rs[a].orderId != rs[b].orderId
  }

  class Database {
    var products: map<int, Product>
    var cartItems: seq<CartItem>
    var orders: map<int, Order>
    var orderItems: seq<OrderItem>
    var returnRequests: map<int, ReturnRequest>
    var nextProductId: int
    var nextCartItemId: int
    var nextOrderId: int
    var nextReturnId: int
    /** The orders table's column default for `status`; the schema is not
        part of this model, so it is a parameter of the database. */
    const initialOrderStatus: OrderStatus

    /** What every handler keeps: serial ids below their counters, prices
        and stock never negative, cart quantities at least one, one cart
        row per user and product, and at most one return per order, which
        refers to an existing order. */
    ghost predicate Valid()
      reads this
    {
      1 <= nextProductId && 1 <= nextCartItemId && 1 <= nextOrderId && 1 <= nextReturnId &&
      ProductsOk(products, nextProductId) &&
      CartKeysDistinct(cartItems) &&
      CartRowsOk(cartItems, nextCartItemId) &&
      (forall id :: id in orders ==> 1 <= id < nextOrderId) &&
      (forall id :: id in returnRequests ==> 1 <= id < nextReturnId && returnRequests[id].orderId in orders) &&
      OneReturnPerOrder(returnRequests)
    }

    constructor (initialOrderStatus: OrderStatus)
      ensures Valid()
      ensures products == map[] && cartItems == [] && orders == map[] && orderItems == [] && returnRequests == map[]
      ensures this.initialOrderStatus == initialOrderStatus
    {
      products, cartItems, orders, orderItems, returnRequests := map[], [], map[], [], map[];
      nextProductId, nextCartItemId, nextOrderId, nextReturnId := 1, 1, 1, 1;
      this.initialOrderStatus := initialOrderStatus;
    }
  }
}
