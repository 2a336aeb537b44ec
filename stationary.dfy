/** The tables of the Stationary_E-Commerce backend: products and
    single-product orders, held in one `Store` object that every handler
    updates in place. Each handler is one atomic step over the store. */
module StationaryDb {

  const InStock: string := "in-stock"
  const Sold: string := "sold"

  /** The status column derived from stock: `stock > 0 ? 'in-stock' : 'sold'`
      on create and update, `stock <= 0 ? 'sold' : 'in-stock'` in the ledger. */
  function StatusFor(stock: int): (s: string)
    ensures s == InStock <==> stock > 0
    ensures s == Sold <==> stock <= 0
  {
    if stock > 0 then InStock else Sold
  }

  datatype Product = Product(name: string, description: string, price: int, stock: int, status: string)

  /** An order row; the two timestamps are modelled as "has been stamped". */
  datatype Order = Order(userId: int, productId: int, quantity: int, status: string,
                         deliveryStamped: bool, returnStamped: bool)

  datatype Error =
    | ProductNotFound   // "Product not found"
    | OutOfStock        // "Out of stock"
    | InvalidStatus     // "Invalid status value"
    | OrderNotFound     // "Order not found"
    | NotDelivered      // "Only delivered orders can be returned"
    | NotInTransit      // "Only in-transit orders can be canceled"
    | OrderClosed       // the corrected status update: the order is already canceled or returned

  datatype Result<T> = Ok(value: T) | Err(error: Error)

  class Store {
    var products: map<int, Product>
    var orders: map<int, Order>
    var nextProductId: int
    var nextOrderId: int
    /** `VALID_ORDER_STATUSES`, from a constants file that is not part of this model. */
    const validStatuses: set<string>
    /** The orders table's column default for `status`, not part of this model either. */
    const defaultStatus: string

    /** Ids come from serial counters, and every product's status agrees with its stock. */
    ghost predicate Valid()
      reads this
    {
      1 <= nextProductId && 1 <= nextOrderId &&
      (forall id :: id in products ==> 1 <= id < nextProductId) &&
      (forall id :: id in products ==> products[id].status == StatusFor(products[id].stock)) &&
      (forall id :: id in orders ==> 1 <= id < nextOrderId)
    }

    constructor (validStatuses: set<string>, defaultStatus: string)
      ensures Valid()
      ensures products == map[] && orders == map[]
      ensures this.validStatuses == validStatuses && this.defaultStatus == defaultStatus
    {
      products, orders := map[], map[];
      nextProductId, nextOrderId := 1, 1;
      this.validStatuses := validStatuses;
      this.defaultStatus := defaultStatus;
    }
  }
}

/** productController.js: the stock ledger and product maintenance. */
module StationaryProducts {
  import opened StationaryDb

  /** The row written by `updateStockStatus`: stock moved by `delta`,
      clamped at zero, and the status recomputed. */
  function ApplyDelta(p: Product, delta: int): (q: Product)
    ensures q.stock >= 0
    ensures p.stock + delta >= 0 ==> q.stock == p.stock + delta
    ensures p.stock + delta < 0 ==> q.stock == 0
    ensures q.status == StatusFor(q.stock)
    ensures q.name == p.name && q.description == p.description && q.price == p.price
  {
    var stock := if p.stock + delta < 0 then 0 else p.stock + delta;
    p.(stock := stock, status := if stock <= 0 then Sold else InStock)
  }

  /** A debit that the stock covers, followed by the matching credit,
      restores a consistent product exactly. */
  lemma DebitThenCredit(p: Product, q: int)
    requires 0 <= q <= p.stock && p.status == StatusFor(p.stock)
    ensures ApplyDelta(ApplyDelta(p, -q), q) == p
  {
  }

  /** Credits are not capped: a debit larger than the stock is clamped, but
      the matching credit adds the whole quantity back, so stock grows. */
  lemma ClampedDebitInflates(p: Product, q: int)
    requires 0 <= p.stock < q
    ensures ApplyDelta(ApplyDelta(p, -q), q).stock == q > p.stock
  {
  }

  /** `updateStockStatus(productId, quantityChange)`. */
  method UpdateStockStatus(store: Store, productId: int, quantityChange: int) returns (r: Result<()>)
    requires store.Valid()
    modifies store`products
    ensures store.Valid()
    ensures productId !in old(store.products) ==>
      r == Err(ProductNotFound) && store.products == old(store.products)
    ensures productId in old(store.products) ==>
      r == Ok(()) &&
      store.products == old(store.products)[productId := ApplyDelta(old(store.products)[productId], quantityChange)]
  {
    if productId !in store.products {
      return Err(ProductNotFound);
    }
    var product := store.products[productId];
    var stock := product.stock + quantityChange;
    if stock < 0 {
      stock := 0;
    }
    var status := if stock <= 0 then Sold else InStock;
    store.products := store.products[productId := product.(stock := stock, status := status)];
    r := Ok(());
  }

  /** `createProduct`: inserts a row whose status is derived from its stock. */
  method CreateProduct(store: Store, name: string, description: string, price: int, stock: int)
    returns (id: int)
    requires store.Valid()
    modifies store`products, store`nextProductId
    ensures store.Valid()
    ensures id !in old(store.products)
    ensures store.products == old(store.products)[id := Product(name, description, price, stock, StatusFor(stock))]
  {
    id := store.nextProductId;
    store.products := store.products[id := Product(name, description, price, stock, StatusFor(stock))];
    store.nextProductId := id + 1;
  }

  /** `updateProduct`: replaces every column of an existing row, status derived from stock. */
  method UpdateProduct(store: Store, id: int, name: string, description: string, price: int, stock: int)
    returns (r: Result<()>)
    requires store.Valid()
    modifies store`products
    ensures store.Valid()
    ensures id !in old(store.products) ==>
      r == Err(ProductNotFound) && store.products == old(store.products)
    ensures id in old(store.products) ==>
      r == Ok(()) &&
      store.products == old(store.products)[id := Product(name, description, price, stock, StatusFor(stock))]
  {
    if id !in store.products {
      return Err(ProductNotFound);
    }
    store.products := store.products[id := Product(name, description, price, stock, StatusFor(stock))];
    r := Ok(());
  }

  /** `deleteProduct`: removes exactly the named row. */
  method DeleteProduct(store: Store, id: int) returns (r: Result<()>)
    requires store.Valid()
    modifies store`products
    ensures store.Valid()
    ensures id !in old(store.products) ==>
      r == Err(ProductNotFound) && store.products == old(store.products)
    ensures id in old(store.products) ==>
      r == Ok(()) && store.products == old(store.products) - {id}
  {
    if id !in store.products {
      return Err(ProductNotFound);
    }
    store.products := store.products - {id};
    r := Ok(());
  }
}

/** orderController.js: single-product orders and the stock they move. */
module StationaryOrders {
  import opened StationaryDb
  import opened StationaryProducts

  const Delivered: string := "delivered"
  const Returned: string := "returned"
  const InTransit: string := "in-transit"
  const Canceled: string := "canceled"

  /** The order row after `updateOrderStatus` sets `status`. */
  function WithStatus(o: Order, status: string): (p: Order)
    ensures p.status == status
    ensures p.userId == o.userId && p.productId == o.productId && p.quantity == o.quantity
    // "delivered" stamps the delivery date, "returned" the return date
    ensures status == Delivered ==> p.deliveryStamped && p.returnStamped == o.returnStamped
    ensures status == Returned ==> p.returnStamped && p.deliveryStamped == o.deliveryStamped
    // any other status stamps neither
    ensures status != Delivered && status != Returned ==>
      p.deliveryStamped == o.deliveryStamped && p.returnStamped == o.returnStamped
  {
    if status == Delivered then o.(status := status, deliveryStamped := true)
    else if status == Returned then o.(status := status, returnStamped := true)
    else o.(status := status)
  }

  /** A canceled or returned order: its quantity has gone back to stock. */
  predicate Final(status: string)
  {
    status == Canceled || status == Returned
  }

  /** The two tables the order handlers change. */
  datatype Tables = Tables(products: map<int, Product>, orders: map<int, Order>)

  /** `updateStockStatus(order.product_id, order.quantity)`: the order's
      quantity goes back to its product, when the product still exists. */
  function Credit(products: map<int, Product>, o: Order): (ps: map<int, Product>)
    ensures ps.Keys == products.Keys
    ensures forall id :: id in products && id != o.productId ==> ps[id] == products[id]
    ensures o.productId in products && products[o.productId].stock + o.quantity >= 0 ==>
      ps[o.productId].stock == products[o.productId].stock + o.quantity
  {
    if o.productId in products then products[o.productId := ApplyDelta(products[o.productId], o.quantity)]
    else products
  }

  /** `cancelOrder` on the tables: an in-transit order becomes canceled and
      its quantity is credited; any other order, or a missing one (whose
      handler fails before writing), leaves both tables as they are. */
  function CancelStep(t: Tables, id: int): (u: Tables)
    ensures u.orders.Keys == t.orders.Keys
    ensures forall j :: j in t.orders && j != id ==> u.orders[j] == t.orders[j]
    ensures id !in t.orders || t.orders[id].status != InTransit ==> u == t
    ensures id in t.orders && t.orders[id].status == InTransit ==> u.orders[id].status == Canceled
  {
    if id in t.orders && t.orders[id].status == InTransit then
      Tables(Credit(t.products, t.orders[id]), t.orders[id := t.orders[id].(status := Canceled)])
    else t
  }

  /** `returnOrder` on the tables: a delivered order becomes returned, with
      its return date stamped, and its quantity is credited; otherwise
      nothing changes. */
  function ReturnStep(t: Tables, id: int): (u: Tables)
    ensures u.orders.Keys == t.orders.Keys
    ensures forall j :: j in t.orders && j != id ==> u.orders[j] == t.orders[j]
    ensures id !in t.orders || t.orders[id].status != Delivered ==> u == t
    ensures id in t.orders && t.orders[id].status == Delivered ==> u.orders[id].status == Returned
  {
    if id in t.orders && t.orders[id].status == Delivered then
      Tables(Credit(t.products, t.orders[id]), t.orders[id := t.orders[id].(status := Returned, returnStamped := true)])
    else t
  }

  /** `updateOrderStatus` on the orders table as written: any listed status
      is set on any existing order, canceled and returned ones included. */
  function StatusStepAsWritten(validStatuses: set<string>, orders: map<int, Order>, id: int, status: string)
    : (os: map<int, Order>)
    ensures os.Keys == orders.Keys
    ensures forall j :: j in orders && j != id ==> os[j] == orders[j]
    ensures id in orders && status in validStatuses ==> os[id].status == status
    ensures status !in validStatuses ==> os == orders
  {
    if status in validStatuses && id in orders then orders[id := WithStatus(orders[id], status)] else orders
  }

  /** The status update with the guard the order rules need: a canceled or
      returned order keeps its status, so its quantity cannot be credited
      a second time. */
  function StatusStep(validStatuses: set<string>, orders: map<int, Order>, id: int, status: string)
    : (os: map<int, Order>)
    ensures os.Keys == orders.Keys
    ensures forall j :: j in orders && j != id ==> os[j] == orders[j]
    ensures id in orders && Final(orders[id].status) ==> os == orders
    ensures id in orders && !Final(orders[id].status) && status in validStatuses ==> os[id].status == status
    ensures status !in validStatuses ==> os == orders
  {
    if status in validStatuses && id in orders && !Final(orders[id].status) then
      orders[id := WithStatus(orders[id], status)]
    else orders
  }

  /** A request to one of the order handlers. */
  datatype Op = SetStatus(id: int, status: string) | Cancel(id: int) | Return(id: int)

  /** One request, with the corrected status update. */
  function Step(validStatuses: set<string>, t: Tables, op: Op): Tables
  {
    match op
    case SetStatus(id, status) => t.(orders := StatusStep(validStatuses, t.orders, id, status))
    case Cancel(id) => CancelStep(t, id)
    case Return(id) => ReturnStep(t, id)
  }

  /** A run of requests, one after the other. */
  function Run(validStatuses: set<string>, t: Tables, ops: seq<Op>): Tables
    decreases |ops|
  {
    if ops == [] then t else Run(validStatuses, Step(validStatuses, t, ops[0]), ops[1..])
  }

  /** With the corrected status update, every request that names a
      canceled or returned order leaves both tables unchanged: no credit. */
  lemma FinalStepNoOp(validStatuses: set<string>, t: Tables, op: Op)
    requires op.id in t.orders && Final(t.orders[op.id].status)
    ensures Step(validStatuses, t, op) == t
  {
  }

  /** With the corrected status update, a canceled or returned order stays
      exactly as it is through any run of requests, so its quantity is
      credited at most once. */
  lemma {:induction false} FinalOrderFrozen(validStatuses: set<string>, t: Tables, ops: seq<Op>, id: int)
    requires id in t.orders && Final(t.orders[id].status)
    ensures id in Run(validStatuses, t, ops).orders
    ensures Run(validStatuses, t, ops).orders[id] == t.orders[id]
    decreases |ops|
  {
    if ops != [] {
      var t1 := Step(validStatuses, t, ops[0]);
      assert id in t1.orders && t1.orders[id] == t.orders[id];
      FinalOrderFrozen(validStatuses, t1, ops[1..], id);
    }
  }

  /** Pen 1 had 5 in stock; order 1 took 2 of them and is in transit. As
      written, cancel, set back to in-transit, cancel again: the 2 are
      credited twice and the stock ends at 7. With the corrected update the
      status change is refused and the stock stays at 5. */
  lemma DoubleCreditAsWritten()
    ensures var t0 := Tables(map[1 := Product("pen", "", 100, 3, InStock)], map[1 := Order(7, 1, 2, InTransit, false, false)]);
      var t1 := CancelStep(t0, 1);
      && CancelStep(t1.(orders := StatusStepAsWritten({InTransit}, t1.orders, 1, InTransit)), 1).products[1].stock == 7
      && CancelStep(t1.(orders := StatusStep({InTransit}, t1.orders, 1, InTransit)), 1).products[1].stock == 5
  {
    var t0 := Tables(map[1 := Product("pen", "", 100, 3, InStock)], map[1 := Order(7, 1, 2, InTransit, false, false)]);
    var t1 := CancelStep(t0, 1);
    assert t1.products[1].stock == 5 && t1.orders[1].status == Canceled;
    var t2 := t1.(orders := StatusStepAsWritten({InTransit}, t1.orders, 1, InTransit));
    assert t2.orders[1].status == InTransit && t2.products[1].stock == 5;
  }

  /** `placeOrder`: checks the stock, inserts the order, debits the stock. */
  method PlaceOrder(store: Store, userId: int, productId: int, quantity: int) returns (r: Result<int>)
    requires store.Valid()
    modifies store`orders, store`nextOrderId, store`products
    ensures store.Valid()
    ensures (productId !in old(store.products) || old(store.products)[productId].stock < quantity) ==>
      r == Err(OutOfStock) &&
      store.orders == old(store.orders) && store.products == old(store.products)
    ensures productId in old(store.products) && old(store.products)[productId].stock >= quantity ==>
      r.Ok? && r.value !in old(store.orders) &&
      store.orders == old(store.orders)[r.value := Order(userId, productId, quantity, store.defaultStatus, false, false)] &&
      store.products == old(store.products)[productId := ApplyDelta(old(store.products)[productId], -quantity)] &&
      store.products[productId].stock == old(store.products)[productId].stock - quantity >= 0 &&
      store.products[productId].status == StatusFor(store.products[productId].stock)
  {
    if productId !in store.products || store.products[productId].stock < quantity {
      return Err(OutOfStock);
    }
    var orderId := store.nextOrderId;
    store.orders := store.orders[orderId := Order(userId, productId, quantity, store.defaultStatus, false, false)];
    store.nextOrderId := orderId + 1;
    var _ := UpdateStockStatus(store, productId, -quantity);
    r := Ok(orderId);
  }

  /** `updateOrderStatus`: sets any status from the configured list,
      stamping dates, on an order that is not already canceled or returned. */
  method UpdateOrderStatus(store: Store, id: int, status: string) returns (r: Result<()>)
    requires store.Valid()
    modifies store`orders
    ensures store.Valid()
    ensures store.orders == StatusStep(store.validStatuses, old(store.orders), id, status)
    ensures status !in store.validStatuses ==>
      r == Err(InvalidStatus) && store.orders == old(store.orders)
    ensures status in store.validStatuses && id !in old(store.orders) ==>
      r == Err(OrderNotFound) && store.orders == old(store.orders)
    ensures status in store.validStatuses && id in old(store.orders) && Final(old(store.orders)[id].status) ==>
      r == Err(OrderClosed) && store.orders == old(store.orders)
    ensures status in store.validStatuses && id in old(store.orders) && !Final(old(store.orders)[id].status) ==>
      r == Ok(()) && store.orders == old(store.orders)[id := WithStatus(old(store.orders)[id], status)]
  {
    if status !in store.validStatuses {
      return Err(InvalidStatus);
    }
    if id !in store.orders {
      return Err(OrderNotFound);
    }
    if store.orders[id].status == Canceled || store.orders[id].status == Returned {
      return Err(OrderClosed);
    }
    store.orders := store.orders[id := WithStatus(store.orders[id], status)];
    r := Ok(());
  }

  /** `returnOrder`: a delivered order becomes returned and its quantity is credited. */
  method ReturnOrder(store: Store, id: int) returns (r: Result<()>)
    requires store.Valid()
    requires id in store.orders
    modifies store`orders, store`products
    ensures store.Valid()
    ensures Tables(store.products, store.orders) == ReturnStep(Tables(old(store.products), old(store.orders)), id)
    ensures old(store.orders)[id].status != Delivered ==>
      r == Err(NotDelivered) &&
      store.orders == old(store.orders) && store.products == old(store.products)
    ensures old(store.orders)[id].status == Delivered ==>
      var o := old(store.orders)[id];
      store.orders == old(store.orders)[id := o.(status := Returned, returnStamped := true)] &&
      store.products == (if o.productId in old(store.products)
                         then old(store.products)[o.productId := ApplyDelta(old(store.products)[o.productId], o.quantity)]
                         else old(store.products)) &&
      (r.Ok? <==> o.productId in old(store.products))
  {
    var order := store.orders[id];
    if order.status != Delivered {
      return Err(NotDelivered);
    }
    store.orders := store.orders[id := order.(status := Returned, returnStamped := true)];
    r := UpdateStockStatus(store, order.productId, order.quantity);
  }

  /** `cancelOrder`: an in-transit order becomes canceled and its quantity is credited. */
  method CancelOrder(store: Store, id: int) returns (r: Result<()>)
    requires store.Valid()
    requires id in store.orders
    modifies store`orders, store`products
    ensures store.Valid()
    ensures Tables(store.products, store.orders) == CancelStep(Tables(old(store.products), old(store.orders)), id)
    ensures old(store.orders)[id].status != InTransit ==>
      r == Err(NotInTransit) &&
      store.orders == old(store.orders) && store.products == old(store.products)
    ensures old(store.orders)[id].status == InTransit ==>
      var o := old(store.orders)[id];
      store.orders == old(store.orders)[id := o.(status := Canceled)] &&
      store.products == (if o.productId in old(store.products)
                         then old(store.products)[o.productId := ApplyDelta(old(store.products)[o.productId], o.quantity)]
                         else old(store.products)) &&
      (r.Ok? <==> o.productId in old(store.products))
  {
    var order := store.orders[id];
    if order.status != InTransit {
      return Err(NotInTransit);
    }
    store.orders := store.orders[id := order.(status := Canceled)];
    r := UpdateStockStatus(store, order.productId, order.quantity);
  }
}
