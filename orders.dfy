/** controllers/order.controller.js of the Stationery shop: turning the
    caller's cart into an order, the owner-or-admin view of one order, the
    admin's status change and the customer's cancellation. */
module Orders {
  import opened Common
  import opened ShopDb
  import opened Cart
  import Auth

  /** The text stored in the orders table for each status. */
  function StatusName(s: OrderStatus): string
  {
    match s
    case Pending => "pending"
    case InTransit => "in-transit"
    case Delivered => "delivered"
    case Cancelled => "cancelled"
    case Returned => "returned"
  }

  /** `rawStatus.trim().toLowerCase()`. */
  function Normalize(raw: string): string
  {
    ToLower(Trim(raw))
  }

  /** `allowedStatuses.includes(status)`: which status a normalized text names, if any. */
  function StatusOfName(t: string): (r: Option<OrderStatus>)
    ensures r.Some? ==> t == StatusName(r.value)
    ensures r.None? ==> forall s :: t != StatusName(s)
  {
    if t == "pending" then Some(Pending)
    else if t == "in-transit" then Some(InTransit)
    else if t == "delivered" then Some(Delivered)
    else if t == "cancelled" then Some(Cancelled)
    else if t == "returned" then Some(Returned)
    else None
  }

  /** The status a raw request field names once trimmed and lower-cased. */
  function ParseStatus(raw: string): (r: Option<OrderStatus>)
    ensures r.Some? ==> Normalize(raw) == StatusName(r.value)
    ensures r.None? ==> forall s :: Normalize(raw) != StatusName(s)
  {
    StatusOfName(Normalize(raw))
  }

  /** A word of lower-case letters and hyphens is already in normalized form. */
  lemma NormalizeWord(w: string)
    requires forall k :: 0 <= k < |w| ==> 'a' <= w[k] <= 'z' || w[k] == '-'
    ensures Normalize(w) == w
  {
    if w != [] {
      assert !IsWhitespace(w[0]) && !IsWhitespace(w[|w| - 1]);
    }
    TrimUnpadded(w);
    ToLowerOfLower(w);
    calc {
      Normalize(w);
      ToLower(Trim(w));
      ToLower(w);
      w;
    }
  }

  /** Every stored status name is already in normalized form. */
  lemma NormalizeName(s: OrderStatus)
    ensures Normalize(StatusName(s)) == StatusName(s)
  {
    match s {
      case Pending => NormalizeWord("pending");
      case InTransit => NormalizeWord("in-transit");
      case Delivered => NormalizeWord("delivered");
      case Cancelled => NormalizeWord("cancelled");
      case Returned => NormalizeWord("returned");
    }
  }

  /** Every stored status name is accepted and read back as itself. */
  lemma ParseStatusName(s: OrderStatus)
    ensures ParseStatus(StatusName(s)) == Some(s)
  {
    NormalizeName(s);
  }

  /** Padding and letter case do not matter: the raw text is read exactly
      as its normalized form. */
  lemma ParseStatusNormalized(raw: string)
    ensures ParseStatus(Normalize(raw)) == ParseStatus(raw)
  {
    var t := Normalize(raw);
    var u := Trim(raw);
    if u != [] {
      assert t[0] == LowerChar(u[0]) && t[|t| - 1] == LowerChar(u[|u| - 1]);
    }
    TrimUnpadded(t);
    ToLowerIdempotent(u);
  }

  /** The index of the first cart line whose quantity exceeds the stock. */
  function Shortage(ls: seq<Line>): (k: Option<nat>)
    ensures k.Some? ==>
      && k.value < |ls|
      && ls[k.value].item.quantity > ls[k.value].stock
      && forall j :: 0 <= j < k.value ==> ls[j].item.quantity <= ls[j].stock
    ensures k.None? ==> forall j :: 0 <= j < |ls| ==> ls[j].item.quantity <= ls[j].stock
    decreases |ls|
  {
    if ls == [] then None
    else if ls[0].item.quantity > ls[0].stock then Some(0)
    else
      match Shortage(ls[1..])
      case None => None
      case Some(j) => Some(j + 1)
  }

  /** The stock check of `placeOrder`: the loop over the cart lines that
      stops at the first line the stock does not cover. */
  method FirstShortage(ls: seq<Line>) returns (k: Option<nat>)
    ensures k == Shortage(ls)
    ensures k.Some? ==> k.value < |ls| && ls[k.value].item.quantity > ls[k.value].stock
  {
    var i := 0;
    while i < |ls|
      invariant 0 <= i <= |ls|
      invariant forall j :: 0 <= j < i ==> ls[j].item.quantity <= ls[j].stock
    {
      if ls[i].item.quantity > ls[i].stock {
        return Some(i);
      }
      i := i + 1;
    }
    return None;
  }

  /** The order_items row written for one cart line: its quantity and the
      product's price at the time of ordering. */
  function ItemOf(orderId: int, l: Line): OrderItem
  {
    OrderItem(orderId, l.item.productId, l.item.quantity, l.price)
  }

  /** The order_items rows written for the lines, one per line, in order. */
  function OrderItemsFor(orderId: int, ls: seq<Line>): (ois: seq<OrderItem>)
    ensures |ois| == |ls|
    ensures forall k :: 0 <= k < |ls| ==>
      ois[k] == OrderItem(orderId, ls[k].item.productId, ls[k].item.quantity, ls[k].price)
    decreases |ls|
  {
    if ls == [] then []
    else OrderItemsFor(orderId, ls[..|ls| - 1]) + [ItemOf(orderId, ls[|ls| - 1])]
  }

  /** Σ price × quantity over order items. */
  function ItemsTotal(ois: seq<OrderItem>): int
  {
    if ois == [] then 0 else ois[0].price * ois[0].quantity + ItemsTotal(ois[1..])
  }

  /** The order's total is the sum over the order items it was stored with. */
  lemma {:induction false} OrderTotalMatchesItems(orderId: int, ls: seq<Line>)
    ensures ItemsTotal(OrderItemsFor(orderId, ls)) == Total(ls)
  {
    TotalOfPointwise(OrderItemsFor(orderId, ls), ls);
  }

  lemma {:induction false} TotalOfPointwise(ois: seq<OrderItem>, ls: seq<Line>)
    requires |ois| == |ls|
    requires forall k :: 0 <= k < |ls| ==> ois[k].price == ls[k].price && ois[k].quantity == ls[k].item.quantity
    ensures ItemsTotal(ois) == Total(ls)
    decreases |ls|
  {
    if ls != [] {
      TotalOfPointwise(ois[1..], ls[1..]);
    }
  }

  /** The total quantity of product `id` over the lines. */
  function Ordered(ls: seq<Line>, id: int): int
    decreases |ls|
  {
    if ls == [] then 0
    else
      var l := ls[|ls| - 1].item;
      Ordered(ls[..|ls| - 1], id) + (if l.productId == id then l.quantity else 0)
  }

  /** The products table once every line's product has been debited by
      the quantity ordered of it. */
  function Debit(ps: map<int, Product>, ls: seq<Line>): map<int, Product>
  {
    map id | id in ps :: ps[id].(stock := ps[id].stock - Ordered(ls, id))
  }

  /** One more `UPDATE products SET stock = stock - quantity WHERE id =
      product_id` takes the table debited for the first `i` lines to the
      table debited for the first `i + 1`. */
  lemma DebitStep(ps: map<int, Product>, ls: seq<Line>, i: nat)
    requires i < |ls|
    ensures var d := Debit(ps, ls[..i]);
      var l := ls[i].item;
      Debit(ps, ls[..i + 1]) ==
        if l.productId in d then d[l.productId := d[l.productId].(stock := d[l.productId].stock - l.quantity)] else d
  {
    assert ls[..i + 1][..i] == ls[..i];
  }

  /** No two lines are for the same product. */
  predicate DistinctProducts(ls: seq<Line>)
  {
    forall i, j :: 0 <= i < j < |ls| ==> ls[i].item.productId != ls[j].item.productId
  }

  /** One user's cart lines name each product at most once. */
  lemma {:induction false} CartLinesDistinct(items: seq<CartItem>, products: map<int, Product>, user: int)
    requires CartKeysDistinct(items)
    ensures DistinctProducts(CartLines(items, products, user))
    decreases |items|
  {
    if items != [] {
      var rest := CartLines(items[1..], products, user);
      assert CartKeysDistinct(items[1..]) by {
        forall i, j | 0 <= i < j < |items[1..]|
          ensures items[1..][i].id != items[1..][j].id
          ensures items[1..][i].userId != items[1..][j].userId || items[1..][i].productId != items[1..][j].productId
        {
          assert items[1..][i] == items[i + 1] && items[1..][j] == items[j + 1];
        }
      }
      CartLinesDistinct(items[1..], products, user);
      var it := items[0];
      if it.userId == user && it.productId in products {
        var ls := CartLines(items, products, user);
        assert ls[1..] == rest;
        forall j | 0 <= j < |rest| ensures rest[j].item.productId != it.productId {
          DistinctFromHead(items, rest[j].item);
        }
      }
    }
  }

  lemma {:induction false} OrderedAbsent(ls: seq<Line>, id: int)
    requires forall j :: 0 <= j < |ls| ==> ls[j].item.productId != id
    ensures Ordered(ls, id) == 0
    decreases |ls|
  {
    if ls != [] {
      OrderedAbsent(ls[..|ls| - 1], id);
    }
  }

  /** With one line per product, the quantity ordered of a line's product is
      that line's quantity. */
  lemma {:induction false} OrderedDistinct(ls: seq<Line>, k: nat)
    requires DistinctProducts(ls) && k < |ls|
    ensures Ordered(ls, ls[k].item.productId) == ls[k].item.quantity
    decreases |ls|
  {
    var init := ls[..|ls| - 1];
    if k == |ls| - 1 {
      OrderedAbsent(init, ls[k].item.productId);
    } else {
      assert init[k] == ls[k];
      OrderedDistinct(init, k);
    }
  }

  /** Placing an order debits each ordered product by its line's quantity,
      leaves the other products alone, and keeps every stock non-negative
      when the stock check passed. */
  lemma DebitPerLine(ps: map<int, Product>, ls: seq<Line>)
    requires DistinctProducts(ls)
    requires forall k :: 0 <= k < |ls| ==> ls[k].item.productId in ps
    ensures forall k :: 0 <= k < |ls| ==>
      Debit(ps, ls)[ls[k].item.productId] ==
        ps[ls[k].item.productId].(stock := ps[ls[k].item.productId].stock - ls[k].item.quantity)
    ensures forall id :: id in ps && (forall k :: 0 <= k < |ls| ==> ls[k].item.productId != id) ==>
      Debit(ps, ls)[id] == ps[id]
  {
    forall k | 0 <= k < |ls| {
      OrderedDistinct(ls, k);
    }
    forall id | id in ps && (forall k :: 0 <= k < |ls| ==> ls[k].item.productId != id) {
      OrderedAbsent(ls, id);
    }
  }

  /** With stock covering each line, the debit leaves no stock negative. */
  lemma DebitNonNegative(ps: map<int, Product>, ls: seq<Line>)
    requires DistinctProducts(ls)
    requires forall k :: 0 <= k < |ls| ==>
      ls[k].item.productId in ps && ls[k].stock == ps[ls[k].item.productId].stock &&
      ls[k].item.quantity <= ls[k].stock
    requires forall id :: id in ps ==> ps[id].stock >= 0
    ensures forall id :: id in Debit(ps, ls) ==> Debit(ps, ls)[id].stock >= 0
  {
    DebitPerLine(ps, ls);
  }

  /** `INSERT INTO orders (user_id, total_price) ... RETURNING *`: a fresh
      id, and the status column's default. */
  method InsertOrder(db: Database, user: int, totalPrice: int) returns (orderId: int)
    requires db.Valid()
    modifies db`orders, db`nextOrderId
    ensures db.Valid()
    ensures orderId !in old(db.orders)
    ensures db.orders == old(db.orders)[orderId := Order(user, totalPrice, db.initialOrderStatus)]
  {
    orderId := db.nextOrderId;
    db.orders := db.orders[orderId := Order(user, totalPrice, db.initialOrderStatus)];
    db.nextOrderId := orderId + 1;
  }

  /** The `INSERT INTO order_items` issued for every cart line. */
  method InsertOrderItems(db: Database, orderId: int, lines: seq<Line>)
    requires db.Valid()
    modifies db`orderItems
    ensures db.Valid()
    ensures db.orderItems == old(db.orderItems) + OrderItemsFor(orderId, lines)
  {
    var i := 0;
    while i < |lines|
      invariant 0 <= i <= |lines|
      invariant db.orderItems == old(db.orderItems) + OrderItemsFor(orderId, lines[..i])
    {
      assert lines[..i + 1][..i] == lines[..i];
      db.orderItems := db.orderItems + [ItemOf(orderId, lines[i])];
      i := i + 1;
    }
    assert lines[..|lines|] == lines;
  }

  /** The `UPDATE products SET stock = stock - $1 WHERE id = $2` issued for
      every cart line. */
  method DebitStock(db: Database, lines: seq<Line>)
    requires db.Valid()
    requires DistinctProducts(lines)
    requires forall k :: 0 <= k < |lines| ==>
      lines[k].item.productId in db.products && lines[k].stock == db.products[lines[k].item.productId].stock &&
      lines[k].item.quantity <= lines[k].stock
    modifies db`products
    ensures db.Valid()
    ensures db.products == Debit(old(db.products), lines)
  {
    DebitNonNegative(db.products, lines);
    var i := 0;
    while i < |lines|
      invariant 0 <= i <= |lines|
      invariant db.products == Debit(old(db.products), lines[..i])
    {
      DebitStep(old(db.products), lines, i);
      var l := lines[i].item;
      if l.productId in db.products {
        db.products := db.products[l.productId := db.products[l.productId].(stock := db.products[l.productId].stock - l.quantity)];
      }
      i := i + 1;
    }
    assert lines[..|lines|] == lines;
  }

  /** `placeOrder`: rejects an empty cart or a line the stock does not
      cover, otherwise stores the order with the cart's total, one order
      item per line, debits the stock and empties the caller's cart. */
  method PlaceOrder(db: Database, user: int) returns (r: Result<int>)
    requires db.Valid()
    modifies db`orders, db`nextOrderId, db`orderItems, db`products, db`cartItems
    ensures db.Valid()
    ensures var lines := CartLines(old(db.cartItems), old(db.products), user);
      && (lines == [] ==> r == Err(EmptyCart))
      && (lines != [] && Shortage(lines).Some? ==>
            r == Err(InsufficientStock(lines[Shortage(lines).value].item.productId)))
      && (r.Ok? <==> lines != [] && Shortage(lines).None?)
    ensures r.Err? ==>
      && db.orders == old(db.orders) && db.orderItems == old(db.orderItems)
      && db.products == old(db.products) && db.cartItems == old(db.cartItems)
    ensures r.Ok? ==>
      var lines := CartLines(old(db.cartItems), old(db.products), user);
      && r.value !in old(db.orders)
      && db.orders == old(db.orders)[r.value := Order(user, Total(lines), db.initialOrderStatus)]
      && db.orderItems == old(db.orderItems) + OrderItemsFor(r.value, lines)
      && db.products == Debit(old(db.products), lines)
      && db.cartItems == WithoutUser(old(db.cartItems), user)
  {
    var lines := CartLines(db.cartItems, db.products, user);
    if |lines| == 0 {
      return Err(EmptyCart);
    }
    var shortage := FirstShortage(lines);
    if shortage.Some? {
      return Err(InsufficientStock(lines[shortage.value].item.productId));
    }
    CartLinesDistinct(db.cartItems, db.products, user);

    var orderId := InsertOrder(db, user, Total(lines));
    InsertOrderItems(db, orderId, lines);
    DebitStock(db, lines);
    ClearCart(db, user);
    r := Ok(orderId);
  }

  /** An order_items row joined with its product's title and description. */
  datatype ItemView = ItemView(item: OrderItem, title: string, description: Option<string>)

  /** What `getOrderById` answers. */
  datatype OrderView = OrderView(order: Order, items: seq<ItemView>)

  /** `SELECT oi.*, p.title, p.description FROM order_items oi JOIN products p
      ON oi.product_id = p.id WHERE oi.order_id = $1`. */
  function ItemsOf(ois: seq<OrderItem>, products: map<int, Product>, orderId: int): (vs: seq<ItemView>)
    ensures forall k :: 0 <= k < |vs| ==>
      && vs[k].item in ois && vs[k].item.orderId == orderId && vs[k].item.productId in products
      && vs[k].title == products[vs[k].item.productId].title
      && vs[k].description == products[vs[k].item.productId].description
    decreases |ois|
  {
    if ois == [] then []
    else
      var rest := ItemsOf(ois[1..], products, orderId);
      var oi := ois[0];
      if oi.orderId == orderId && oi.productId in products then
        var vs := [ItemView(oi, products[oi.productId].title, products[oi.productId].description)] + rest;
        assert forall k :: 0 <= k < |rest| ==> vs[k + 1] == rest[k];
        vs
      else rest
  }

  /** Item `j` of the order, whose product exists, is entry `k` of the view. */
  lemma {:induction false} ItemsOfHas(ois: seq<OrderItem>, products: map<int, Product>, orderId: int, j: nat)
    returns (k: nat)
    requires j < |ois| && ois[j].orderId == orderId && ois[j].productId in products
    ensures k < |ItemsOf(ois, products, orderId)| && ItemsOf(ois, products, orderId)[k].item == ois[j]
    decreases j
  {
    var head := ois[0].orderId == orderId && ois[0].productId in products;
    if j == 0 {
      k := 0;
    } else {
      var m := ItemsOfHas(ois[1..], products, orderId, j - 1);
      k := if head then m + 1 else m;
    }
  }

  /** Some entry of `vs` shows the order item `oi`. */
  predicate Shown(vs: seq<ItemView>, oi: OrderItem)
  {
    exists k :: 0 <= k < |vs| && vs[k].item == oi
  }

  /** Every item of the order whose product still exists is listed. */
  lemma ItemsOfComplete(ois: seq<OrderItem>, products: map<int, Product>, orderId: int)
    ensures forall j :: 0 <= j < |ois| && ois[j].orderId == orderId && ois[j].productId in products ==>
      Shown(ItemsOf(ois, products, orderId), ois[j])
  {
    forall j | 0 <= j < |ois| && ois[j].orderId == orderId && ois[j].productId in products
      ensures Shown(ItemsOf(ois, products, orderId), ois[j])
    {
      var k := ItemsOfHas(ois, products, orderId, j);
    }
  }

  /** Only the order's owner or an admin may see or cancel it. */
  predicate OwnerOrAdmin(o: Order, actor: Auth.Claims)
  {
    o.userId == actor.id || Auth.IsAdmin(actor)
  }

  /** `getOrderById`: 404 for a missing order, 403 for a caller who is
      neither its owner nor an admin, else the order and its items. */
  function GetOrderById(orders: map<int, Order>, orderItems: seq<OrderItem>, products: map<int, Product>,
                        actor: Auth.Claims, id: int): (r: Result<OrderView>)
    ensures r == Err(OrderNotFound) <==> id !in orders
    ensures r == Err(Forbidden) <==> id in orders && !OwnerOrAdmin(orders[id], actor)
    ensures r.Ok? <==> id in orders && OwnerOrAdmin(orders[id], actor)
    ensures r.Ok? ==> r.value.order == orders[id] && r.value.items == ItemsOf(orderItems, products, id)
  {
    if id !in orders then Err(OrderNotFound)
    else if orders[id].userId != actor.id && !Auth.IsAdmin(actor) then Err(Forbidden)
    else Ok(OrderView(orders[id], ItemsOf(orderItems, products, id)))
  }

  /** `!rawStatus`: the body's status is missing or the empty string. */
  predicate StatusMissing(rawStatus: Option<string>)
  {
    rawStatus.None? || rawStatus.value == ""
  }

  /** The answer of `updateOrderStatus`: a missing status, then an unlisted
      one, then a missing order, then a cancelled or returned order is
      refused, in that order; any other order takes the named status, with
      no check of the transition. */
  function StatusChange(orders: map<int, Order>, id: int, rawStatus: Option<string>): (r: Result<OrderStatus>)
    ensures StatusMissing(rawStatus) ==> r == Err(StatusRequired)
    ensures !StatusMissing(rawStatus) && ParseStatus(rawStatus.value).None? ==> r == Err(InvalidStatus)
    ensures !StatusMissing(rawStatus) && ParseStatus(rawStatus.value).Some? && id !in orders ==> r == Err(OrderNotFound)
    ensures !StatusMissing(rawStatus) && ParseStatus(rawStatus.value).Some? && id in orders && Final(orders[id].status) ==>
      r == Err(FinalStatus)
    ensures r.Ok? <==>
      !StatusMissing(rawStatus) && ParseStatus(rawStatus.value).Some? && id in orders && !Final(orders[id].status)
    ensures r.Ok? ==> Normalize(rawStatus.value) == StatusName(r.value)
  {
    if StatusMissing(rawStatus) then Err(StatusRequired)
    else
      match ParseStatus(rawStatus.value)
      case None => Err(InvalidStatus)
      case Some(s) =>
        if id !in orders then Err(OrderNotFound)
        else if Final(orders[id].status) then Err(FinalStatus)
        else Ok(s)
  }

  /** A status sent by its stored name, in any letter case and padding, is
      accepted as that status for an order that is not cancelled or
      returned. */
  lemma StatusChangeByName(orders: map<int, Order>, id: int, s: OrderStatus, raw: string)
    requires id in orders && !Final(orders[id].status)
    requires Normalize(raw) == StatusName(s)
    ensures StatusChange(orders, id, Some(raw)) == Ok(s)
  {
    ParseStatusNormalized(raw);
    ParseStatusName(s);
  }

  /** `updateOrderStatus` (admin only): the answer is `StatusChange`, and only
      on success does that one order take the new status. */
  method UpdateOrderStatus(db: Database, actor: Auth.Claims, id: int, rawStatus: Option<string>)
    returns (r: Result<OrderStatus>)
    requires Auth.IsAdmin(actor)
    requires db.Valid()
    modifies db`orders
    ensures db.Valid()
    ensures r == StatusChange(old(db.orders), id, rawStatus)
    ensures db.orders == if r.Ok? then old(db.orders)[id := old(db.orders)[id].(status := r.value)] else old(db.orders)
  {
    if rawStatus.None? || rawStatus.value == "" {
      r := Err(StatusRequired);
    } else {
      var status := ParseStatus(rawStatus.value);
      if status.None? {
        r := Err(InvalidStatus);
      } else if id !in db.orders {
        r := Err(OrderNotFound);
      } else {
        var currentStatus := db.orders[id].status;
        if currentStatus == Cancelled || currentStatus == Returned {
          r := Err(FinalStatus);
        } else {
          SetOrderStatus(db, id, status.value);
          r := Ok(status.value);
        }
      }
    }
  }

  /** `UPDATE orders SET status = $1 WHERE id = $2`: only that row changes. */
  method SetOrderStatus(db: Database, id: int, s: OrderStatus)
    requires db.Valid() && id in db.orders
    modifies db`orders
    ensures db.Valid()
    ensures db.orders == old(db.orders)[id := old(db.orders)[id].(status := s)]
  {
    db.orders := db.orders[id := db.orders[id].(status := s)];
  }

  /** `cancelOrder`: the owner or an admin cancels a pending order; stock
      is not credited back. */
  method CancelOrder(db: Database, actor: Auth.Claims, id: int) returns (r: Result<()>)
    requires db.Valid()
    modifies db`orders
    ensures db.Valid()
    ensures db.products == old(db.products)
    ensures r.Err? ==> db.orders == old(db.orders)
    ensures id !in old(db.orders) ==> r == Err(OrderNotFound)
    ensures id in old(db.orders) ==>
      var o := old(db.orders)[id];
      if !OwnerOrAdmin(o, actor) then r == Err(Forbidden)
      else if o.status != Pending then r == Err(NotPending)
      else r == Ok(()) && db.orders == old(db.orders)[id := o.(status := Cancelled)]
  {
    if id !in db.orders {
      return Err(OrderNotFound);
    }
    var order := db.orders[id];
    if order.userId != actor.id && !Auth.IsAdmin(actor) {
      return Err(Forbidden);
    }
    if order.status != Pending {
      return Err(NotPending);
    }
    db.orders := db.orders[id := order.(status := Cancelled)];
    r := Ok(());
  }
}
