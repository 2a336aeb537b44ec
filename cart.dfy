/** controllers/cart.controller.js: a user's cart of (product, quantity)
    rows, checked against stock on every add and update. */
module Cart {
  import opened Common
  import opened ShopDb

  /** A cart row joined with its product: `SELECT ci.*, p.* FROM cart_items ci
      JOIN products p ON ci.product_id = p.id`. */
  datatype Line = Line(item: CartItem, price: int, stock: int)

  /** The rows the join keeps for the caller: their own rows whose product
      still exists, in table order. */
  function JoinedRows(items: seq<CartItem>, products: map<int, Product>, user: int): (rows: seq<CartItem>)
    ensures forall it :: it in rows <==> it in items && it.userId == user && it.productId in products
    decreases |items|
  {
    if items == [] then []
    else if items[0].userId == user && items[0].productId in products then
      [items[0]] + JoinedRows(items[1..], products, user)
    else JoinedRows(items[1..], products, user)
  }

  /** The caller's rows whose product still exists, in table order,
      with the product's current price and stock. */
  function CartLines(items: seq<CartItem>, products: map<int, Product>, user: int): (ls: seq<Line>)
    ensures |ls| <= |items|
    ensures forall k :: 0 <= k < |ls| ==>
      ls[k].item in items && ls[k].item.userId == user && ls[k].item.productId in products &&
      ls[k].price == products[ls[k].item.productId].price &&
      ls[k].stock == products[ls[k].item.productId].stock
    decreases |items|
  {
    if items == [] then []
    else
      var rest := CartLines(items[1..], products, user);
      var it := items[0];
      if it.userId == user && it.productId in products then
        var ls := [Line(it, products[it.productId].price, products[it.productId].stock)] + rest;
        assert forall k :: 0 <= k < |rest| ==> ls[k + 1] == rest[k];
        ls
      else rest
  }

  /** The cart shows exactly the joined rows, one line each, in table order. */
  lemma {:induction false} CartLinesRows(items: seq<CartItem>, products: map<int, Product>, user: int)
    ensures |CartLines(items, products, user)| == |JoinedRows(items, products, user)|
    ensures forall k :: 0 <= k < |JoinedRows(items, products, user)| ==>
      CartLines(items, products, user)[k].item == JoinedRows(items, products, user)[k]
    decreases |items|
  {
    if items != [] {
      CartLinesRows(items[1..], products, user);
      var ls := CartLines(items, products, user);
      var rest := CartLines(items[1..], products, user);
      var rows := JoinedRows(items, products, user);
      var restRows := JoinedRows(items[1..], products, user);
      if items[0].userId == user && items[0].productId in products {
        assert ls == [ls[0]] + rest && rows == [items[0]] + restRows;
        forall k | 1 <= k < |rows| ensures ls[k].item == rows[k] {
          assert ls[k] == rest[k - 1] && rows[k] == restRows[k - 1];
        }
      } else {
        assert ls == rest && rows == restRows;
      }
    }
  }

  /** Row `j` of the caller, whose product exists, is line `k` of the cart. */
  lemma {:induction false} CartLinesHas(items: seq<CartItem>, products: map<int, Product>, user: int, j: nat)
    returns (k: nat)
    requires j < |items| && items[j].userId == user && items[j].productId in products
    ensures k < |CartLines(items, products, user)| && CartLines(items, products, user)[k].item == items[j]
    decreases j
  {
    var rest := CartLines(items[1..], products, user);
    var head := items[0].userId == user && items[0].productId in products;
    if j == 0 {
      k := 0;
    } else {
      var m := CartLinesHas(items[1..], products, user, j - 1);
      k := if head then m + 1 else m;
    }
  }

  /** Some line of `ls` shows the row `it`. */
  predicate Listed(ls: seq<Line>, it: CartItem)
  {
    exists k :: 0 <= k < |ls| && ls[k].item == it
  }

  /** Every row of the caller whose product exists shows up in the cart. */
  lemma CartLinesComplete(items: seq<CartItem>, products: map<int, Product>, user: int)
    ensures forall j :: 0 <= j < |items| && items[j].userId == user && items[j].productId in products ==>
      Listed(CartLines(items, products, user), items[j])
  {
    forall j | 0 <= j < |items| && items[j].userId == user && items[j].productId in products
      ensures Listed(CartLines(items, products, user), items[j])
    {
      var k := CartLinesHas(items, products, user, j);
    }
  }

  /** `rows.reduce((total, item) => total + item.price * item.quantity, 0)`. */
  function Total(ls: seq<Line>): int
  {
    if ls == [] then 0 else ls[0].price * ls[0].item.quantity + Total(ls[1..])
  }

  /** The total of two runs of lines is the sum of their totals. */
  lemma {:induction false} TotalAppend(a: seq<Line>, b: seq<Line>)
    ensures Total(a + b) == Total(a) + Total(b)
    decreases |a|
  {
    if a == [] {
      assert a + b == b;
    } else {
      assert (a + b)[0] == a[0];
      assert (a + b)[1..] == a[1..] + b;
      TotalAppend(a[1..], b);
    }
  }

  /** With non-negative prices and quantities the total is non-negative. */
  lemma {:induction false} TotalNonNegative(ls: seq<Line>)
    requires forall k :: 0 <= k < |ls| ==> ls[k].price >= 0 && ls[k].item.quantity >= 0
    ensures Total(ls) >= 0
    decreases |ls|
  {
    if ls != [] {
      TotalNonNegative(ls[1..]);
    }
  }

  /** What `getCart` answers: the caller's rows and their total price. */
  datatype CartView = CartView(items: seq<Line>, totalPrice: int)

  /** `getCart`: the caller's rows (whose product exists) and Σ price × quantity. */
  function GetCart(items: seq<CartItem>, products: map<int, Product>, user: int): (v: CartView)
    // one line per joined row, in table order
    ensures |v.items| == |JoinedRows(items, products, user)|
    ensures forall k :: 0 <= k < |v.items| ==>
      && v.items[k].item == JoinedRows(items, products, user)[k]
      && v.items[k].item.userId == user && v.items[k].item in items
      && v.items[k].item.productId in products
      && v.items[k].price == products[v.items[k].item.productId].price
    ensures forall j :: 0 <= j < |items| && items[j].userId == user && items[j].productId in products ==>
      Listed(v.items, items[j])
    ensures v.totalPrice == Total(v.items)
  {
    var ls := CartLines(items, products, user);
    CartLinesComplete(items, products, user);
    CartLinesRows(items, products, user);
    CartView(ls, Total(ls))
  }

  /** Σ current price × quantity over cart rows whose products exist. */
  function RowsTotal(rows: seq<CartItem>, products: map<int, Product>): int
    requires forall k :: 0 <= k < |rows| ==> rows[k].productId in products
  {
    if rows == [] then 0 else products[rows[0].productId].price * rows[0].quantity + RowsTotal(rows[1..], products)
  }

  /** The cart total is Σ price × quantity over exactly the joined rows,
      each counted once, at the products' current prices. */
  lemma CartTotalOfRows(items: seq<CartItem>, products: map<int, Product>, user: int)
    ensures forall k :: 0 <= k < |JoinedRows(items, products, user)| ==>
      JoinedRows(items, products, user)[k].productId in products
    ensures GetCart(items, products, user).totalPrice == RowsTotal(JoinedRows(items, products, user), products)
  {
    var ls := CartLines(items, products, user);
    var rows := JoinedRows(items, products, user);
    CartLinesRows(items, products, user);
    forall k | 0 <= k < |rows|
      ensures rows[k].productId in products && ls[k].item == rows[k]
      ensures ls[k].price == products[rows[k].productId].price
    {
      assert rows[k] in rows;
    }
    TotalOfLines(ls, rows, products);
    assert GetCart(items, products, user).totalPrice == Total(ls);
  }

  lemma {:induction false} TotalOfLines(ls: seq<Line>, rows: seq<CartItem>, products: map<int, Product>)
    requires |ls| == |rows|
    requires forall k :: 0 <= k < |ls| ==>
      ls[k].item == rows[k] && rows[k].productId in products && ls[k].price == products[rows[k].productId].price
    ensures Total(ls) == RowsTotal(rows, products)
    decreases |ls|
  {
    if ls != [] {
      TotalOfLines(ls[1..], rows[1..], products);
    }
  }

  /** The cart of a table is the cart of its first part followed by the cart
      of the rest. */
  lemma {:induction false} CartLinesAppend(a: seq<CartItem>, b: seq<CartItem>, products: map<int, Product>, user: int)
    ensures CartLines(a + b, products, user) == CartLines(a, products, user) + CartLines(b, products, user)
    decreases |a|
  {
    if a == [] {
      assert a + b == b;
    } else {
      assert (a + b)[0] == a[0];
      assert (a + b)[1..] == a[1..] + b;
      CartLinesAppend(a[1..], b, products, user);
      var rest := CartLines(a[1..], products, user) + CartLines(b, products, user);
      if a[0].userId == user && a[0].productId in products {
        var l := Line(a[0], products[a[0].productId].price, products[a[0].productId].stock);
        assert CartLines(a + b, products, user) == [l] + rest;
        assert CartLines(a, products, user) == [l] + CartLines(a[1..], products, user);
      } else {
        assert CartLines(a + b, products, user) == rest;
        assert CartLines(a, products, user) == CartLines(a[1..], products, user);
      }
    }
  }

  /** Each row adds its own share to the cart total: the total over two runs
      of rows is the sum of their totals. */
  lemma CartTotalAppend(a: seq<CartItem>, b: seq<CartItem>, products: map<int, Product>, user: int)
    ensures GetCart(a + b, products, user).totalPrice ==
      GetCart(a, products, user).totalPrice + GetCart(b, products, user).totalPrice
  {
    CartLinesAppend(a, b, products, user);
    TotalAppend(CartLines(a, products, user), CartLines(b, products, user));
  }

  /** Under the shop's invariant the cart total is never negative. */
  lemma CartTotalNonNegative(items: seq<CartItem>, products: map<int, Product>, user: int)
    requires forall k :: 0 <= k < |items| ==> items[k].quantity >= 1
    requires forall id :: id in products ==> products[id].price >= 0
    ensures GetCart(items, products, user).totalPrice >= 0
  {
    TotalNonNegative(CartLines(items, products, user));
  }

  /** The first row of `user` for product `productId`:
      `SELECT id, quantity FROM cart_items WHERE user_id = $1 AND product_id = $2`. */
  function FindEntry(items: seq<CartItem>, user: int, productId: int): (k: Option<nat>)
    ensures k.Some? ==>
      && k.value < |items|
      && items[k.value].userId == user && items[k.value].productId == productId
      && forall j :: 0 <= j < k.value ==> !(items[j].userId == user && items[j].productId == productId)
    ensures k.None? ==> forall j :: 0 <= j < |items| ==> !(items[j].userId == user && items[j].productId == productId)
    decreases |items|
  {
    if items == [] then None
    else if items[0].userId == user && items[0].productId == productId then Some(0)
    else
      match FindEntry(items[1..], user, productId)
      case None => None
      case Some(j) => Some(j + 1)
  }

  /** The first matching row is the one `FindEntry` finds. */
  lemma {:induction false} FindEntryFirst(items: seq<CartItem>, user: int, productId: int, k: nat)
    requires k < |items| && items[k].userId == user && items[k].productId == productId
    requires forall j :: 0 <= j < k ==> !(items[j].userId == user && items[j].productId == productId)
    ensures FindEntry(items, user, productId) == Some(k)
    decreases k
  {
    if k > 0 {
      FindEntryFirst(items[1..], user, productId, k - 1);
    }
  }

  /** The row with id `itemId` if it belongs to `user`:
      `... WHERE id = $1 AND user_id = $2`. */
  function FindOwned(items: seq<CartItem>, user: int, itemId: int): (k: Option<nat>)
    ensures k.Some? ==> k.value < |items| && items[k.value].id == itemId && items[k.value].userId == user
    ensures k.None? ==> forall j :: 0 <= j < |items| ==> !(items[j].id == itemId && items[j].userId == user)
    decreases |items|
  {
    if items == [] then None
    else if items[0].id == itemId && items[0].userId == user then Some(0)
    else
      match FindOwned(items[1..], user, itemId)
      case None => None
      case Some(j) => Some(j + 1)
  }

  /** The quantity `user` holds of `productId` (0 when there is no row). */
  function QuantityInCart(items: seq<CartItem>, user: int, productId: int): int
  {
    match FindEntry(items, user, productId)
    case None => 0
    case Some(k) => items[k].quantity
  }

  /** `DELETE FROM cart_items WHERE user_id = $1`. */
  function WithoutUser(items: seq<CartItem>, user: int): (r: seq<CartItem>)
    ensures |r| <= |items|
    ensures forall it :: it in r <==> it in items && it.userId != user
    decreases |items|
  {
    if items == [] then []
    else if items[0].userId == user then WithoutUser(items[1..], user)
    else [items[0]] + WithoutUser(items[1..], user)
  }

  /** `DELETE FROM cart_items WHERE id = $1`. */
  function WithoutId(items: seq<CartItem>, id: int): (r: seq<CartItem>)
    ensures forall it :: it in r <==> it in items && it.id != id
    decreases |items|
  {
    if items == [] then []
    else if items[0].id == id then WithoutId(items[1..], id)
    else [items[0]] + WithoutId(items[1..], id)
  }

  /** Two rows at different positions differ in id and in (user, product). */
  lemma DistinctFromHead(items: seq<CartItem>, it: CartItem)
    requires CartKeysDistinct(items) && |items| > 0 && it in items[1..]
    ensures it.id != items[0].id
    ensures it.userId != items[0].userId || it.productId != items[0].productId
  {
    var m :| 0 <= m < |items[1..]| && items[1..][m] == it;
    assert items[m + 1] == it;
  }

  /** Deleting a user's rows keeps the table's keys distinct. */
  lemma {:induction false} WithoutUserDistinct(items: seq<CartItem>, user: int)
    requires CartKeysDistinct(items)
    ensures CartKeysDistinct(WithoutUser(items, user))
    decreases |items|
  {
    if items != [] {
      WithoutUserDistinct(items[1..], user);
      if items[0].userId != user {
        var rest := WithoutUser(items[1..], user);
        forall it | it in rest
          ensures it.id != items[0].id
          ensures it.userId != items[0].userId || it.productId != items[0].productId
        {
          DistinctFromHead(items, it);
        }
        assert forall j :: 0 < j < |rest| + 1 ==> ([items[0]] + rest)[j] == rest[j - 1];
      }
    }
  }

  /** Deleting a row by id keeps the table's keys distinct. */
  lemma {:induction false} WithoutIdDistinct(items: seq<CartItem>, id: int)
    requires CartKeysDistinct(items)
    ensures CartKeysDistinct(WithoutId(items, id))
    decreases |items|
  {
    if items != [] {
      WithoutIdDistinct(items[1..], id);
      if items[0].id != id {
        var rest := WithoutId(items[1..], id);
        forall it | it in rest
          ensures it.id != items[0].id
          ensures it.userId != items[0].userId || it.productId != items[0].productId
        {
          DistinctFromHead(items, it);
        }
        assert forall j :: 0 < j < |rest| + 1 ==> ([items[0]] + rest)[j] == rest[j - 1];
      }
    }
  }

  /** When only row `k` carries its id, deleting by that id removes exactly that row. */
  lemma {:induction false} WithoutIdRemovesAt(items: seq<CartItem>, k: nat)
    requires k < |items|
    requires forall j :: 0 <= j < |items| && j != k ==> items[j].id != items[k].id
    ensures WithoutId(items, items[k].id) == items[..k] + items[k + 1..]
    decreases |items|
  {
    if k == 0 {
      WithoutIdNotPresent(items[1..], items[0].id);
      assert items[..0] + items[1..] == items[1..];
    } else {
      var tail := items[1..];
      TailIdOnlyAt(items, k);
      WithoutIdRemovesAt(tail, k - 1);
      assert items[0].id != items[k].id;
      calc {
        WithoutId(items, items[k].id);
        [items[0]] + WithoutId(tail, tail[k - 1].id);
        [items[0]] + (tail[..k - 1] + tail[k..]);
        { SplitAfterHead(items, k); }
        items[..k] + items[k + 1..];
      }
    }
  }

  /** Dropping the head keeps row `k` the only row carrying its id. */
  lemma TailIdOnlyAt(items: seq<CartItem>, k: nat)
    requires 0 < k < |items|
    requires forall j :: 0 <= j < |items| && j != k ==> items[j].id != items[k].id
    ensures forall j :: 0 <= j < |items| - 1 && j != k - 1 ==> items[1..][j].id != items[1..][k - 1].id
  {
    forall j | 0 <= j < |items| - 1 && j != k - 1 ensures items[1..][j].id != items[1..][k - 1].id {
      assert items[1..][j] == items[j + 1];
    }
  }

  lemma SplitAfterHead(items: seq<CartItem>, k: nat)
    requires 0 < k < |items|
    ensures [items[0]] + (items[1..][..k - 1] + items[1..][k..]) == items[..k] + items[k + 1..]
  {
    assert items[1..][..k - 1] == items[1..k];
    assert items[1..][k..] == items[k + 1..];
    assert items[..k] == [items[0]] + items[1..k];
  }

  /** With distinct keys, row `k` is the only row carrying its id. */
  lemma IdOnlyAt(items: seq<CartItem>, k: nat)
    requires CartKeysDistinct(items) && k < |items|
    ensures forall j :: 0 <= j < |items| && j != k ==> items[j].id != items[k].id
  {
    forall j | 0 <= j < |items| && j != k
      ensures items[j].id != items[k].id
    {
      if j < k {
        assert items[j].id != items[k].id;
      } else {
        assert items[k].id != items[j].id;
      }
    }
  }

  /** Deleting an id that no row carries changes nothing. */
  lemma {:induction false} WithoutIdNotPresent(items: seq<CartItem>, id: int)
    requires forall j :: 0 <= j < |items| ==> items[j].id != id
    ensures WithoutId(items, id) == items
    decreases |items|
  {
    if items != [] {
      WithoutIdNotPresent(items[1..], id);
    }
  }

  /** Clearing a cart twice is the same as clearing it once. */
  lemma {:induction false} WithoutUserIdempotent(items: seq<CartItem>, user: int)
    ensures WithoutUser(WithoutUser(items, user), user) == WithoutUser(items, user)
    decreases |items|
  {
    if items != [] {
      WithoutUserIdempotent(items[1..], user);
    }
  }

  /** After clearing, the user's cart view is empty. */
  lemma {:induction false} ClearedCartIsEmpty(items: seq<CartItem>, products: map<int, Product>, user: int)
    ensures CartLines(WithoutUser(items, user), products, user) == []
    decreases |items|
  {
    if items != [] {
      ClearedCartIsEmpty(items[1..], products, user);
    }
  }

  /** Clearing one user's cart leaves every other user's cart view as it was. */
  lemma {:induction false} ClearKeepsOtherCarts(items: seq<CartItem>, products: map<int, Product>, user: int, other: int)
    requires other != user
    ensures CartLines(WithoutUser(items, user), products, other) == CartLines(items, products, other)
    decreases |items|
  {
    if items != [] {
      ClearKeepsOtherCarts(items[1..], products, user, other);
      if items[0].userId != user {
        assert ([items[0]] + WithoutUser(items[1..], user))[1..] == WithoutUser(items[1..], user);
      }
    }
  }

  /** The body of `addToCart` passes its first check: a product id and a quantity >= 1. */
  predicate AddInputValid(productId: Option<int>, quantity: int)
  {
    productId.Some? && productId.value != 0 && quantity >= 1
  }

  /** `addToCart`: merges `quantity` into the caller's row for the product,
      or inserts a new row, provided the result does not exceed the stock. */
  method AddToCart(db: Database, user: int, productId: Option<int>, quantity: int) returns (r: Result<CartItem>)
    requires db.Valid()
    modifies db`cartItems, db`nextCartItemId
    ensures db.Valid()
    ensures r.Err? ==> db.cartItems == old(db.cartItems)
    ensures !AddInputValid(productId, quantity) ==> r == Err(InvalidInput)
    ensures AddInputValid(productId, quantity) && productId.value !in db.products ==> r == Err(ProductNotFound)
    ensures AddInputValid(productId, quantity) && productId.value in db.products ==>
      var pid := productId.value;
      var merged := QuantityInCart(old(db.cartItems), user, pid) + quantity;
      (r.Ok? <==> merged <= db.products[pid].stock) &&
      (r.Err? ==> r.error == InsufficientStock(pid)) &&
      (r.Ok? ==> r.value.userId == user && r.value.productId == pid && r.value.quantity == merged &&
                 1 <= merged <= db.products[pid].stock &&
                 QuantityInCart(db.cartItems, user, pid) == merged)
    // an existing row is updated in place, otherwise exactly one row is appended
    ensures r.Ok? ==>
      match FindEntry(old(db.cartItems), user, r.value.productId)
      case Some(k) => db.cartItems == old(db.cartItems)[k := r.value] && r.value.id == old(db.cartItems)[k].id
      case None => db.cartItems == old(db.cartItems) + [r.value] && r.value.id == old(db.nextCartItemId)
  {
    if productId.None? || productId.value == 0 || quantity < 1 {
      return Err(InvalidInput);
    }
    var pid := productId.value;
    if pid !in db.products {
      return Err(ProductNotFound);
    }
    var availableStock := db.products[pid].stock;
    if quantity > availableStock {
      return Err(InsufficientStock(pid));
    }
    var found := FindEntry(db.cartItems, user, pid);
    if found.Some? {
      var k := found.value;
      var newQuantity := db.cartItems[k].quantity + quantity;
      if newQuantity > availableStock {
        return Err(InsufficientStock(pid));
      }
      var item := db.cartItems[k].(quantity := newQuantity);
      db.cartItems := db.cartItems[k := item];
      assert forall j :: 0 <= j < k ==> db.cartItems[j] == old(db.cartItems)[j];
      FindEntryFirst(db.cartItems, user, pid, k);
      r := Ok(item);
    } else {
      var item := CartItem(db.nextCartItemId, user, pid, quantity);
      db.cartItems := db.cartItems + [item];
      db.nextCartItemId := db.nextCartItemId + 1;
      assert forall j :: 0 <= j < |old(db.cartItems)| ==> db.cartItems[j] == old(db.cartItems)[j];
      FindEntryFirst(db.cartItems, user, pid, |old(db.cartItems)|);
      r := Ok(item);
    }
  }

  /** `updateCartItem`: replaces the quantity of the caller's row `itemId`
      when the product's stock covers it. */
  method UpdateCartItem(db: Database, user: int, itemId: int, quantity: int) returns (r: Result<CartItem>)
    requires db.Valid()
    modifies db`cartItems
    ensures db.Valid()
    ensures r.Err? ==> db.cartItems == old(db.cartItems)
    ensures quantity < 1 ==> r == Err(InvalidInput)
    ensures quantity >= 1 ==>
      match FindOwned(old(db.cartItems), user, itemId)
      case None => r == Err(CartItemNotFound)
      case Some(k) =>
        var it := old(db.cartItems)[k];
        if it.productId !in db.products then r == Err(CartItemNotFound)
        else if quantity > db.products[it.productId].stock then r == Err(InsufficientStock(it.productId))
        else r == Ok(it.(quantity := quantity)) && db.cartItems == old(db.cartItems)[k := r.value]
    ensures r.Ok? ==>
      && r.value.userId == user && 1 <= r.value.quantity
      && r.value.productId in db.products && r.value.quantity <= db.products[r.value.productId].stock
  {
    if quantity < 1 {
      return Err(InvalidInput);
    }
    var found := FindOwned(db.cartItems, user, itemId);
    if found.None? || db.cartItems[found.value].productId !in db.products {
      return Err(CartItemNotFound);
    }
    var k := found.value;
    var stock := db.products[db.cartItems[k].productId].stock;
    if quantity > stock {
      return Err(InsufficientStock(db.cartItems[k].productId));
    }
    var item := db.cartItems[k].(quantity := quantity);
    db.cartItems := db.cartItems[k := item];
    r := Ok(item);
  }

  /** `removeCartItem`: deletes the caller's row `itemId` and nothing else. */
  method RemoveCartItem(db: Database, user: int, itemId: int) returns (r: Result<()>)
    requires db.Valid()
    modifies db`cartItems
    ensures db.Valid()
    ensures match FindOwned(old(db.cartItems), user, itemId)
      case None => r == Err(CartItemNotFound) && db.cartItems == old(db.cartItems)
      case Some(k) => r == Ok(()) && db.cartItems == old(db.cartItems)[..k] + old(db.cartItems)[k + 1..]
  {
    var found := FindOwned(db.cartItems, user, itemId);
    if found.None? {
      return Err(CartItemNotFound);
    }
    IdOnlyAt(db.cartItems, found.value);
    WithoutIdRemovesAt(db.cartItems, found.value);
    WithoutIdDistinct(db.cartItems, itemId);
    db.cartItems := WithoutId(db.cartItems, itemId);
    r := Ok(());
  }

  /** `clearCart`: deletes every row of the caller and no one else's. */
  method ClearCart(db: Database, user: int)
    requires db.Valid()
    modifies db`cartItems
    ensures db.Valid()
    ensures db.cartItems == WithoutUser(old(db.cartItems), user)
    ensures forall it :: it in db.cartItems <==> it in old(db.cartItems) && it.userId != user
  {
    WithoutUserDistinct(db.cartItems, user);
    db.cartItems := WithoutUser(db.cartItems, user);
  }
}
