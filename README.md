# Tic-tac-toe and stationery-shop business rules in Dafny

This project models two parts of a small collection of JavaScript projects and proves their rules.

- **The browser tic-tac-toe game** (`local/Tic-Tac-Toe/script.js`). The state is a nine-cell
  board, the player to move and an "active" flag. It changes through cell clicks and the reset
  button. The rules are pure functions over a `Game` value: `Click`, `Initial` and the winning
  lines table. The class `TicTacToe.Board` holds the same state in an array field and two
  mutable fields. Its methods are proved to follow those functions. Every state reachable from
  a reset keeps the alternation invariant: X leads O by zero or one mark, and while the game is
  on it is X's turn exactly when the counts are equal.
- **The Stationary_E-Commerce backend** (modules `StationaryDb`, `StationaryProducts` and
  `StationaryOrders`). A `Store` object holds the products and single-product orders tables.
  - The stock ledger `updateStockStatus` clamps the stock at zero and derives the
    sold/in-stock status.
  - Placing, cancelling and returning an order move stock through that ledger.
  - A status change stamps the delivery or return date, modelled as flags.
- **The PERN Stationery shop** (modules `ShopDb`, `Auth`, `Cart`, `Orders`, `Returns` and
  `Catalog`). A `Database` object holds the products, cart_items, orders, order_items and
  returns tables. Each request handler is one atomic method over it. Every handler keeps
  `Database.Valid()`:
  - serial ids stay below their counters;
  - prices and stock are never negative;
  - cart quantities are at least one;
  - each user has at most one cart row per product;
  - each order has at most one return request, and that request refers to an existing order.

Prices are integers (cents). The JSON Web Token check is an oracle function passed as a
parameter. The admin-only routes become a precondition: the caller's role is "admin".

## Model

| member | source | states |
|---|---|---|
| TicTacToe.SomeLineWon | local/Tic-Tac-Toe/script.js:40-43 | `some` over the combinations table: true iff some listed combination holds three equal non-empty marks |
| TicTacToe.CheckWinnerCorrect | local/Tic-Tac-Toe/script.js:34-43 | the eight combinations are exactly the three rows, the three columns and the two diagonals, so `checkWinner` holds iff the grid has three in a row |
| TicTacToe.Initial | local/Tic-Tac-Toe/script.js:1-3 | the start state: nine empty cells, X to move, game active |
| TicTacToe.Click | local/Tic-Tac-Toe/script.js:10-29 | a click on a filled cell or a finished game changes nothing; otherwise the mover's mark goes into exactly that cell, the game ends iff there is a winner or the board is full, the mover stays current when it ends and the player toggles otherwise |
| TicTacToe.InitialInv | local/Tic-Tac-Toe/script.js:1-3 | the start state satisfies the alternation invariant |
| TicTacToe.ClickPreservesInv | local/Tic-Tac-Toe/script.js:17-28 | one click keeps the invariant: X count minus O count is 0 or 1, and while active X is to move iff the counts are equal |
| TicTacToe.RunPreservesInv | local/Tic-Tac-Toe/script.js:10-29 | any sequence of clicks keeps the invariant |
| TicTacToe.ReachableInv | local/Tic-Tac-Toe/script.js:1-29 | every state reached by clicks from the start satisfies the invariant |
| TicTacToe.FinishedGameFrozen | local/Tic-Tac-Toe/script.js:13-15 | once the game is inactive, no sequence of clicks changes anything |
| TicTacToe.Board.constructor | local/Tic-Tac-Toe/script.js:1-3 | the page-load globals hold the start state and the invariant |
| TicTacToe.Board.HandleCellClick | local/Tic-Tac-Toe/script.js:10-29 | the in-place update of board, player and flag equals `Click` on the old state and keeps the invariant |
| TicTacToe.Board.Reset | local/Tic-Tac-Toe/script.js:47-51 | the reset handler yields nine empty cells, active, X to move |
| StationaryDb.StatusFor | local/Stationary_E-Commerce/controllers/productController.js:5 | the status is "in-stock" iff stock is positive, and "sold" iff it is not |
| StationaryProducts.ApplyDelta | local/Stationary_E-Commerce/controllers/productController.js:31-34 | the new stock is max(0, stock + delta), never negative; the status agrees with the new stock; other columns are unchanged |
| StationaryProducts.DebitThenCredit | local/Stationary_E-Commerce/controllers/productController.js:31-34 | a debit the stock covers, followed by the same credit, restores the product |
| StationaryProducts.ClampedDebitInflates | local/Stationary_E-Commerce/controllers/productController.js:31-32 | credits are not capped: after a clamped debit, the matching credit leaves more stock than before |
| StationaryProducts.UpdateStockStatus | local/Stationary_E-Commerce/controllers/productController.js:27-41 | an unknown id gives "Product not found" and changes nothing; otherwise only that product's row becomes `ApplyDelta` of it |
| StationaryProducts.CreateProduct | local/Stationary_E-Commerce/controllers/productController.js:3-11 | a fresh id gets the row, with the status derived from the stock |
| StationaryProducts.UpdateProduct | local/Stationary_E-Commerce/controllers/productController.js:43-59 | a missing id gives not-found with the table unchanged; otherwise the row is replaced, with the status derived from the stock |
| StationaryProducts.DeleteProduct | local/Stationary_E-Commerce/controllers/productController.js:67-75 | a missing id gives not-found with the table unchanged; otherwise exactly that row goes |
| StationaryOrders.WithStatus | local/Stationary_E-Commerce/controllers/orderController.js:63-77 | "delivered" stamps only the delivery date, "returned" only the return date, any other status neither; user, product and quantity are kept |
| StationaryOrders.PlaceOrder | local/Stationary_E-Commerce/controllers/orderController.js:5-19 | a missing product or a short stock gives "Out of stock" and changes nothing; otherwise exactly one order (user, product, quantity) is added, and the products table changes only in that product, which is the ledger's `ApplyDelta` by minus the quantity: every other column is kept, the stock drops by the quantity and stays non-negative, and the status is recomputed |
| StationaryOrders.Credit | local/Stationary_E-Commerce/controllers/productController.js:27-41 | crediting an order changes only its product's row, whose stock grows by the order's quantity |
| StationaryOrders.CancelStep | local/Stationary_E-Commerce/controllers/orderController.js:104-113 | only an in-transit order is touched: it becomes canceled; every other order and every other request leaves both tables as they are |
| StationaryOrders.ReturnStep | local/Stationary_E-Commerce/controllers/orderController.js:85-97 | only a delivered order is touched: it becomes returned; every other order and every other request leaves both tables as they are |
| StationaryOrders.StatusStepAsWritten | local/Stationary_E-Commerce/controllers/orderController.js:53-77 | as written, a listed status is set on any existing order, canceled and returned ones included, and no other order changes |
| StationaryOrders.StatusStep | local/Stationary_E-Commerce/controllers/orderController.js:53-77 | the corrected update: a listed status is set on an existing order unless it is canceled or returned, which stays as it is; no other order changes |
| StationaryOrders.FinalStepNoOp | local/Stationary_E-Commerce/controllers/orderController.js:49-117 | with the corrected update, a status change, cancel or return naming a canceled or returned order changes nothing, so nothing is credited |
| StationaryOrders.FinalOrderFrozen | local/Stationary_E-Commerce/controllers/orderController.js:49-117 | with the corrected update, a canceled or returned order stays exactly as it is through any run of requests |
| StationaryOrders.DoubleCreditAsWritten | local/Stationary_E-Commerce/controllers/orderController.js:49-117 | as written, cancel, set back to in-transit and cancel again credits the order's quantity twice; with the corrected update it is credited once |
| StationaryOrders.UpdateOrderStatus | local/Stationary_E-Commerce/controllers/orderController.js:49-77 | a status outside the configured list is refused before any lookup; a missing order gives 404; a canceled or returned order is refused (see Findings); otherwise only that order gets `WithStatus`; the new table is `StatusStep` of the old |
| StationaryOrders.ReturnOrder | local/Stationary_E-Commerce/controllers/orderController.js:85-97 | only a delivered order can be returned: it becomes "returned" with the return date stamped, and its quantity is credited to the product; a refusal changes neither orders nor stock; both tables become `ReturnStep` of the old ones |
| StationaryOrders.CancelOrder | local/Stationary_E-Commerce/controllers/orderController.js:104-113 | only an in-transit order can be cancelled: it becomes "canceled" and its quantity is credited; a refusal changes neither orders nor stock; both tables become `CancelStep` of the old ones |
| Common.Trim | local/Stationery_Ecommerce_PERN/Stationery_Shop/controllers/products.controller.js:48 | `trim()`: the result is the input with a whitespace-only margin cut at each end, and it neither starts nor ends with whitespace (the ECMAScript white-space and line-terminator characters) |
| Common.TrimEmptyIff | local/Stationery_Ecommerce_PERN/Stationery_Shop/controllers/products.controller.js:48 | `trim() === ''` holds exactly when every character of the text is whitespace |
| Common.TrimIdempotent | local/Stationery_Ecommerce_PERN/Stationery_Shop/controllers/products.controller.js:93 | trimming twice is trimming once |
| Common.ToLower | local/Stationery_Ecommerce_PERN/Stationery_Shop/controllers/order.controller.js:133 | `toLowerCase()` maps each letter A-Z to its lower-case form and keeps every other character and the length |
| Auth.Fields | local/Stationery_Ecommerce_PERN/Stationery_Shop/middleware/auth.middleware.js:11 | `split(' ')` always yields at least one field |
| Auth.FieldsHaveNoSpace | local/Stationery_Ecommerce_PERN/Stationery_Shop/middleware/auth.middleware.js:11 | no field of a split contains the separator |
| Auth.JoinFields | local/Stationery_Ecommerce_PERN/Stationery_Shop/middleware/auth.middleware.js:11 | joining the fields with single spaces gives back the header |
| Auth.BearerToken | local/Stationery_Ecommerce_PERN/Stationery_Shop/middleware/auth.middleware.js:7-11 | there is a token iff the header is present and starts with "Bearer "; it is the second space-separated field, the text after "Bearer " up to the next space |
| Auth.Authenticate | local/Stationery_Ecommerce_PERN/Stationery_Shop/middleware/auth.middleware.js:5-20 | no bearer header gives 401; a token the verifier rejects gives 403; otherwise the decoded payload |
| Auth.AuthenticateToken | local/Stationery_Ecommerce_PERN/Stationery_Shop/middleware/auth.middleware.js:4-21 | `next` is called iff authentication succeeds, and then the request's user is the payload; otherwise the answer is 401 or 403 and the user is untouched |
| Auth.AuthorizeRoles | local/Stationery_Ecommerce_PERN/Stationery_Shop/middleware/auth.middleware.js:24-37 | no user or no role gives 403; `next` is called iff the role is in the allowed list; every refusal is 403 |
| Auth.AdminGate | local/Stationery_Ecommerce_PERN/Stationery_Shop/routes/order.routes.js:24-25 | `authorizeRoles('admin')` passes exactly the users whose role is "admin" |
| Cart.JoinedRows | local/Stationery_Ecommerce_PERN/Stationery_Shop/controllers/cart.controller.js:14-20 | the rows the join keeps are exactly the caller's rows whose product exists |
| Cart.CartLines | local/Stationery_Ecommerce_PERN/Stationery_Shop/controllers/cart.controller.js:14-20 | the join only lists rows of the caller whose product exists, with that product's current price and stock |
| Cart.CartLinesRows | local/Stationery_Ecommerce_PERN/Stationery_Shop/controllers/cart.controller.js:14-20 | the cart shows the joined rows one line each, in table order |
| Cart.CartLinesComplete | local/Stationery_Ecommerce_PERN/Stationery_Shop/controllers/cart.controller.js:14-20 | every row of the caller whose product exists is listed |
| Cart.GetCart | local/Stationery_Ecommerce_PERN/Stationery_Shop/controllers/cart.controller.js:10-28 | the answer holds one line per joined row, in table order, each with its product's current price, and the total is Σ price × quantity over the lines |
| Cart.CartTotalOfRows | local/Stationery_Ecommerce_PERN/Stationery_Shop/controllers/cart.controller.js:14-22 | the cart total is Σ current price × quantity over exactly the caller's rows with an existing product, each counted once |
| Cart.TotalAppend | local/Stationery_Ecommerce_PERN/Stationery_Shop/controllers/cart.controller.js:22 | the reduce is additive over concatenation |
| Cart.CartLinesAppend | local/Stationery_Ecommerce_PERN/Stationery_Shop/controllers/cart.controller.js:14-20 | the cart of a table is the cart of its first part followed by the cart of the rest |
| Cart.CartTotalAppend | local/Stationery_Ecommerce_PERN/Stationery_Shop/controllers/cart.controller.js:14-22 | the cart total over two runs of rows is the sum of their totals |
| Cart.CartTotalNonNegative | local/Stationery_Ecommerce_PERN/Stationery_Shop/controllers/cart.controller.js:22 | with quantities of at least one and non-negative prices, the cart total is never negative |
| Cart.FindEntry | local/Stationery_Ecommerce_PERN/Stationery_Shop/controllers/cart.controller.js:56-59 | finds the first row of the user for the product, or reports that there is none |
| Cart.FindEntryFirst | local/Stationery_Ecommerce_PERN/Stationery_Shop/controllers/cart.controller.js:56-59 | the first matching row is the one found |
| Cart.FindOwned | local/Stationery_Ecommerce_PERN/Stationery_Shop/controllers/cart.controller.js:152 | finds a row with the id only if the caller owns it, and reports none only when no such row exists |
| Cart.WithoutUser | local/Stationery_Ecommerce_PERN/Stationery_Shop/controllers/cart.controller.js:169 | the rows kept are exactly those of other users |
| Cart.WithoutId | local/Stationery_Ecommerce_PERN/Stationery_Shop/controllers/cart.controller.js:157 | the rows kept are exactly those with another id |
| Cart.WithoutUserDistinct | local/Stationery_Ecommerce_PERN/Stationery_Shop/controllers/cart.controller.js:169 | clearing a cart keeps ids and (user, product) pairs distinct |
| Cart.WithoutIdDistinct | local/Stationery_Ecommerce_PERN/Stationery_Shop/controllers/cart.controller.js:157 | deleting by id keeps ids and (user, product) pairs distinct |
| Cart.WithoutIdRemovesAt | local/Stationery_Ecommerce_PERN/Stationery_Shop/controllers/cart.controller.js:157 | when only one row carries the id, deleting by id removes exactly that row |
| Cart.WithoutUserIdempotent | local/Stationery_Ecommerce_PERN/Stationery_Shop/controllers/cart.controller.js:169 | clearing a cart twice is clearing it once |
| Cart.ClearedCartIsEmpty | local/Stationery_Ecommerce_PERN/Stationery_Shop/controllers/cart.controller.js:169 | after clearing, the caller's cart view is empty |
| Cart.ClearKeepsOtherCarts | local/Stationery_Ecommerce_PERN/Stationery_Shop/controllers/cart.controller.js:169 | clearing one user's cart leaves every other user's cart view unchanged |
| Cart.AddToCart | local/Stationery_Ecommerce_PERN/Stationery_Shop/controllers/cart.controller.js:35-99 | a missing product id or a quantity below one, an unknown product, or a merged quantity above stock is refused and changes nothing; otherwise the existing row's quantity becomes current + qty, or one new row is appended; the result lies in [1, stock] and the keys stay distinct |
| Cart.UpdateCartItem | local/Stationery_Ecommerce_PERN/Stationery_Shop/controllers/cart.controller.js:102-144 | a quantity below one, a row not owned by the caller, or one above stock is refused and changes nothing; otherwise the quantity is replaced, not added to, in that row only |
| Cart.RemoveCartItem | local/Stationery_Ecommerce_PERN/Stationery_Shop/controllers/cart.controller.js:147-162 | 404 unless the row belongs to the caller; otherwise exactly that row is removed |
| Cart.ClearCart | local/Stationery_Ecommerce_PERN/Stationery_Shop/controllers/cart.controller.js:165-174 | every row of the caller goes and no one else's |
| Orders.StatusOfName | local/Stationery_Ecommerce_PERN/Stationery_Shop/controllers/order.controller.js:135-136 | a text is accepted iff it is one of the five stored names, and it is read as the status of that name |
| Orders.ParseStatus | local/Stationery_Ecommerce_PERN/Stationery_Shop/controllers/order.controller.js:133-136 | the trimmed, lower-cased text is accepted iff it names one of the five statuses, and it is read as that status |
| Orders.NormalizeWord | local/Stationery_Ecommerce_PERN/Stationery_Shop/controllers/order.controller.js:133 | a word of lower-case letters and hyphens is unchanged by trimming and lower-casing |
| Orders.NormalizeName | local/Stationery_Ecommerce_PERN/Stationery_Shop/controllers/order.controller.js:133-135 | each of the five stored names is unchanged by trimming and lower-casing |
| Orders.ParseStatusName | local/Stationery_Ecommerce_PERN/Stationery_Shop/controllers/order.controller.js:135 | each listed name is accepted and read back as its own status |
| Orders.ParseStatusNormalized | local/Stationery_Ecommerce_PERN/Stationery_Shop/controllers/order.controller.js:133 | surrounding whitespace and letter case do not change the result |
| Orders.Shortage | local/Stationery_Ecommerce_PERN/Stationery_Shop/controllers/order.controller.js:26-30 | the first line whose quantity exceeds its stock, or none when the stock covers every line |
| Orders.FirstShortage | local/Stationery_Ecommerce_PERN/Stationery_Shop/controllers/order.controller.js:26-30 | the stock-check loop stops at exactly the line `Shortage` names |
| Orders.OrderItemsFor | local/Stationery_Ecommerce_PERN/Stationery_Shop/controllers/order.controller.js:44-51 | one order item per cart line, in order, carrying the line's product, quantity and current price |
| Orders.OrderTotalMatchesItems | local/Stationery_Ecommerce_PERN/Stationery_Shop/controllers/order.controller.js:33-51 | the stored order total equals Σ price × quantity over its order items |
| Orders.DebitStep | local/Stationery_Ecommerce_PERN/Stationery_Shop/controllers/order.controller.js:54-60 | the debit of one more line changes only that line's product, by its quantity |
| Orders.CartLinesDistinct | local/Stationery_Ecommerce_PERN/Stationery_Shop/controllers/order.controller.js:15-19 | with one cart row per user and product, the joined lines name distinct products |
| Orders.DebitPerLine | local/Stationery_Ecommerce_PERN/Stationery_Shop/controllers/order.controller.js:54-60 | each ordered product's stock drops by exactly its line's quantity, and every other product is unchanged |
| Orders.DebitNonNegative | local/Stationery_Ecommerce_PERN/Stationery_Shop/controllers/order.controller.js:26-60 | when the stock check passed, no stock goes negative |
| Orders.InsertOrder | local/Stationery_Ecommerce_PERN/Stationery_Shop/controllers/order.controller.js:36-41 | one order row with a fresh id, the caller, the total and the column default status |
| Orders.InsertOrderItems | local/Stationery_Ecommerce_PERN/Stationery_Shop/controllers/order.controller.js:44-51 | the loop appends exactly `OrderItemsFor` the lines |
| Orders.DebitStock | local/Stationery_Ecommerce_PERN/Stationery_Shop/controllers/order.controller.js:54-60 | the loop leaves the products table equal to `Debit` of the old one and keeps stock non-negative |
| Orders.PlaceOrder | local/Stationery_Ecommerce_PERN/Stationery_Shop/controllers/order.controller.js:10-69 | an empty cart gives "Cart is empty"; a short line gives an error naming the first such product; either way nothing changes; success iff neither happens, and then one order with total Σ price × quantity, one item per line with the price snapshot, stock debited per line, and the caller's cart cleared with other carts intact |
| Orders.ItemsOf | local/Stationery_Ecommerce_PERN/Stationery_Shop/controllers/order.controller.js:102-106 | only the order's items whose product exists, each with that product's title and description |
| Orders.ItemsOfComplete | local/Stationery_Ecommerce_PERN/Stationery_Shop/controllers/order.controller.js:102-106 | every item of the order whose product exists is shown |
| Orders.GetOrderById | local/Stationery_Ecommerce_PERN/Stationery_Shop/controllers/order.controller.js:84-112 | 404 iff the order is missing; 403 iff it exists and the caller is neither owner nor admin; otherwise the order and its items |
| Orders.StatusChange | local/Stationery_Ecommerce_PERN/Stationery_Shop/controllers/order.controller.js:129-153 | a missing status, then an unlisted status, then a missing order, then a cancelled or returned order are refused, in that order; success iff none of these, and then the accepted status is the one the normalized text names, with no check on the transition |
| Orders.StatusChangeByName | local/Stationery_Ecommerce_PERN/Stationery_Shop/controllers/order.controller.js:133-136 | any text that trims and lower-cases to a status's name is accepted as that status for every order that is not cancelled or returned |
| Orders.SetOrderStatus | local/Stationery_Ecommerce_PERN/Stationery_Shop/controllers/order.controller.js:156-159 | the update changes that order's status and no other row or column |
| Orders.UpdateOrderStatus | local/Stationery_Ecommerce_PERN/Stationery_Shop/controllers/order.controller.js:125-168 | the answer is `StatusChange` of the old orders table; on a refusal nothing changes, on success only that order's status is set |
| Orders.CancelOrder | local/Stationery_Ecommerce_PERN/Stationery_Shop/controllers/order.controller.js:172-197 | 404 for a missing order, 403 unless owner or admin, 400 unless pending; otherwise only that order becomes cancelled; stock is never credited |
| Returns.RequestRefusal | local/Stationery_Ecommerce_PERN/Stationery_Shop/controllers/returns.controller.js:18-46 | a missing order id or reason, then an order that is missing or not the caller's, then one not delivered, then one with a request already, are refused in that order; nothing else is |
| Returns.FiledOnlyWhenDelivered | local/Stationery_Ecommerce_PERN/Stationery_Shop/controllers/returns.controller.js:35-46 | a request is filed only for a delivered order of the caller's with no request yet |
| Returns.RequestReturn | local/Stationery_Ecommerce_PERN/Stationery_Shop/controllers/returns.controller.js:14-63 | refuses exactly when `RequestRefusal` does, with its answer and no change; otherwise adds one return row (order, caller, reason) under a fresh id and leaves the orders untouched; at most one return per order is kept |
| Returns.SecondRequestRefused | local/Stationery_Ecommerce_PERN/Stationery_Shop/controllers/returns.controller.js:40-46 | once a request row for an order is added, every later request for that order is refused, whoever sends it and whatever the orders table holds |
| Returns.RequestRefusalAsWritten | local/Stationery_Ecommerce_PERN/Stationery_Shop/controllers/returns.controller.js:24-30 | as written, every request that passes the input check is refused with a server error |
| Returns.AsWrittenRefusesDeliveredOrder | local/Stationery_Ecommerce_PERN/Stationery_Shop/controllers/returns.controller.js:24-27 | a delivered order of the caller's with no request is filed by the intended handler and refused by the written one |
| Returns.ParseReturnStatus | local/Stationery_Ecommerce_PERN/Stationery_Shop/controllers/returns.controller.js:9 | only the exact texts "approved", "rejected" and "processed" are accepted, each as its own status |
| Returns.ProcessOrdersAsWritten | local/Stationery_Ecommerce_PERN/Stationery_Shop/controllers/returns.controller.js:124-131 | as written, processing a return marks its order returned whatever its status, and changes no other order |
| Returns.ProcessOrders | local/Stationery_Ecommerce_PERN/Stationery_Shop/controllers/returns.controller.js:124-131 | processing a return marks its order returned unless it is already cancelled or returned, and changes no other order |
| Returns.ProcessKeepsFinal | local/Stationery_Ecommerce_PERN/Stationery_Shop/controllers/returns.controller.js:124-131 | after processing, no cancelled or returned order has changed and the return's order is final |
| Returns.ProcessRevivesCancelled | local/Stationery_Ecommerce_PERN/Stationery_Shop/controllers/returns.controller.js:124-131 | a cancelled order with a processed return becomes returned as written and stays cancelled in the corrected step |
| Returns.UpdateReturnStatus | local/Stationery_Ecommerce_PERN/Stationery_Shop/controllers/returns.controller.js:99-140 | an unlisted status gives 400 and a missing return gives 404, with nothing changed; otherwise the return's status is set; only "processed" also changes the orders table, as `ProcessOrders` (never an order already cancelled or returned; see Findings); stock is never touched |
| Catalog.ValidateNew | local/Stationery_Ecommerce_PERN/Stationery_Shop/controllers/products.controller.js:44-66 | title, price, stock and status are checked in that order (non-blank title, price ≥ 0, integer stock ≥ 0, non-blank status); success iff all pass, and the row holds the trimmed title and status |
| Catalog.Merge | local/Stationery_Ecommerce_PERN/Stationery_Shop/controllers/products.controller.js:89-113 | a supplied field is checked and replaces the old value; a missing one keeps it; any invalid supplied field rejects the whole update, with title, price, stock and status checked in that order |
| Catalog.MergeNothing | local/Stationery_Ecommerce_PERN/Stationery_Shop/controllers/products.controller.js:93-110 | an update with no fields leaves the product as it is |
| Catalog.MergeKeepsBounds | local/Stationery_Ecommerce_PERN/Stationery_Shop/controllers/products.controller.js:100-108 | an update never makes price or stock negative |
| Catalog.MergeIdempotent | local/Stationery_Ecommerce_PERN/Stationery_Shop/controllers/products.controller.js:93-113 | applying the same update twice has the effect of applying it once |
| Catalog.FullUpdateIsCreate | local/Stationery_Ecommerce_PERN/Stationery_Shop/controllers/products.controller.js:89-113 | an update that supplies every field is checked like a create and yields the same row, whatever the old row was |
| Catalog.CreateProduct | local/Stationery_Ecommerce_PERN/Stationery_Shop/controllers/products.controller.js:44-76 | a refused body inserts nothing; a valid one inserts the validated row under a fresh id |
| Catalog.InsertProduct | local/Stationery_Ecommerce_PERN/Stationery_Shop/controllers/products.controller.js:62-66 | the row is added under a fresh id |
| Catalog.UpdateProduct | local/Stationery_Ecommerce_PERN/Stationery_Shop/controllers/products.controller.js:79-130 | 404 for a missing id; otherwise the answer is the merge; the table changes only on success, and only in that row |
| Catalog.DeleteProduct | local/Stationery_Ecommerce_PERN/Stationery_Shop/controllers/products.controller.js:133-148 | 404 for a missing id with nothing changed; otherwise exactly that product is removed |

## Left out

- DOM output is not modelled: cell text, the status line and the unused `highlightWinner` in `script.js`. Response messages, console logging and the 500 answers of failed queries are left out too.
- Timestamps (`CURRENT_TIMESTAMP`, `created_at`, `updated_at`) are left out. The Stationary order dates are only "has been stamped" flags.
- The schemas and the Stationary constants file are not part of this model. So `VALID_ORDER_STATUSES` and the orders' default status become parameters of `StationaryDb.Store`. The PERN orders' default status becomes a parameter of `ShopDb.Database`, and the returns' default status is the `Requested` placeholder.
- Foreign keys and cascades are not modelled: rows that point at a deleted product stay, and the joins skip them.
- Each handler is one atomic step. Concurrency, read-then-write races and the `Promise.all` batches of `placeOrder` are not modelled.
- Prices are integer cents, and request numbers arrive already parsed.
  - Not modelled: floating-point prices, `parseInt`, NUMERIC-as-string coercion and JavaScript's `typeof` checks on non-string or non-number bodies.
  - `null` versus `undefined` in `updateProduct` is not modelled either; a `null` title or status, which makes `trim()` throw, is not represented.
- `trim()` removes the full ECMAScript white-space and line-terminator set. `toLowerCase()` is modelled for the letters A-Z only; Unicode case mapping is not.
- The JSON Web Token signature check is an oracle `verify` parameter, not an implementation.
- Plain reads with no rule are not modelled: `getMyOrders`, `getAllOrders`, `getMyReturns`, `getAllReturns`, `getAllProducts`, `getProductById` and the Stationary `getProducts` and `getAllOrders`.
- Rows come back in table order. SQL gives no ordering guarantee without `ORDER BY`.
- Orders.DebitStock: the PERN debit updates the stock column only, as the source does. The product's status column is not recomputed.
- StationaryOrders.ReturnOrder: requires the order to exist. For a missing row the handler throws on `order.rows[0].status`, and its `catch` block refers to an undefined `err`, so the error path is not modelled. `ReturnStep` leaves the tables unchanged in that case, since nothing is written.
- StationaryOrders.CancelOrder: requires the order to exist, for the same reason.
- StationaryOrders.UpdateOrderStatus: refuses a canceled or returned order. The handler as written does not, so an order can be credited twice; see Findings.
- StationaryOrders.PlaceOrder: the orders' `catch` blocks refer to an undefined `err`, so their error path is not modelled.
- Returns.RequestReturn: follows the intended owner lookup. The handler as written sends that query without its values; see Findings.
- Returns.UpdateReturnStatus: never marks a cancelled or returned order as returned. The handler as written does; see Findings.

## Findings

| source | as written | input that shows it | evidently intended | confidence | as-written member | corrected member |
|---|---|---|---|---|---|---|
| local/Stationery_Ecommerce_PERN/Stationery_Shop/controllers/returns.controller.js:24-27 | the owner lookup `SELECT * FROM orders WHERE id = $1 AND user_id = $2` is sent with no parameter values (the array `[order_id, userId]` sits after a `catch` block at line 93), so the database rejects it and the handler answers 500 | customer 7 asks to return delivered order 1 with reason "damaged" and no earlier request | look up the order by id and owner, then go on to the delivered and existing-request checks and file the request | high; not executed | Returns.RequestRefusalAsWritten, Returns.AsWrittenRefusesDeliveredOrder | Returns.RequestRefusal, Returns.RequestReturn |
| local/Stationery_Ecommerce_PERN/Stationery_Shop/controllers/returns.controller.js:124-131 | a processed return sets its order to `returned` with no check of the order's status, while `updateOrderStatus` treats cancelled and returned as final (order.controller.js:151) and lets an admin move a delivered order to cancelled | customer 7's delivered order 1 gets a return request; the admin sets the order to cancelled, then marks the return processed: the cancelled order becomes returned | leave an order that is already cancelled or returned as it is | medium; not executed | Returns.ProcessOrdersAsWritten, Returns.ProcessRevivesCancelled | Returns.ProcessOrders, Returns.ProcessKeepsFinal, Returns.UpdateReturnStatus |
| local/Stationary_E-Commerce/controllers/orderController.js:53-77 | `updateOrderStatus` sets any listed status on any order, canceled and returned ones included, and `cancelOrder` (lines 104-113) and `returnOrder` (lines 85-97) credit the order's quantity each time the order is in transit or delivered | order 1 takes 2 of product 1, leaving 3; the order is canceled (stock 5), set back to in-transit, and canceled again (stock 7) | leave a canceled or returned order as it is, so its quantity is credited once | medium; not executed | StationaryOrders.StatusStepAsWritten, StationaryOrders.DoubleCreditAsWritten | StationaryOrders.StatusStep, StationaryOrders.FinalStepNoOp, StationaryOrders.FinalOrderFrozen, StationaryOrders.UpdateOrderStatus |
