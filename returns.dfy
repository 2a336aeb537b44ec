/** controllers/returns.controller.js of the Stationery shop: a customer
    asks to return a delivered order, and an admin approves, rejects or
    processes the request. */
module Returns {
  import opened Common
  import opened ShopDb
  import Auth

  /** `!order_id || !reason`: a field is missing, zero or the empty string. */
  predicate RequestIncomplete(orderId: Option<int>, reason: Option<string>)
  {
    orderId.None? || orderId.value == 0 || reason.None? || reason.value == ""
  }

  /** `SELECT * FROM returns WHERE order_id = $1` finds a row. */
  predicate HasReturn(rs: map<int, ReturnRequest>, orderId: int)
  {
    exists id :: id in rs && rs[id].orderId == orderId
  }

  /** The checks of `requestReturn`, in their order, with the owner lookup
      the handler intends: the answer it refuses with, or `None` when the
      request is filed. */
  function RequestRefusal(orders: map<int, Order>, rs: map<int, ReturnRequest>, user: int,
                          orderId: Option<int>, reason: Option<string>): (e: Option<Error>)
    ensures RequestIncomplete(orderId, reason) ==> e == Some(InvalidInput)
    ensures !RequestIncomplete(orderId, reason) ==>
      var oid := orderId.value;
      && (oid !in orders || orders[oid].userId != user ==> e == Some(OrderNotFound))
      && (oid in orders && orders[oid].userId == user && orders[oid].status != Delivered ==> e == Some(NotDelivered))
      && (oid in orders && orders[oid].userId == user && orders[oid].status == Delivered ==>
            (e.None? <==> !HasReturn(rs, oid)) && (e.Some? ==> e == Some(ReturnExists)))
  {
    if RequestIncomplete(orderId, reason) then Some(InvalidInput)
    else
      var oid := orderId.value;
      if oid !in orders || orders[oid].userId != user then Some(OrderNotFound)
      else if orders[oid].status != Delivered then Some(NotDelivered)
      else if HasReturn(rs, oid) then Some(ReturnExists)
      else None
  }

  /** A request is filed only for a delivered order of the caller's that has
      no request yet. */
  lemma FiledOnlyWhenDelivered(orders: map<int, Order>, rs: map<int, ReturnRequest>, user: int,
                               orderId: Option<int>, reason: Option<string>)
    requires RequestRefusal(orders, rs, user, orderId, reason).None?
    ensures orderId.Some? && orderId.value in orders
    ensures orders[orderId.value].userId == user && orders[orderId.value].status == Delivered
    ensures !HasReturn(rs, orderId.value) && reason.Some? && reason.value != ""
  {
  }

  /** `requestReturn`: the caller files one return request for an order of
      theirs that has been delivered and has no request yet. The order
      itself is left as it is. */
  method RequestReturn(db: Database, user: int, orderId: Option<int>, reason: Option<string>)
    returns (r: Result<int>)
    requires db.Valid()
    modifies db`returnRequests, db`nextReturnId
    ensures db.Valid()
    ensures r.Err? <==> RequestRefusal(db.orders, old(db.returnRequests), user, orderId, reason).Some?
    ensures r.Err? ==>
      && r.error == RequestRefusal(db.orders, old(db.returnRequests), user, orderId, reason).value
      && db.returnRequests == old(db.returnRequests)
    ensures r.Ok? ==>
      && r.value !in old(db.returnRequests)
      && db.returnRequests == old(db.returnRequests)[r.value := ReturnRequest(orderId.value, user, reason.value, Requested)]
  {
    if orderId.None? || orderId.value == 0 || reason.None? || reason.value == "" {
      return Err(InvalidInput);
    }
    var oid := orderId.value;
    if oid !in db.orders || db.orders[oid].userId != user {
      return Err(OrderNotFound);
    }
    if db.orders[oid].status != Delivered {
      return Err(NotDelivered);
    }
    if exists id :: id in db.returnRequests && db.returnRequests[id].orderId == oid {
      return Err(ReturnExists);
    }
    var id := db.nextReturnId;
    db.returnRequests := db.returnRequests[id := ReturnRequest(oid, user, reason.value, Requested)];
    db.nextReturnId := id + 1;
    r := Ok(id);
  }

  /** `requestReturn` as written: the owner lookup is sent without its
      parameter values, so the database rejects the query and every request
      that passes the input check ends in the 500 answer. */
  function RequestRefusalAsWritten(orderId: Option<int>, reason: Option<string>): (e: Option<Error>)
    ensures e.Some?
    ensures RequestIncomplete(orderId, reason) ==> e == Some(InvalidInput)
    ensures !RequestIncomplete(orderId, reason) ==> e == Some(ServerError)
  {
    if RequestIncomplete(orderId, reason) then Some(InvalidInput) else Some(ServerError)
  }

  /** The customer 7 with delivered order 1 and no return yet: the intended
      handler files the request, the handler as written refuses it. */
  lemma AsWrittenRefusesDeliveredOrder()
    ensures RequestRefusal(map[1 := Order(7, 1000, Delivered)], map[], 7, Some(1), Some("damaged")).None?
    ensures RequestRefusalAsWritten(Some(1), Some("damaged")) == Some(ServerError)
  {
  }

  /** Once a request is on file for an order, every later request for that
      order is refused, whoever sends it and whatever the orders table holds. */
  lemma SecondRequestRefused(rs: map<int, ReturnRequest>, id: int, req: ReturnRequest,
                             orders: map<int, Order>, user: int, reason: Option<string>)
    requires id !in rs
    ensures RequestRefusal(orders, rs[id := req], user, Some(req.orderId), reason).Some?
  {
    assert rs[id := req][id].orderId == req.orderId;
  }

  /** `allowedReturnStatuses.includes(status)`: exact, case-sensitive match. */
  function ParseReturnStatus(status: Option<string>): (r: Option<ReturnStatus>)
    ensures r == Some(Approved) <==> status == Some("approved")
    ensures r == Some(Rejected) <==> status == Some("rejected")
    ensures r == Some(Processed) <==> status == Some("processed")
    ensures r != Some(Requested)
  {
    if status == Some("approved") then Some(Approved)
    else if status == Some("rejected") then Some(Rejected)
    else if status == Some("processed") then Some(Processed)
    else None
  }

  /** The orders table after a return is processed, as the handler is
      written: the order becomes returned whatever its status, so a
      cancelled order can become returned. */
  function ProcessOrdersAsWritten(orders: map<int, Order>, oid: int): (os: map<int, Order>)
    ensures os.Keys == orders.Keys
    ensures oid in orders ==> os[oid] == orders[oid].(status := Returned)
    ensures forall id :: id in orders && id != oid ==> os[id] == orders[id]
  {
    if oid in orders then orders[oid := orders[oid].(status := Returned)] else orders
  }

  /** The orders table after a return is processed, keeping final orders
      final: only an order that is not cancelled or returned becomes
      returned. */
  function ProcessOrders(orders: map<int, Order>, oid: int): (os: map<int, Order>)
    ensures os.Keys == orders.Keys
    ensures oid in orders && !Final(orders[oid].status) ==> os[oid] == orders[oid].(status := Returned)
    ensures forall id :: id in orders && (id != oid || Final(orders[id].status)) ==> os[id] == orders[id]
  {
    if oid in orders && !Final(orders[oid].status) then orders[oid := orders[oid].(status := Returned)]
    else orders
  }

  /** Processing a return changes no final order and no order but its own,
      and leaves its own order final. */
  lemma ProcessKeepsFinal(orders: map<int, Order>, oid: int)
    ensures forall id :: id in orders && Final(orders[id].status) ==> ProcessOrders(orders, oid)[id] == orders[id]
    ensures oid in orders ==> Final(ProcessOrders(orders, oid)[oid].status)
  {
  }

  /** A delivered order, then cancelled by the admin (the order status
      update has no transition check), with a return on file: processing
      the return makes the cancelled order returned as written, while the
      corrected step leaves it cancelled. */
  lemma ProcessRevivesCancelled()
    ensures ProcessOrdersAsWritten(map[1 := Order(7, 1000, Cancelled)], 1)[1].status == Returned
    ensures ProcessOrders(map[1 := Order(7, 1000, Cancelled)], 1)[1].status == Cancelled
  {
  }

  /** `updateReturnStatus` (admin only): sets the request's status; only
      `processed` also marks the parent order as returned, and never one
      that is already final. Stock is never touched. */
  method UpdateReturnStatus(db: Database, actor: Auth.Claims, returnId: int, status: Option<string>)
    returns (r: Result<ReturnStatus>)
    requires Auth.IsAdmin(actor)
    requires db.Valid()
    modifies db`returnRequests, db`orders
    ensures db.Valid()
    ensures db.products == old(db.products)
    ensures r.Err? ==> db.returnRequests == old(db.returnRequests) && db.orders == old(db.orders)
    ensures ParseReturnStatus(status).None? ==> r == Err(InvalidStatus)
    ensures ParseReturnStatus(status).Some? && returnId !in old(db.returnRequests) ==> r == Err(ReturnNotFound)
    ensures ParseReturnStatus(status).Some? && returnId in old(db.returnRequests) ==>
      var s := ParseReturnStatus(status).value;
      var oid := old(db.returnRequests)[returnId].orderId;
      && r == Ok(s)
      && db.returnRequests == old(db.returnRequests)[returnId := old(db.returnRequests)[returnId].(status := s)]
      && db.orders == (if s == Processed then ProcessOrders(old(db.orders), oid) else old(db.orders))
  {
    var s := ParseReturnStatus(status);
    if s.None? {
      return Err(InvalidStatus);
    }
    if returnId !in db.returnRequests {
      return Err(ReturnNotFound);
    }
    var returnData := db.returnRequests[returnId].(status := s.value);
    db.returnRequests := db.returnRequests[returnId := returnData];
    if s.value == Processed {
      var oid := returnData.orderId;
      if oid in db.orders && !Final(db.orders[oid].status) {
        db.orders := db.orders[oid := db.orders[oid].(status := Returned)];
      }
    }
    r := Ok(s.value);
  }
}
