/** The order endpoints of the REST API: GET, POST and PUT on /api/orders.

    POST turns the signed-in user's cart into an order in one transaction: it copies every
    cart row into an order line with the product's current price, stores the total, and
    empties the cart. PUT lets a manager set an order's status; GET lists the caller's own
    orders, newest first. */
module OrdersRoute {
  import opened Wrappers
  import opened Tables
  import opened Sorting
  import opened Store

  /** The body of POST, read without a schema. `addressId` is `Absent` when it is missing or
      falsy, and `WrongType` when it is truthy but no string. The phone number is only tested
      for truth (`None` or `""` when it is missing or falsy) and never stored, so any truthy
      value stands for a non-empty string. */
  datatype OrderBody = OrderBody(addressId: Field<Id>, phoneNumber: Option<string>)

  /** The decoded body of PUT: `orderId` is `None` when it is not a string, `status` when it
      is not a string. */
  datatype StatusBody = StatusBody(orderId: Option<Id>, status: Option<string>)

  /** The statuses PUT accepts, in upper case. */
  const RouteStatuses: set<string> := {"PENDING", "PROCESSING", "SHIPPED", "DELIVERED"}

  // ---------------------------------------------------------------- queries

  /** `cartItem.findMany({ where: { cart: { userId } } })`: the rows of every cart of `user`,
      in key order. */
  function CartLines(db: Db, user: Id): seq<(Id, CartItem)> {
    Filter(Rows(db.cartItems, 0, db.nextId),
      (r: (Id, CartItem)) => InCartOf(db, user, r.0) && db.cartItems[r.0] == r.1)
  }

  /** Every line's product still exists, so `item.product.price` can be read. */
  predicate AllPriced(db: Db, lines: seq<(Id, CartItem)>) {
    forall i :: 0 <= i < |lines| ==> lines[i].1.productId in db.products
  }

  /** The order lines: product, quantity and the product's price at this moment. */
  function PriceSnapshot(db: Db, lines: seq<(Id, CartItem)>): (items: seq<OrderItem>)
    requires AllPriced(db, lines)
    ensures |items| == |lines|
    ensures forall i :: 0 <= i < |lines| ==>
      items[i] == OrderItem(lines[i].1.productId, lines[i].1.quantity, db.products[lines[i].1.productId].price)
  {
    seq(|lines|, i requires 0 <= i < |lines| =>
      OrderItem(lines[i].1.productId, lines[i].1.quantity, db.products[lines[i].1.productId].price))
  }

  /** `cartItems.reduce((sum, item) => sum + item.product.price * item.quantity, 0)`. */
  function CartTotal(db: Db, lines: seq<(Id, CartItem)>): int
    requires AllPriced(db, lines)
  {
    if lines == [] then 0
    else
      var last := lines[|lines| - 1].1;
      CartTotal(db, lines[..|lines| - 1]) + db.products[last.productId].price * last.quantity
  }

  /** What a list of order lines costs: each unit price times its quantity, summed. */
  function ItemsTotal(items: seq<OrderItem>): int {
    if items == [] then 0
    else ItemsTotal(items[..|items| - 1]) + items[|items| - 1].price * items[|items| - 1].quantity
  }

  /** The cart rows left once every row of `user`'s carts is deleted. */
  function WithoutCartOf(db: Db, user: Id): map<Id, CartItem> {
    map k | k in db.cartItems && !InCartOf(db, user, k) :: db.cartItems[k]
  }

  /** The order belongs to a user whose e-mail is `email` (`where: { user: { email } }`). */
  predicate OwnedByEmail(db: Db, order: Order, email: string) {
    order.userId in db.users && db.users[order.userId].email == Some(email)
  }

  /** `orderBy: { createdAt: "desc" }`. */
  function NewestFirstLe(a: (Id, Order), b: (Id, Order)): bool {
    a.1.createdAt >= b.1.createdAt
  }

  // ---------------------------------------------------------------- specifications

  /** GET: the orders of the user with the session's e-mail, newest first. */
  function ListOrders(db: Db, session: Option<Session>): Response<seq<(Id, Order)>> {
    if session.None? || session.value.email.None? || session.value.email.value == "" then Unauthorized()
    else
      var email := session.value.email.value;
      Json(Sort(Filter(Rows(db.orders, 0, db.nextId), (r: (Id, Order)) => OwnedByEmail(db, r.1, email)),
                NewestFirstLe))
  }

  /** POST: place an order for the whole cart at time `now`. */
  function PlaceOrder(db: Db, session: Option<Session>, body: OrderBody, now: int): (Db, Response<(Id, Order)>) {
    if session.None? then (db, Unauthorized())
    else if body.addressId.Absent? || body.phoneNumber.None? || body.phoneNumber.value == "" then
      (db, Failure(400, "Missing required fields"))
    else
      var user := session.value.userId;
      var lines := CartLines(db, user);
      if |lines| == 0 then (db, Failure(400, "Cart is empty"))
      else if !AllPriced(db, lines) || body.addressId.WrongType? then (db, Failure(500, "Failed to create order"))
      else
        var order := Order(user, "PENDING", body.addressId.value, CartTotal(db, lines), now, PriceSnapshot(db, lines));
        (Commit(db, user, order), Json((db.nextId, order)))
  }

  /** The transaction of POST: create the order under a fresh id, then delete every row of
      the user's carts. */
  function Commit(db: Db, user: Id, order: Order): Db {
    db.(orders := db.orders[db.nextId := order], cartItems := WithoutCartOf(db, user), nextId := db.nextId + 1)
  }

  /** PUT: a session whose role is exactly "MANAGER" sets the status of an existing order. */
  function SetStatus(db: Db, session: Option<Session>, body: StatusBody): (Db, Response<(Id, Order)>) {
    if session.None? || session.value.role != Some("MANAGER") then (db, Unauthorized())
    else if body.orderId.None? || body.status.None? || body.status.value !in RouteStatuses then
      (db, InvalidRequestData())
    else if body.orderId.value !in db.orders then (db, InternalError())
    else
      var id := body.orderId.value;
      var order := db.orders[id].(status := body.status.value);
      (db.(orders := db.orders[id := order]), Json((id, order)))
  }

  // ---------------------------------------------------------------- handlers

  method Get(db: Database, session: Option<Session>) returns (resp: Response<seq<(Id, Order)>>)
    ensures resp == ListOrders(db.Snapshot(), session)
  {
    if session.None? || session.value.email.None? || session.value.email.value == "" {
      return Unauthorized();
    }
    var snapshot := db.Snapshot();
    var email := session.value.email.value;
    var mine := Filter(Rows(db.orders, 0, db.nextId), (r: (Id, Order)) => OwnedByEmail(snapshot, r.1, email));
    return Json(Sort(mine, NewestFirstLe));
  }

  method Post(db: Database, session: Option<Session>, body: OrderBody, now: int) returns (resp: Response<(Id, Order)>)
    requires db.Valid()
    modifies db
    ensures db.Valid()
    ensures (db.Snapshot(), resp) == PlaceOrder(old(db.Snapshot()), session, body, now)
  {
    PlaceOrderKeepsConsistent(db.Snapshot(), session, body, now);
    if session.None? {
      return Unauthorized();
    }
    if body.addressId.Absent? || body.phoneNumber.None? || body.phoneNumber.value == "" {
      return Failure(400, "Missing required fields");
    }
    var user := session.value.userId;
    var before := db.Snapshot();
    var lines := CartLines(before, user);
    if |lines| == 0 {
      return Failure(400, "Cart is empty");
    }
    if !AllPriced(before, lines) || body.addressId.WrongType? {
      return Failure(500, "Failed to create order");
    }
    var order := Order(user, "PENDING", body.addressId.value, CartTotal(before, lines), now,
                       PriceSnapshot(before, lines));
    var id := db.nextId;
    db.orders := db.orders[id := order];
    db.cartItems := WithoutCartOf(before, user);
    db.nextId := id + 1;
    assert db.Snapshot() == Commit(before, user, order);
    return Json((id, order));
  }

  method Put(db: Database, session: Option<Session>, body: StatusBody) returns (resp: Response<(Id, Order)>)
    requires db.Valid()
    modifies db
    ensures db.Valid()
    ensures (db.Snapshot(), resp) == SetStatus(old(db.Snapshot()), session, body)
  {
    if session.None? || session.value.role != Some("MANAGER") {
      return Unauthorized();
    }
    if body.orderId.None? || body.status.None? || body.status.value !in RouteStatuses {
      return InvalidRequestData();
    }
    var id := body.orderId.value;
    if id !in db.orders {
      return InternalError();
    }
    var order := db.orders[id].(status := body.status.value);
    db.orders := db.orders[id := order];
    return Json((id, order));
  }

  // ---------------------------------------------------------------- invariant

  lemma PlaceOrderKeepsConsistent(db: Db, session: Option<Session>, body: OrderBody, now: int)
    requires Consistent(db)
    ensures Consistent(PlaceOrder(db, session, body, now).0)
  {
    var (db', r) := PlaceOrder(db, session, body, now);
    if r.Json? {
      var order := r.value.1;
      CommitKeepsConsistent(db, session.value.userId, order);
      assert db' == Commit(db, session.value.userId, order);
    }
  }

  lemma CommitKeepsConsistent(db: Db, user: Id, order: Order)
    requires Consistent(db)
    ensures Consistent(Commit(db, user, order))
  {
    var db' := Commit(db, user, order);
    assert forall k :: k in db'.cartItems ==> k in db.cartItems && db'.cartItems[k] == db.cartItems[k];
    assert IdsBelow(db');
    assert OneItemPerProduct(db'.cartItems);
    assert ItemsInCarts(db');
  }
}

/** What the order endpoints promise, stated over the specifications. */
module OrdersProperties {
  import opened Wrappers
  import opened Tables
  import opened Sorting
  import opened Store
  import opened OrdersRoute

  /** A cart line as a line of the order: same product, same quantity, current price. */
  predicate Snapshots(db: Db, line: (Id, CartItem), item: OrderItem) {
    && item.productId == line.1.productId
    && item.quantity == line.1.quantity
    && line.1.productId in db.products
    && item.price == db.products[line.1.productId].price
  }

  /** The running sum of the request is the sum over the stored order lines. */
  lemma {:induction false} CartTotalIsItemsTotal(db: Db, lines: seq<(Id, CartItem)>)
    requires AllPriced(db, lines)
    ensures CartTotal(db, lines) == ItemsTotal(PriceSnapshot(db, lines))
  {
    if lines != [] {
      var init := lines[..|lines| - 1];
      CartTotalIsItemsTotal(db, init);
      assert PriceSnapshot(db, lines)[..|lines| - 1] == PriceSnapshot(db, init);
    }
  }

  /** The cart rows POST reads are exactly the rows of the user's carts, each once, in key
      order. */
  lemma CartLinesAreTheCart(db: Db, user: Id)
    requires Consistent(db)
    ensures forall k, item :: (k, item) in CartLines(db, user) <==>
      InCartOf(db, user, k) && db.cartItems[k] == item
    ensures forall i, j :: 0 <= i < j < |CartLines(db, user)| ==> CartLines(db, user)[i].0 < CartLines(db, user)[j].0
  {
    RowsOfTable(db.cartItems, db.nextId);
    var rows := Rows(db.cartItems, 0, db.nextId);
    var p := (r: (Id, CartItem)) => InCartOf(db, user, r.0) && db.cartItems[r.0] == r.1;
    RowsIncreasing(db.cartItems, 0, db.nextId);
    FilterIncreasing(rows, p);
    forall k, item ensures (k, item) in CartLines(db, user) <==> InCartOf(db, user, k) && db.cartItems[k] == item {
      FilterMembership(rows, p, (k, item));
    }
  }

  /** A successful POST stores one order line per cart row, in the cart's order, priced at the
      product's current price; the order is "PENDING", belongs to the caller, points at the
      given address, is stamped `now`, and its total is the sum of its lines. */
  lemma PlaceOrderSnapshot(db: Db, s: Session, body: OrderBody, now: int)
    requires Consistent(db)
    requires PlaceOrder(db, Some(s), body, now).1.Json?
    ensures var (id, order) := PlaceOrder(db, Some(s), body, now).1.value;
      var lines := CartLines(db, s.userId);
      && id == db.nextId
      && id !in db.orders
      && order.userId == s.userId
      && order.status == "PENDING"
      && body.addressId == Present(order.addressId)
      && order.createdAt == now
      && |order.items| == |lines| > 0
      && (forall i :: 0 <= i < |lines| ==> Snapshots(db, lines[i], order.items[i]))
      && order.total == ItemsTotal(order.items)
  {
    var lines := CartLines(db, s.userId);
    assert |lines| > 0 && AllPriced(db, lines);
    var order := Order(s.userId, "PENDING", body.addressId.value, CartTotal(db, lines), now, PriceSnapshot(db, lines));
    assert PlaceOrder(db, Some(s), body, now).1 == Json((db.nextId, order));
    CartTotalIsItemsTotal(db, lines);
  }

  /** A successful POST stores the order, empties every cart of the caller and leaves every
      other user's cart rows, the carts, products, addresses and users as they were. */
  lemma PlaceOrderEmptiesCart(db: Db, s: Session, body: OrderBody, now: int)
    requires Consistent(db)
    requires PlaceOrder(db, Some(s), body, now).1.Json?
    ensures var (db', r) := PlaceOrder(db, Some(s), body, now);
      && db'.orders == db.orders[r.value.0 := r.value.1]
      && CartLines(db', s.userId) == []
      && (forall k :: k in db'.cartItems <==> k in db.cartItems && !InCartOf(db, s.userId, k))
      && (forall k :: k in db'.cartItems ==> db'.cartItems[k] == db.cartItems[k])
      && db'.carts == db.carts && db'.products == db.products
      && db'.addresses == db.addresses && db'.users == db.users
  {
    var lines := CartLines(db, s.userId);
    assert |lines| > 0 && AllPriced(db, lines);
    var order := Order(s.userId, "PENDING", body.addressId.value, CartTotal(db, lines), now, PriceSnapshot(db, lines));
    assert PlaceOrder(db, Some(s), body, now) == (Commit(db, s.userId, order), Json((db.nextId, order)));
    CommitEmptiesCart(db, s.userId, order);
  }

  lemma CommitEmptiesCart(db: Db, user: Id, order: Order)
    ensures CartLines(Commit(db, user, order), user) == []
  {
    var db' := Commit(db, user, order);
    assert forall k :: !InCartOf(db', user, k);
    FilterNone(Rows(db'.cartItems, 0, db'.nextId),
      (r: (Id, CartItem)) => InCartOf(db', user, r.0) && db'.cartItems[r.0] == r.1);
  }

  /** Every refused POST leaves the database unchanged. */
  lemma PlaceOrderFailureChangesNothing(db: Db, session: Option<Session>, body: OrderBody, now: int)
    requires PlaceOrder(db, session, body, now).1.Failure?
    ensures PlaceOrder(db, session, body, now).0 == db
  {
  }

  /** POST's refusals, in the order the handler checks them. */
  lemma PlaceOrderRefusals(db: Db, session: Option<Session>, body: OrderBody, now: int)
    ensures var r := PlaceOrder(db, session, body, now).1;
      && (session.None? ==> r == Failure(401, "Unauthorized"))
      && (session.Some? && (body.addressId.Absent? || body.phoneNumber in {None, Some("")}) ==>
            r == Failure(400, "Missing required fields"))
      && (session.Some? && !body.addressId.Absent? && body.phoneNumber.Some? && body.phoneNumber.value != "" ==>
            (r == Failure(400, "Cart is empty") <==> CartLines(db, session.value.userId) == []))
  {
  }

  /** POST succeeds exactly when it names an address id and a phone number and the caller's
      cart is non-empty with every product still in stock; a filled-in request fails with 500
      and writes nothing when a product is gone or the address id is no string. */
  lemma PlaceOrderAccepted(db: Db, s: Session, body: OrderBody, now: int)
    ensures PlaceOrder(db, Some(s), body, now).1.Json? <==>
      && body.addressId.Present? && body.phoneNumber.Some? && body.phoneNumber.value != ""
      && CartLines(db, s.userId) != [] && AllPriced(db, CartLines(db, s.userId))
    ensures
      && !body.addressId.Absent? && body.phoneNumber.Some? && body.phoneNumber.value != ""
      && CartLines(db, s.userId) != []
      && (!AllPriced(db, CartLines(db, s.userId)) || body.addressId.WrongType?)
      ==> PlaceOrder(db, Some(s), body, now) == (db, Failure(500, "Failed to create order"))
  {
  }

  /** A user 7 whose cart 0 holds 2 of product 1 (price 500) and 1 of product 2 (price 1500). */
  function ExampleDb(): Db {
    Db(map[0 := Cart(7)],
       map[3 := CartItem(0, 1, 2), 4 := CartItem(0, 2, 1)],
       map[1 := Product("Filter", "", 500, "", "", "", "", 10, "", "", 0),
           2 := Product("Pads", "", 1500, "", "", "", "", 10, "", "", 0)],
       map[], map[5 := Address(7, "", "", "", "", "", true)], map[], map[], map[], 6)
  }

  lemma ExampleCartLines()
    ensures CartLines(ExampleDb(), 7) == [(3, CartItem(0, 1, 2)), (4, CartItem(0, 2, 1))]
  {
    var db := ExampleDb();
    var m := db.cartItems;
    var a, b := (3, CartItem(0, 1, 2)), (4, CartItem(0, 2, 1));
    assert Rows(m, 5, 6) == [];
    assert Rows(m, 4, 6) == [b];
    assert Rows(m, 3, 6) == [a, b];
    assert Rows(m, 0, 6) == [a, b] by {
      assert Rows(m, 2, 6) == [a, b];
      assert Rows(m, 1, 6) == [a, b];
    }
    var p := (r: (Id, CartItem)) => InCartOf(db, 7, r.0) && db.cartItems[r.0] == r.1;
    assert Filter([b], p) == [b];
    assert [a, b][1..] == [b];
  }

  /** Two cart rows of 2 x 500 and 1 x 1500 make an order total of 2500, and the cart is
      empty afterwards. */
  lemma PlaceOrderExample()
    ensures var (db', r) := PlaceOrder(ExampleDb(), Some(Session(7, None, None)), OrderBody(Present(5), Some("+7")), 100);
      && r.Json?
      && r.value.1.total == 2500
      && r.value.1.items == [OrderItem(1, 2, 500), OrderItem(2, 1, 1500)]
      && db'.cartItems == map[]
  {
    var db := ExampleDb();
    ExampleCartLines();
    var lines := CartLines(db, 7);
    assert AllPriced(db, lines);
    assert CartTotal(db, lines[..1]) == 1000;
    assert CartTotal(db, lines) == 2500;
    assert WithoutCartOf(db, 7) == map[];
  }

  /** PUT changes the status of the one order it names and nothing else, and the new status
      is one of the four upper-case statuses. */
  lemma SetStatusOnlyStatus(db: Db, session: Option<Session>, body: StatusBody)
    ensures var (db', r) := SetStatus(db, session, body);
      && (r.Json? ==>
            && var (id, order) := r.value;
            && id in db.orders
            && order == db.orders[id].(status := body.status.value)
            && order.status in RouteStatuses
            && db' == db.(orders := db.orders[id := order]))
      && (!r.Json? ==> db' == db)
  {
  }

  /** Only a role spelled exactly "MANAGER" passes PUT's gate: "manager" or "ADMIN" get 401. */
  lemma SetStatusGate(db: Db, session: Option<Session>, body: StatusBody)
    ensures SetStatus(db, session, body).1 == Failure(401, "Unauthorized")
      <==> session.None? || session.value.role != Some("MANAGER")
  {
  }

  /** PUT's other refusals: 400 for a missing id or a status outside the four, 500 for an id
      that names no order. */
  lemma SetStatusRefusals(db: Db, s: Session, body: StatusBody)
    requires s.role == Some("MANAGER")
    ensures var r := SetStatus(db, Some(s), body).1;
      && (r == Failure(400, "Invalid request data") <==>
            body.orderId.None? || body.status.None? || body.status.value !in RouteStatuses)
      && (r == Failure(500, "Internal error") <==>
            body.orderId.Some? && body.status.Some? && body.status.value in RouteStatuses &&
            body.orderId.value !in db.orders)
  {
  }

  /** GET lists exactly the orders whose owner has the session's e-mail, newest first. */
  lemma ListOrdersContents(db: Db, s: Session)
    requires Consistent(db)
    requires s.email.Some? && s.email.value != ""
    ensures ListOrders(db, Some(s)).Json?
    ensures var list := ListOrders(db, Some(s)).value;
      && (forall id, order :: (id, order) in list <==>
            id in db.orders && db.orders[id] == order && OwnedByEmail(db, order, s.email.value))
      && Sorted(list, NewestFirstLe)
  {
    var email := s.email.value;
    var rows := Rows(db.orders, 0, db.nextId);
    var mine := Filter(rows, (r: (Id, Order)) => OwnedByEmail(db, r.1, email));
    var list := ListOrders(db, Some(s)).value;
    assert list == Sort(mine, NewestFirstLe);
    RowsOfTable(db.orders, db.nextId);
    forall id, order ensures (id, order) in list <==>
      id in db.orders && db.orders[id] == order && OwnedByEmail(db, order, email)
    {
      assert (id, order) in list <==> multiset(list)[(id, order)] > 0;
      assert (id, order) in mine <==> multiset(mine)[(id, order)] > 0;
      FilterMembership(rows, (r: (Id, Order)) => OwnedByEmail(db, r.1, email), (id, order));
    }
    assert TotalPreorder(NewestFirstLe);
    SortSorted(mine, NewestFirstLe);
  }

  /** GET without an e-mail claim is refused and shows nothing. */
  lemma ListOrdersNeedsEmail(db: Db, session: Option<Session>)
    requires session.None? || session.value.email in {None, Some("")}
    ensures ListOrders(db, session) == Failure(401, "Unauthorized")
  {
  }
}
