/** The `order` procedures of the remote-procedure API: `getAll`, `getById`, `create` and
    `updateStatus`. Every procedure first requires a signed-in user, then validates its
    input, then runs.

    The three role checks differ: `getAll` and `getById` compare the role with "admin" and
    "manager" exactly, `updateStatus` lower-cases it first, and the REST route's PUT (see
    `OrdersRoute.SetStatus`) wants exactly "MANAGER". */
module OrderRouter {
  import opened Wrappers
  import opened Tables
  import opened Sorting
  import opened Text
  import opened Store
  import opened OrdersRoute

  /** One requested line of `create`: a product id and a quantity. */
  datatype LineInput = LineInput(productId: Id, quantity: int)

  /** The input of `create`. The phone number is validated but stored nowhere. */
  datatype CreateInput = CreateInput(items: seq<LineInput>, address: Id, phone: string)

  /** The input of `updateStatus`; `status` is any string, the schema's enum is checked by
      `UpdateOrderStatus`. */
  datatype StatusInput = StatusInput(id: Id, status: string)

  /** The statuses `updateStatus` accepts, in lower case. */
  const RouterStatuses: set<string> := {"pending", "processing", "shipped", "delivered", "cancelled"}

  /** `hasRole`: the session's user carries a string role. */
  predicate HasRole(s: Session) {
    s.role.Some?
  }

  /** The exact-match staff test of `getAll` and `getById`. */
  predicate Staff(s: Session) {
    HasRole(s) && (s.role.value == "admin" || s.role.value == "manager")
  }

  /** The staff test of `updateStatus`: the role, lower-cased, is "admin" or "manager". */
  predicate StaffIgnoringCase(s: Session) {
    HasRole(s) && LowerAscii(s.role.value) in {"admin", "manager"}
  }

  // ---------------------------------------------------------------- queries

  /** `getAll`: staff see every order, anyone else only their own; newest first. */
  function AllOrders(db: Db, session: Option<Session>): Outcome<seq<(Id, Order)>> {
    if session.None? then Err(Unauthenticated)
    else if Staff(session.value) then Ok(Sort(Rows(db.orders, 0, db.nextId), NewestFirstLe))
    else
      var user := session.value.userId;
      Ok(Sort(Filter(Rows(db.orders, 0, db.nextId), (r: (Id, Order)) => r.1.userId == user), NewestFirstLe))
  }

  /** `getById`: the order, for staff or for its owner; a user without a role is refused even
      for an own order. `input` is `None` when it is not a string. */
  function OrderById(db: Db, session: Option<Session>, input: Option<Id>): Outcome<(Id, Order)> {
    if session.None? then Err(Unauthenticated)
    else if input.None? then Err(BadRequest)
    else if input.value !in db.orders then Err(Thrown("Order not found"))
    else
      var s, order := session.value, db.orders[input.value];
      if !HasRole(s) || (!Staff(s) && order.userId != s.userId) then Err(Thrown("Unauthorized"))
      else Ok((input.value, order))
  }

  /** The price lookup of `create`: each line with its product's current price, or the first
      line whose product does not exist. */
  function PriceLines(db: Db, lines: seq<LineInput>): (r: Outcome<seq<OrderItem>>)
    ensures r.Ok? <==> forall i :: 0 <= i < |lines| ==> lines[i].productId in db.products
    ensures r.Ok? ==> |r.value| == |lines|
    ensures r.Ok? ==> forall i :: 0 <= i < |lines| ==>
      r.value[i] == OrderItem(lines[i].productId, lines[i].quantity, db.products[lines[i].productId].price)
    ensures r.Err? ==> exists i :: 0 <= i < |lines| && FirstMissing(db, lines, i) && r.error == ProductNotFound(lines[i].productId)
  {
    if lines == [] then Ok([])
    else if lines[0].productId !in db.products then
      assert FirstMissing(db, lines, 0);
      Err(ProductNotFound(lines[0].productId))
    else
      match PriceLines(db, lines[1..])
      case Err(e) =>
        ghost var i :| 0 <= i < |lines[1..]| && FirstMissing(db, lines[1..], i) && e == ProductNotFound(lines[1..][i].productId);
        assert FirstMissing(db, lines, i + 1);
        Err(e)
      case Ok(rest) =>
        Ok([OrderItem(lines[0].productId, lines[0].quantity, db.products[lines[0].productId].price)] + rest)
  }

  /** Line `i` is the first one whose product is missing. */
  predicate FirstMissing(db: Db, lines: seq<LineInput>, i: nat)
    requires i < |lines|
  {
    lines[i].productId !in db.products && forall j :: 0 <= j < i ==> lines[j].productId in db.products
  }

  // ---------------------------------------------------------------- mutations

  /** `create`: a "pending" order of the requested lines at today's prices, stamped `now`.
      `input` is `None` when the schema rejects it. The cart is not touched. */
  function CreateOrder(db: Db, session: Option<Session>, input: Option<CreateInput>, now: int): (Db, Outcome<(Id, Order)>) {
    if session.None? then (db, Err(Unauthenticated))
    else if input.None? then (db, Err(BadRequest))
    else
      match PriceLines(db, input.value.items)
      case Err(e) => (db, Err(e))
      case Ok(items) =>
        var order := Order(session.value.userId, "pending", input.value.address, ItemsTotal(items), now, items);
        (db.(orders := db.orders[db.nextId := order], nextId := db.nextId + 1), Ok((db.nextId, order)))
  }

  /** `updateStatus`: staff (in any letter case) set the status of an existing order to one of
      the five lower-case statuses. `input` is `None` when the schema rejects its shape. */
  function UpdateOrderStatus(db: Db, session: Option<Session>, input: Option<StatusInput>): (Db, Outcome<(Id, Order)>) {
    if session.None? then (db, Err(Unauthenticated))
    else if input.None? || input.value.status !in RouterStatuses then (db, Err(BadRequest))
    else if !StaffIgnoringCase(session.value) then (db, Err(Thrown("Unauthorized")))
    else if input.value.id !in db.orders then (db, Err(RecordNotFound))
    else
      var id := input.value.id;
      var order := db.orders[id].(status := input.value.status);
      (db.(orders := db.orders[id := order]), Ok((id, order)))
  }

  method Create(db: Database, session: Option<Session>, input: Option<CreateInput>, now: int)
    returns (result: Outcome<(Id, Order)>)
    requires db.Valid()
    modifies db
    ensures db.Valid()
    ensures (db.Snapshot(), result) == CreateOrder(old(db.Snapshot()), session, input, now)
  {
    CreateOrderKeepsConsistent(db.Snapshot(), session, input, now);
    if session.None? {
      return Err(Unauthenticated);
    }
    if input.None? {
      return Err(BadRequest);
    }
    var priced := PriceLines(db.Snapshot(), input.value.items);
    if priced.Err? {
      return Err(priced.error);
    }
    var order := Order(session.value.userId, "pending", input.value.address, ItemsTotal(priced.value), now, priced.value);
    var id := db.nextId;
    db.orders := db.orders[id := order];
    db.nextId := id + 1;
    return Ok((id, order));
  }

  method UpdateStatus(db: Database, session: Option<Session>, input: Option<StatusInput>)
    returns (result: Outcome<(Id, Order)>)
    requires db.Valid()
    modifies db
    ensures db.Valid()
    ensures (db.Snapshot(), result) == UpdateOrderStatus(old(db.Snapshot()), session, input)
  {
    if session.None? {
      return Err(Unauthenticated);
    }
    if input.None? || input.value.status !in RouterStatuses {
      return Err(BadRequest);
    }
    if !StaffIgnoringCase(session.value) {
      return Err(Thrown("Unauthorized"));
    }
    var id := input.value.id;
    if id !in db.orders {
      return Err(RecordNotFound);
    }
    var order := db.orders[id].(status := input.value.status);
    db.orders := db.orders[id := order];
    return Ok((id, order));
  }

  lemma CreateOrderKeepsConsistent(db: Db, session: Option<Session>, input: Option<CreateInput>, now: int)
    requires Consistent(db)
    ensures Consistent(CreateOrder(db, session, input, now).0)
  {
    var (db', r) := CreateOrder(db, session, input, now);
    if r.Ok? {
      AddOrderKeepsConsistent(db, r.value.1);
    }
  }
}

/** What the `order` procedures promise, stated over the specifications. */
module OrderRouterProperties {
  import opened Wrappers
  import opened Tables
  import opened Sorting
  import opened Text
  import opened Store
  import opened OrdersRoute
  import opened OrderRouter

  /** `getAll` lists every order for staff and exactly the caller's orders for anyone else,
      newest first. */
  lemma AllOrdersVisibility(db: Db, s: Session)
    requires Consistent(db)
    ensures AllOrders(db, Some(s)).Ok?
    ensures var list := AllOrders(db, Some(s)).value;
      && (forall id, order :: (id, order) in list <==>
            id in db.orders && db.orders[id] == order && (Staff(s) || order.userId == s.userId))
      && Sorted(list, NewestFirstLe)
  {
    var rows := Rows(db.orders, 0, db.nextId);
    var p := (r: (Id, Order)) => r.1.userId == s.userId;
    var shown := if Staff(s) then rows else Filter(rows, p);
    var list := AllOrders(db, Some(s)).value;
    assert list == Sort(shown, NewestFirstLe);
    RowsOfTable(db.orders, db.nextId);
    forall id, order ensures (id, order) in list <==>
      id in db.orders && db.orders[id] == order && (Staff(s) || order.userId == s.userId)
    {
      assert (id, order) in list <==> multiset(list)[(id, order)] > 0;
      assert (id, order) in shown <==> multiset(shown)[(id, order)] > 0;
      FilterMembership(rows, p, (id, order));
    }
    assert TotalPreorder(NewestFirstLe);
    SortSorted(shown, NewestFirstLe);
  }

  /** `getById` returns an order exactly when it exists, the caller has a role, and the
      caller is staff or the owner; a missing order and a refused caller are the two errors. */
  lemma OrderByIdAccess(db: Db, s: Session, id: Id)
    ensures OrderById(db, Some(s), Some(id)).Ok? <==>
      id in db.orders && HasRole(s) && (Staff(s) || db.orders[id].userId == s.userId)
    ensures OrderById(db, Some(s), Some(id)).Ok? ==> OrderById(db, Some(s), Some(id)).value == (id, db.orders[id])
    ensures id !in db.orders ==> OrderById(db, Some(s), Some(id)) == Err(Thrown("Order not found"))
    ensures id in db.orders && !(HasRole(s) && (Staff(s) || db.orders[id].userId == s.userId)) ==>
      OrderById(db, Some(s), Some(id)) == Err(Thrown("Unauthorized"))
  {
  }

  /** A successful `create` stores a "pending" order of the caller with one line per
      requested line, at the product's current price, whose total is the sum of its
      lines; no other table changes. */
  lemma CreateOrderResult(db: Db, s: Session, input: CreateInput, now: int)
    requires CreateOrder(db, Some(s), Some(input), now).1.Ok?
    ensures var (db', r) := CreateOrder(db, Some(s), Some(input), now);
      var (id, order) := r.value;
      && id == db.nextId
      && order.userId == s.userId
      && order.status == "pending"
      && order.addressId == input.address
      && order.createdAt == now
      && |order.items| == |input.items|
      && (forall i :: 0 <= i < |input.items| ==>
            && order.items[i].productId == input.items[i].productId
            && order.items[i].quantity == input.items[i].quantity
            && order.items[i].price == db.products[input.items[i].productId].price)
      && order.total == ItemsTotal(order.items)
      && db' == db.(orders := db.orders[id := order], nextId := db.nextId + 1)
  {
  }

  /** `create` fails with the first missing product, and then writes nothing. */
  lemma CreateOrderMissingProduct(db: Db, s: Session, input: CreateInput, now: int, i: nat)
    requires i < |input.items| && FirstMissing(db, input.items, i)
    ensures CreateOrder(db, Some(s), Some(input), now) == (db, Err(ProductNotFound(input.items[i].productId)))
  {
    var r := PriceLines(db, input.items);
    assert !r.Ok?;
    var j :| 0 <= j < |input.items| && FirstMissing(db, input.items, j) && r.error == ProductNotFound(input.items[j].productId);
    assert !(j < i) && !(i < j);
  }

  /** `updateStatus` changes only the status of the order it names. */
  lemma UpdateOrderStatusOnlyStatus(db: Db, session: Option<Session>, input: Option<StatusInput>)
    ensures var (db', r) := UpdateOrderStatus(db, session, input);
      && (r.Ok? ==>
            && r.value.0 == input.value.id
            && r.value.0 in db.orders
            && r.value.1 == db.orders[r.value.0].(status := input.value.status)
            && r.value.1.status in RouterStatuses
            && db' == db.(orders := db.orders[r.value.0 := r.value.1]))
      && (r.Err? ==> db' == db)
  {
  }

  /** `updateStatus` checks, in this order: a signed-in user, the input, a staff role in any
      letter case, an existing order. */
  lemma UpdateOrderStatusRefusals(db: Db, s: Session, input: StatusInput)
    ensures var r := UpdateOrderStatus(db, Some(s), Some(input)).1;
      && (input.status !in RouterStatuses ==> r == Err(BadRequest))
      && (input.status in RouterStatuses && !StaffIgnoringCase(s) ==> r == Err(Thrown("Unauthorized")))
      && (input.status in RouterStatuses && StaffIgnoringCase(s) ==>
            (r == Err(RecordNotFound) <==> input.id !in db.orders))
  {
  }

  /** The three role checks disagree on the spelling of "manager": a session with role
      "MANAGER" may set a status through the REST route and through `updateStatus` but is
      not staff for `getAll`; one with "manager" is staff for `getAll` and `updateStatus`
      but is refused by the REST route; "Manager" passes only `updateStatus`. */
  lemma ManagerSpellings(db: Db, id: Id)
    ensures var s := Session(id, Some("MANAGER"), None);
      StaffIgnoringCase(s) && !Staff(s) && s.role == Some("MANAGER")
    ensures var s := Session(id, Some("manager"), None);
      && StaffIgnoringCase(s) && Staff(s)
      && SetStatus(db, Some(s), StatusBody(Some(id), Some("SHIPPED"))).1 == Failure(401, "Unauthorized")
    ensures var s := Session(id, Some("Manager"), None);
      && StaffIgnoringCase(s) && !Staff(s)
      && SetStatus(db, Some(s), StatusBody(Some(id), Some("SHIPPED"))).1 == Failure(401, "Unauthorized")
  {
    assert LowerAscii("MANAGER") == "manager" by {
      var r := LowerAscii("MANAGER");
      assert r[0] == 'm' && r[1] == 'a' && r[2] == 'n' && r[3] == 'a' && r[4] == 'g' && r[5] == 'e' && r[6] == 'r';
    }
    assert LowerAscii("Manager") == "manager" by {
      var r := LowerAscii("Manager");
      assert r[0] == 'm' && r[1] == 'a' && r[2] == 'n' && r[3] == 'a' && r[4] == 'g' && r[5] == 'e' && r[6] == 'r';
    }
    assert LowerAscii("manager") == "manager" by {
      var r := LowerAscii("manager");
      assert r[0] == 'm' && r[1] == 'a' && r[2] == 'n' && r[3] == 'a' && r[4] == 'g' && r[5] == 'e' && r[6] == 'r';
    }
  }
}
