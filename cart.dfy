/** The cart endpoints of the REST API: GET, POST, PUT and DELETE on /api/cart.

    Each handler is a pure function from the database before the request to the database
    after it and the response (`GetCart`, `AddItem`, `SetQuantity`, `RemoveItem`), and a method
    over `Database` that performs the same steps in place (`Get`, `Post`, `Put`, `Delete`). */
module CartRoute {
  import opened Wrappers
  import opened Tables
  import opened Store

  /** The decoded body of POST: a field that is absent or of the wrong JSON type is `None`. */
  datatype AddBody = AddBody(productId: Option<Id>, quantity: Option<real>)

  /** The decoded body of PUT. */
  datatype SetBody = SetBody(itemId: Option<Id>, quantity: Option<real>)

  /** A cart with its rows, as GET returns it. */
  datatype CartView = CartView(cartId: Id, items: map<Id, CartItem>)

  /** zod's `z.number().int().positive()`: the number as an integer when it is a whole number
      of at least 1. */
  function PositiveInteger(q: Option<real>): (r: Option<int>)
    ensures r.Some? <==> q.Some? && q.value > 0.0 && q.value == q.value.Floor as real
    ensures r.Some? ==> r.value >= 1 && r.value as real == q.value
  {
    if q.Some? && q.value > 0.0 && q.value == q.value.Floor as real then Some(q.value.Floor) else None
  }

  /** The rows of cart `c`. */
  function ItemsOfCart(db: Db, c: Id): map<Id, CartItem> {
    map k | k in db.cartItems && db.cartItems[k].cartId == c :: db.cartItems[k]
  }

  /** The user's cart, created empty when there is none. */
  function WithCart(db: Db, user: Id): (Db, Id) {
    match CartOf(db, user)
    case Some(c) => (db, c)
    case None => (db.(carts := db.carts[db.nextId := Cart(user)], nextId := db.nextId + 1), db.nextId)
  }

  /** The quantity of `product` in `user`'s cart, 0 when it is not there. */
  function QuantityIn(db: Db, user: Id, product: Id): int {
    match CartOf(db, user)
    case None => 0
    case Some(c) =>
      match ItemOf(db, c, product)
      case None => 0
      case Some(k) => db.cartItems[k].quantity
  }

  // ---------------------------------------------------------------- specifications

  /** GET: the user's cart and its rows; a user without a cart gets a new, empty one. */
  function GetCart(db: Db, session: Option<Session>): (Db, Response<CartView>) {
    match session
    case None => (db, Unauthorized())
    case Some(s) =>
      var (db', c) := WithCart(db, s.userId);
      (db', Json(CartView(c, ItemsOfCart(db', c))))
  }

  /** POST: add `quantity` of a product, creating the cart if needed; a product already in the
      cart has its quantity increased and no row is added. */
  function AddItem(db: Db, session: Option<Session>, body: AddBody): (Db, Response<(Id, CartItem)>) {
    if session.None? then (db, Unauthorized())
    else if body.productId.None? || PositiveInteger(body.quantity).None? then (db, InvalidRequestData())
    else
      var (db1, c) := WithCart(db, session.value.userId);
      Deposit(db1, c, body.productId.value, PositiveInteger(body.quantity).value)
  }

  /** The upsert into cart `c`: increment the product's row, or insert one. */
  function Deposit(db: Db, c: Id, product: Id, quantity: int): (Db, Response<(Id, CartItem)>) {
    match ItemOf(db, c, product)
    case Some(k) =>
      var item := db.cartItems[k].(quantity := db.cartItems[k].quantity + quantity);
      (db.(cartItems := db.cartItems[k := item]), Json((k, item)))
    case None =>
      var item := CartItem(c, product, quantity);
      (db.(cartItems := db.cartItems[db.nextId := item], nextId := db.nextId + 1), Json((db.nextId, item)))
  }

  /** PUT: overwrite the quantity of one row of the user's cart. */
  function SetQuantity(db: Db, session: Option<Session>, body: SetBody): (Db, Response<(Id, CartItem)>) {
    if session.None? then (db, Unauthorized())
    else if body.itemId.None? || PositiveInteger(body.quantity).None? then (db, InvalidRequestData())
    else
      match CartOf(db, session.value.userId)
      case None => (db, Failure(404, "Cart not found"))
      case Some(c) =>
        var k := body.itemId.value;
        if k !in db.cartItems || db.cartItems[k].cartId != c then (db, Failure(404, "Item not found"))
        else
          var item := db.cartItems[k].(quantity := PositiveInteger(body.quantity).value);
          (db.(cartItems := db.cartItems[k := item]), Json((k, item)))
  }

  /** DELETE ?itemId=: remove one row of the user's cart. An absent or empty `itemId` is `None`. */
  function RemoveItem(db: Db, session: Option<Session>, itemId: Option<Id>): (Db, Response<()>) {
    if session.None? then (db, Unauthorized())
    else if itemId.None? then (db, Failure(400, "Item ID is required"))
    else
      match CartOf(db, session.value.userId)
      case None => (db, Failure(404, "Cart not found"))
      case Some(c) =>
        var k := itemId.value;
        if k !in db.cartItems || db.cartItems[k].cartId != c then (db, Failure(404, "Item not found"))
        else (db.(cartItems := db.cartItems - {k}), NoContent)
  }

  // ---------------------------------------------------------------- handlers

  method Get(db: Database, session: Option<Session>) returns (resp: Response<CartView>)
    requires db.Valid()
    modifies db
    ensures db.Valid()
    ensures (db.Snapshot(), resp) == GetCart(old(db.Snapshot()), session)
  {
    GetCartKeepsConsistent(db.Snapshot(), session);
    if session.None? {
      return Unauthorized();
    }
    var user := session.value.userId;
    var cart := CartOf(db.Snapshot(), user);
    var cartId: Id;
    if cart.Some? {
      cartId := cart.value;
    } else {
      cartId := db.nextId;
      db.carts := db.carts[cartId := Cart(user)];
      db.nextId := db.nextId + 1;
    }
    return Json(CartView(cartId, ItemsOfCart(db.Snapshot(), cartId)));
  }

  method Post(db: Database, session: Option<Session>, body: AddBody) returns (resp: Response<(Id, CartItem)>)
    requires db.Valid()
    modifies db
    ensures db.Valid()
    ensures (db.Snapshot(), resp) == AddItem(old(db.Snapshot()), session, body)
  {
    AddItemKeepsConsistent(db.Snapshot(), session, body);
    if session.None? {
      return Unauthorized();
    }
    var quantity := PositiveInteger(body.quantity);
    if body.productId.None? || quantity.None? {
      return InvalidRequestData();
    }
    var user, product := session.value.userId, body.productId.value;
    var cart := CartOf(db.Snapshot(), user);
    var cartId: Id;
    if cart.Some? {
      cartId := cart.value;
    } else {
      cartId := db.nextId;
      db.carts := db.carts[cartId := Cart(user)];
      db.nextId := db.nextId + 1;
    }
    ghost var withCart := db.Snapshot();
    assert (withCart, cartId) == WithCart(old(db.Snapshot()), user);
    assert AddItem(old(db.Snapshot()), session, body) == Deposit(withCart, cartId, product, quantity.value);
    var existing := ItemOf(db.Snapshot(), cartId, product);
    if existing.Some? {
      var row := db.cartItems[existing.value];
      var item := row.(quantity := row.quantity + quantity.value);
      db.cartItems := db.cartItems[existing.value := item];
      resp := Json((existing.value, item));
    } else {
      var item := CartItem(cartId, product, quantity.value);
      var id := db.nextId;
      db.cartItems := db.cartItems[id := item];
      db.nextId := id + 1;
      resp := Json((id, item));
    }
    assert (db.Snapshot(), resp) == Deposit(withCart, cartId, product, quantity.value);
  }

  method Put(db: Database, session: Option<Session>, body: SetBody) returns (resp: Response<(Id, CartItem)>)
    requires db.Valid()
    modifies db
    ensures db.Valid()
    ensures (db.Snapshot(), resp) == SetQuantity(old(db.Snapshot()), session, body)
  {
    SetQuantityKeepsConsistent(db.Snapshot(), session, body);
    if session.None? {
      return Unauthorized();
    }
    var quantity := PositiveInteger(body.quantity);
    if body.itemId.None? || quantity.None? {
      return InvalidRequestData();
    }
    var cart := CartOf(db.Snapshot(), session.value.userId);
    if cart.None? {
      return Failure(404, "Cart not found");
    }
    var id := body.itemId.value;
    if id !in db.cartItems || db.cartItems[id].cartId != cart.value {
      return Failure(404, "Item not found");
    }
    var item := db.cartItems[id].(quantity := quantity.value);
    db.cartItems := db.cartItems[id := item];
    return Json((id, item));
  }

  method Delete(db: Database, session: Option<Session>, itemId: Option<Id>) returns (resp: Response<()>)
    requires db.Valid()
    modifies db
    ensures db.Valid()
    ensures (db.Snapshot(), resp) == RemoveItem(old(db.Snapshot()), session, itemId)
  {
    RemoveItemKeepsConsistent(db.Snapshot(), session, itemId);
    if session.None? {
      return Unauthorized();
    }
    if itemId.None? {
      return Failure(400, "Item ID is required");
    }
    var cart := CartOf(db.Snapshot(), session.value.userId);
    if cart.None? {
      return Failure(404, "Cart not found");
    }
    var id := itemId.value;
    if id !in db.cartItems || db.cartItems[id].cartId != cart.value {
      return Failure(404, "Item not found");
    }
    db.cartItems := db.cartItems - {id};
    return NoContent;
  }

  // ---------------------------------------------------------------- invariant

  lemma ItemOfUnique(db: Db, c: Id, product: Id, k: Id)
    requires Consistent(db)
    requires k in db.cartItems && db.cartItems[k].cartId == c && db.cartItems[k].productId == product
    ensures ItemOf(db, c, product) == Some(k)
  {
  }

  lemma GetCartKeepsConsistent(db: Db, session: Option<Session>)
    requires Consistent(db)
    ensures Consistent(GetCart(db, session).0)
  {
    if session.Some? {
      WithCartKeepsConsistent(db, session.value.userId);
      assert GetCart(db, session).0 == WithCart(db, session.value.userId).0;
    }
  }

  lemma AddItemKeepsConsistent(db: Db, session: Option<Session>, body: AddBody)
    requires Consistent(db)
    ensures Consistent(AddItem(db, session, body).0)
  {
    if session.Some? && body.productId.Some? && PositiveInteger(body.quantity).Some? {
      var (db1, c) := WithCart(db, session.value.userId);
      WithCartKeepsConsistent(db, session.value.userId);
      DepositKeepsConsistent(db1, c, body.productId.value, PositiveInteger(body.quantity).value);
    }
  }

  lemma WithCartKeepsConsistent(db: Db, user: Id)
    requires Consistent(db)
    ensures Consistent(WithCart(db, user).0)
    ensures WithCart(db, user).1 in WithCart(db, user).0.carts
  {
    if CartOf(db, user).None? {
      var n := db.nextId;
      var carts' := db.carts[n := Cart(user)];
      assert WithCart(db, user).0 == db.(carts := carts', nextId := n + 1);
      assert forall c :: c in db.carts ==> db.carts[c].userId != user;
      assert OneCartPerUser(carts') by {
        forall a, b | a in carts' && b in carts' && carts'[a].userId == carts'[b].userId
          ensures a == b
        {
          if a != n && b != n {
            assert carts'[a] == db.carts[a] && carts'[b] == db.carts[b];
          }
        }
      }
    }
  }

  lemma DepositKeepsConsistent(db: Db, c: Id, product: Id, quantity: int)
    requires Consistent(db) && c in db.carts && quantity >= 1
    ensures Consistent(Deposit(db, c, product, quantity).0)
  {
    var m := db.cartItems;
    match ItemOf(db, c, product)
    case Some(k) =>
      var m' := m[k := m[k].(quantity := m[k].quantity + quantity)];
      assert Deposit(db, c, product, quantity).0 == db.(cartItems := m');
      SameKeysKeepItemInvariants(db, m');
    case None =>
      var n := db.nextId;
      var m' := m[n := CartItem(c, product, quantity)];
      assert Deposit(db, c, product, quantity).0 == db.(cartItems := m', nextId := n + 1);
      assert OneItemPerProduct(m') by {
        forall a, b | a in m' && b in m' && m'[a].cartId == m'[b].cartId && m'[a].productId == m'[b].productId
          ensures a == b
        {
          if a != n && b != n {
            assert m'[a] == m[a] && m'[b] == m[b];
          }
        }
      }
  }

  /** Rewriting quantities (at least 1) without touching keys, carts or products keeps the
      invariant. */
  lemma SameKeysKeepItemInvariants(db: Db, m': map<Id, CartItem>)
    requires Consistent(db)
    requires m'.Keys == db.cartItems.Keys
    requires forall k :: k in m' ==>
      m'[k].cartId == db.cartItems[k].cartId && m'[k].productId == db.cartItems[k].productId && m'[k].quantity >= 1
    ensures Consistent(db.(cartItems := m'))
  {
  }

  lemma SetQuantityKeepsConsistent(db: Db, session: Option<Session>, body: SetBody)
    requires Consistent(db)
    ensures Consistent(SetQuantity(db, session, body).0)
  {
    var db' := SetQuantity(db, session, body).0;
    if db' != db {
      SameKeysKeepItemInvariants(db, db'.cartItems);
      assert db' == db.(cartItems := db'.cartItems);
    }
  }

  lemma RemoveItemKeepsConsistent(db: Db, session: Option<Session>, itemId: Option<Id>)
    requires Consistent(db)
    ensures Consistent(RemoveItem(db, session, itemId).0)
  {
  }
}

module CartProperties {
  import opened Wrappers
  import opened Tables
  import opened Store
  import opened CartRoute

  /** Row `k` holds `product` in `user`'s cart. */
  ghost predicate LineOf(db: Db, user: Id, product: Id, k: Id) {
    InCartOf(db, user, k) && db.cartItems[k].productId == product
  }

  lemma QuantityOfLine(db: Db, user: Id, product: Id, k: Id)
    requires Consistent(db) && LineOf(db, user, product, k)
    ensures QuantityIn(db, user, product) == db.cartItems[k].quantity
  {
    var c := db.cartItems[k].cartId;
    CartOfUnique(db, user, c);
    ItemOfUnique(db, c, product, k);
  }

  lemma QuantityNoLine(db: Db, user: Id, product: Id)
    requires Consistent(db) && forall k :: !LineOf(db, user, product, k)
    ensures QuantityIn(db, user, product) == 0
  {
    if CartOf(db, user).Some? {
      var c := CartOf(db, user).value;
      if ItemOf(db, c, product).Some? {
        assert LineOf(db, user, product, ItemOf(db, c, product).value);
      }
    }
  }

  /** Every handler answers 401 to a request without a session and leaves the store as it was. */
  lemma NoSessionChangesNothing(db: Db, add: AddBody, update: SetBody, itemId: Option<Id>)
    ensures GetCart(db, None) == (db, Unauthorized())
    ensures AddItem(db, None, add) == (db, Unauthorized())
    ensures SetQuantity(db, None, update) == (db, Unauthorized())
    ensures RemoveItem(db, None, itemId) == (db, Unauthorized())
  {
  }

  /** The handlers write the cart tables (and the id counter) and nothing else. */
  lemma GetCartTouchesOnlyCarts(db: Db, session: Option<Session>)
    ensures GetCart(db, session).0.(carts := db.carts, nextId := db.nextId) == db
  {
  }

  lemma AddItemTouchesOnlyCarts(db: Db, session: Option<Session>, body: AddBody)
    ensures AddItem(db, session, body).0.(carts := db.carts, cartItems := db.cartItems, nextId := db.nextId) == db
  {
    if session.Some? && body.productId.Some? && PositiveInteger(body.quantity).Some? {
      var (db1, c) := WithCart(db, session.value.userId);
      var product, q := body.productId.value, PositiveInteger(body.quantity).value;
      assert AddItem(db, session, body) == Deposit(db1, c, product, q);
      assert db1.(carts := db.carts, nextId := db.nextId) == db;
      DepositTouchesOnlyItems(db1, c, product, q);
    }
  }

  lemma DepositTouchesOnlyItems(db: Db, c: Id, product: Id, q: int)
    ensures Deposit(db, c, product, q).0.(cartItems := db.cartItems, nextId := db.nextId) == db
  {
    var db' := Deposit(db, c, product, q).0;
    assert db'.carts == db.carts && db'.products == db.products && db'.orders == db.orders;
    assert db'.addresses == db.addresses && db'.users == db.users;
    assert db'.brands == db.brands && db'.categories == db.categories;
  }

  lemma SetQuantityTouchesOnlyCarts(db: Db, session: Option<Session>, body: SetBody)
    ensures SetQuantity(db, session, body).0.(cartItems := db.cartItems) == db
  {
  }

  lemma RemoveItemTouchesOnlyCarts(db: Db, session: Option<Session>, itemId: Option<Id>)
    ensures RemoveItem(db, session, itemId).0.(cartItems := db.cartItems) == db
  {
  }

  /** POST answers 400 exactly when the product id is missing or the quantity is not a
      positive integer, and then changes nothing. */
  lemma AddItemValidation(db: Db, s: Session, body: AddBody)
    ensures var (db', r) := AddItem(db, Some(s), body);
      (r == InvalidRequestData() <==> body.productId.None? || PositiveInteger(body.quantity).None?)
      && (r == InvalidRequestData() ==> db' == db)
  {
  }

  /** POST by a user without a cart creates exactly one cart for that user, and the row goes
      into it. */
  lemma AddItemCreatesCart(db: Db, s: Session, body: AddBody)
    requires Consistent(db)
    requires body.productId.Some? && PositiveInteger(body.quantity).Some?
    requires CartOf(db, s.userId).None?
    ensures var (db', r) := AddItem(db, Some(s), body);
      var c := db.nextId;
      && c !in db.carts
      && db'.carts == db.carts[c := Cart(s.userId)]
      && (forall k :: k in db'.carts && db'.carts[k].userId == s.userId ==> k == c)
      && r.Json? && r.value.1.cartId == c
  {
    AddItemKeepsConsistent(db, Some(s), body);
  }

  /** A successful POST raises the product's quantity in the user's cart by exactly the
      requested amount. */
  lemma AddItemAccumulates(db: Db, s: Session, body: AddBody)
    requires Consistent(db)
    requires body.productId.Some? && PositiveInteger(body.quantity).Some?
    ensures var (db', r) := AddItem(db, Some(s), body);
      && r.Json?
      && QuantityIn(db', s.userId, body.productId.value)
         == QuantityIn(db, s.userId, body.productId.value) + PositiveInteger(body.quantity).value
  {
    var user, product, q := s.userId, body.productId.value, PositiveInteger(body.quantity).value;
    var (db1, c) := WithCart(db, user);
    WithCartKeepsConsistent(db, user);
    WithCartKeepsQuantity(db, user, product);
    DepositAccumulates(db1, user, c, product, q);
  }

  /** Finding or creating the cart does not change any quantity. */
  lemma WithCartKeepsQuantity(db: Db, user: Id, product: Id)
    requires Consistent(db)
    ensures WithCart(db, user).0.carts[WithCart(db, user).1].userId == user
    ensures QuantityIn(WithCart(db, user).0, user, product) == QuantityIn(db, user, product)
  {
    WithCartKeepsConsistent(db, user);
    var (db1, c) := WithCart(db, user);
    if CartOf(db, user).None? {
      assert forall k :: !LineOf(db1, user, product, k);
      QuantityNoLine(db1, user, product);
    }
  }

  lemma DepositAccumulates(db: Db, user: Id, c: Id, product: Id, q: int)
    requires Consistent(db) && c in db.carts && db.carts[c].userId == user && q >= 1
    ensures Deposit(db, c, product, q).1.Json?
    ensures QuantityIn(Deposit(db, c, product, q).0, user, product) == QuantityIn(db, user, product) + q
  {
    DepositKeepsConsistent(db, c, product, q);
    var db' := Deposit(db, c, product, q).0;
    match ItemOf(db, c, product)
    case Some(k) =>
      assert LineOf(db, user, product, k);
      QuantityOfLine(db, user, product, k);
      assert LineOf(db', user, product, k);
      QuantityOfLine(db', user, product, k);
    case None =>
      var n := db.nextId;
      assert LineOf(db', user, product, n);
      QuantityOfLine(db', user, product, n);
      assert forall k :: !LineOf(db, user, product, k);
      QuantityNoLine(db, user, product);
  }

  /** Two identical successful POSTs add twice the quantity: the second one finds the row
      the first one wrote. */
  lemma AddItemTwice(db: Db, s: Session, body: AddBody)
    requires Consistent(db)
    requires body.productId.Some? && PositiveInteger(body.quantity).Some?
    ensures var db2 := AddItem(AddItem(db, Some(s), body).0, Some(s), body).0;
      QuantityIn(db2, s.userId, body.productId.value)
      == QuantityIn(db, s.userId, body.productId.value) + 2 * PositiveInteger(body.quantity).value
  {
    AddItemAccumulates(db, s, body);
    AddItemKeepsConsistent(db, Some(s), body);
    AddItemAccumulates(AddItem(db, Some(s), body).0, s, body);
  }

  /** POST for a product already in the user's cart rewrites that row's quantity to the old
      quantity plus the requested one, and adds no row and no cart. */
  lemma AddItemExistingRow(db: Db, s: Session, body: AddBody, k: Id)
    requires Consistent(db)
    requires body.productId.Some? && PositiveInteger(body.quantity).Some?
    requires LineOf(db, s.userId, body.productId.value, k)
    ensures var (db', r) := AddItem(db, Some(s), body);
      var item := db.cartItems[k].(quantity := db.cartItems[k].quantity + PositiveInteger(body.quantity).value);
      && db'.cartItems == db.cartItems[k := item]
      && db'.carts == db.carts
      && r == Json((k, item))
  {
    var c := db.cartItems[k].cartId;
    CartOfUnique(db, s.userId, c);
    ItemOfUnique(db, c, body.productId.value, k);
  }

  /** `db'` is `db` with one new row `k` holding `q` of `product` in a cart of `user`. */
  ghost predicate InsertedRow(db: Db, db': Db, k: Id, item: CartItem, user: Id, product: Id, q: int) {
    && k !in db.cartItems
    && db'.cartItems == db.cartItems[k := item]
    && item.productId == product
    && item.quantity == q
    && item.cartId in db'.carts
    && db'.carts[item.cartId].userId == user
  }

  /** POST for a product not yet in the user's cart inserts one fresh row holding exactly the
      requested quantity. */
  lemma AddItemNewRow(db: Db, s: Session, body: AddBody)
    requires Consistent(db)
    requires body.productId.Some? && PositiveInteger(body.quantity).Some?
    requires forall k :: !LineOf(db, s.userId, body.productId.value, k)
    ensures var (db', r) := AddItem(db, Some(s), body);
      && r.Json?
      && InsertedRow(db, db', r.value.0, r.value.1, s.userId, body.productId.value, PositiveInteger(body.quantity).value)
  {
    var user, product, q := s.userId, body.productId.value, PositiveInteger(body.quantity).value;
    var (db1, c) := WithCart(db, user);
    WithCartKeepsConsistent(db, user);
    WithCartKeepsLines(db, user);
    assert AddItem(db, Some(s), body) == Deposit(db1, c, product, q);
    var found := ItemOf(db1, c, product);
    assert found.Some? ==> LineOf(db1, user, product, found.value);
    assert found.None?;
    DepositNewRow(db1, c, product, q);
    assert InsertedRow(db, Deposit(db1, c, product, q).0, db1.nextId, CartItem(c, product, q), user, product, q);
  }

  lemma DepositNewRow(db: Db, c: Id, product: Id, q: int)
    requires Consistent(db) && ItemOf(db, c, product).None?
    ensures var (db', r) := Deposit(db, c, product, q);
      && r == Json((db.nextId, CartItem(c, product, q)))
      && db.nextId !in db.cartItems
      && db'.cartItems == db.cartItems[db.nextId := CartItem(c, product, q)]
      && db'.carts == db.carts
  {
  }

  /** Finding or creating a cart changes no row and which cart's owner each row has. */
  lemma WithCartKeepsLines(db: Db, user: Id)
    requires Consistent(db)
    ensures var (db1, c) := WithCart(db, user);
      && db1.cartItems == db.cartItems
      && db1.carts[c].userId == user
      && forall u, p, k :: LineOf(db1, u, p, k) <==> LineOf(db, u, p, k)
  {
  }

  /** The upsert into cart `c` leaves every line of another product or another owner alone. */
  lemma DepositKeepsOtherLines(db: Db, c: Id, product: Id, q: int, user: Id, other: Id)
    requires KeysBelow(db.cartItems, db.nextId) && c in db.carts
    requires user != db.carts[c].userId || other != product
    ensures var db' := Deposit(db, c, product, q).0;
      && (forall k :: LineOf(db', user, other, k) <==> LineOf(db, user, other, k))
      && (forall k :: LineOf(db, user, other, k) ==> db'.cartItems[k] == db.cartItems[k])
  {
    var db' := Deposit(db, c, product, q).0;
    assert db'.carts == db.carts;
    match ItemOf(db, c, product)
    case Some(k0) =>
      var row := db.cartItems[k0].(quantity := db.cartItems[k0].quantity + q);
      assert db' == db.(cartItems := db.cartItems[k0 := row]);
      ReplacingRowKeepsLines(db, k0, row, user, other);
    case None =>
      var n := db.nextId;
      assert db' == db.(cartItems := db.cartItems[n := CartItem(c, product, q)], nextId := n + 1);
      ReplacingRowKeepsLines(db, n, CartItem(c, product, q), user, other);
  }

  /** Writing row `k0` changes no line of (user, other) when neither the old nor the new row
      is one. */
  lemma ReplacingRowKeepsLines(db: Db, k0: Id, row: CartItem, user: Id, other: Id)
    requires !LineOf(db, user, other, k0)
    requires row.cartId !in db.carts || db.carts[row.cartId].userId != user || row.productId != other
    ensures var db' := db.(cartItems := db.cartItems[k0 := row]);
      && (forall k :: LineOf(db', user, other, k) <==> LineOf(db, user, other, k))
      && (forall k :: LineOf(db, user, other, k) ==> db'.cartItems[k] == db.cartItems[k])
  {
  }

  /** POST changes no other product's quantity and no other user's cart. */
  lemma AddItemLeavesOthers(db: Db, s: Session, body: AddBody, user: Id, product: Id)
    requires Consistent(db)
    requires body.productId.Some? && PositiveInteger(body.quantity).Some?
    requires user != s.userId || product != body.productId.value
    ensures QuantityIn(AddItem(db, Some(s), body).0, user, product) == QuantityIn(db, user, product)
  {
    var (db1, c) := WithCart(db, s.userId);
    WithCartKeepsConsistent(db, s.userId);
    WithCartKeepsLines(db, s.userId);
    var p, q := body.productId.value, PositiveInteger(body.quantity).value;
    assert AddItem(db, Some(s), body) == Deposit(db1, c, p, q);
    var db' := Deposit(db1, c, p, q).0;
    DepositKeepsConsistent(db1, c, p, q);
    DepositKeepsOtherLines(db1, c, p, q, user, product);
    if k :| LineOf(db, user, product, k) {
      QuantityOfLine(db, user, product, k);
      QuantityOfLine(db', user, product, k);
    } else {
      QuantityNoLine(db, user, product);
      QuantityNoLine(db', user, product);
    }
  }

  /** PUT succeeds exactly when the row is in the user's cart; it then sets that row's quantity
      to the requested one and changes no other row. Otherwise it answers 404 and changes
      nothing. */
  lemma SetQuantityOutcome(db: Db, s: Session, body: SetBody)
    requires Consistent(db)
    requires body.itemId.Some? && PositiveInteger(body.quantity).Some?
    ensures var (db', r) := SetQuantity(db, Some(s), body);
      var k, q := body.itemId.value, PositiveInteger(body.quantity).value;
      && (r.Json? <==> InCartOf(db, s.userId, k))
      && (r.Json? ==>
            && db'.cartItems == db.cartItems[k := db.cartItems[k].(quantity := q)]
            && QuantityIn(db', s.userId, db.cartItems[k].productId) == q)
      && (!r.Json? ==> db' == db && r.Failure? && r.status == 404)
      && (r == Failure(404, "Cart not found") <==> CartOf(db, s.userId).None?)
  {
    var k := body.itemId.value;
    SetQuantityKeepsConsistent(db, Some(s), body);
    if InCartOf(db, s.userId, k) {
      CartOfUnique(db, s.userId, db.cartItems[k].cartId);
      var db' := SetQuantity(db, Some(s), body).0;
      assert LineOf(db', s.userId, db.cartItems[k].productId, k);
      QuantityOfLine(db', s.userId, db.cartItems[k].productId, k);
    }
  }

  /** DELETE without an item id answers 400; for a row outside the user's cart it answers 404;
      otherwise it removes exactly that row and answers 204. */
  lemma RemoveItemOutcome(db: Db, s: Session, itemId: Option<Id>)
    requires Consistent(db)
    ensures var (db', r) := RemoveItem(db, Some(s), itemId);
      && (itemId.None? ==> db' == db && r == Failure(400, "Item ID is required"))
      && (itemId.Some? && InCartOf(db, s.userId, itemId.value) ==>
            db'.cartItems == db.cartItems - {itemId.value} && r == NoContent)
      && (itemId.Some? && !InCartOf(db, s.userId, itemId.value) ==>
            db' == db && r.Failure? && r.status == 404)
  {
    if itemId.Some? && InCartOf(db, s.userId, itemId.value) {
      CartOfUnique(db, s.userId, db.cartItems[itemId.value].cartId);
    }
  }

  /** GET returns the user's existing cart with its rows, changing nothing; a user without a
      cart gets exactly one new cart, which is empty. */
  lemma GetCartOutcome(db: Db, s: Session)
    requires Consistent(db)
    ensures var (db', r) := GetCart(db, Some(s));
      && r.Json?
      && (CartOf(db, s.userId).Some? ==>
            db' == db && r.value == CartView(CartOf(db, s.userId).value, ItemsOfCart(db, CartOf(db, s.userId).value)))
      && (CartOf(db, s.userId).None? ==>
            && r.value.cartId !in db.carts
            && db'.carts == db.carts[r.value.cartId := Cart(s.userId)]
            && r.value.items == map[])
  {
  }
}
