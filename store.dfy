/** The storefront's database: its rows, the invariants the request handlers maintain over
    them, the request session, and the shapes of handler results. */
module Store {
  import opened Wrappers
  import opened Tables

  /** The identity a request carries: the signed-in user's id, the role claim (absent when the
      session's user has no string role) and the e-mail claim. No session is `None`. */
  datatype Session = Session(userId: Id, role: Option<string>, email: Option<string>)

  datatype Cart = Cart(userId: Id)

  datatype CartItem = CartItem(cartId: Id, productId: Id, quantity: int)

  /** Prices are in minor currency units; `createdAt` is a timestamp in milliseconds. */
  datatype Product = Product(
    name: string, description: string, price: int, image: string,
    categoryId: string, brandId: string, partNumber: string, stock: int,
    carBrand: string, carModel: string, createdAt: int)

  /** A line of a placed order: the product, its quantity and the unit price at order time. */
  datatype OrderItem = OrderItem(productId: Id, quantity: int, price: int)

  datatype Order = Order(
    userId: Id, status: string, addressId: Id, total: int, createdAt: int, items: seq<OrderItem>)

  datatype Address = Address(
    userId: Id, street: string, city: string, state: string,
    postalCode: string, country: string, isDefault: bool)

  /** `verificationCodeExpires` and `emailVerified` are timestamps in milliseconds. */
  datatype User = User(
    name: Option<string>, email: Option<string>, role: string,
    verificationCode: Option<string>, verificationCodeExpires: Option<int>,
    emailVerified: Option<int>)

  /** The value of every table at one moment. Brands and categories are id-to-name lookups. */
  datatype Db = Db(
    carts: map<Id, Cart>,
    cartItems: map<Id, CartItem>,
    products: map<Id, Product>,
    orders: map<Id, Order>,
    addresses: map<Id, Address>,
    users: map<Id, User>,
    brands: map<string, string>,
    categories: map<string, string>,
    nextId: nat)

  /** A request-body field that no schema checks: absent (or, where the handler tests it for
      truth, falsy), a value of the expected type, or a value of another JSON type that
      reaches the database unchecked. */
  datatype Field<T> = Absent | Present(value: T) | WrongType

  /** The result of a route handler: a JSON body, an empty 204 response, or an error status
      with its plain-text message. */
  datatype Response<T> = Json(value: T) | NoContent | Failure(status: nat, message: string)

  function Unauthorized<T>(): Response<T> {
    Failure(401, "Unauthorized")
  }

  function InvalidRequestData<T>(): Response<T> {
    Failure(400, "Invalid request data")
  }

  function InternalError<T>(): Response<T> {
    Failure(500, "Internal error")
  }

  /** How a remote procedure fails: no signed-in user, input rejected by its schema, an error
      thrown by the procedure with its message, a missing product, or a database update or
      delete whose row does not exist. */
  datatype RpcError =
    | Unauthenticated
    | BadRequest
    | Thrown(message: string)
    | ProductNotFound(productId: Id)
    | RecordNotFound

  datatype Outcome<T> = Ok(value: T) | Err(error: RpcError)

  /** Every key handed out so far is below the id counter. */
  ghost predicate IdsBelow(db: Db) {
    && KeysBelow(db.carts, db.nextId)
    && KeysBelow(db.cartItems, db.nextId)
    && KeysBelow(db.products, db.nextId)
    && KeysBelow(db.orders, db.nextId)
    && KeysBelow(db.addresses, db.nextId)
    && KeysBelow(db.users, db.nextId)
  }

  ghost predicate OneCartPerUser(carts: map<Id, Cart>) {
    forall a, b :: a in carts && b in carts && carts[a].userId == carts[b].userId ==> a == b
  }

  ghost predicate OneItemPerProduct(items: map<Id, CartItem>) {
    forall a, b ::
      (a in items && b in items &&
       items[a].cartId == items[b].cartId && items[a].productId == items[b].productId) ==> a == b
  }

  ghost predicate ItemsInCarts(db: Db) {
    forall k :: k in db.cartItems ==> db.cartItems[k].cartId in db.carts
  }

  ghost predicate PositiveQuantities(items: map<Id, CartItem>) {
    forall k :: k in items ==> items[k].quantity >= 1
  }

  ghost predicate OneDefaultPerUser(addresses: map<Id, Address>) {
    forall a, b ::
      (a in addresses && b in addresses && addresses[a].userId == addresses[b].userId &&
       addresses[a].isDefault && addresses[b].isDefault) ==> a == b
  }

  /** The invariant every handler keeps: fresh ids, one cart per user, one row per product in
      a cart, cart rows that belong to carts, positive quantities and one default address per
      user. */
  ghost predicate Consistent(db: Db) {
    && IdsBelow(db)
    && OneCartPerUser(db.carts)
    && OneItemPerProduct(db.cartItems)
    && ItemsInCarts(db)
    && PositiveQuantities(db.cartItems)
    && OneDefaultPerUser(db.addresses)
  }

  /** The id of `user`'s cart (`cart.findFirst({ where: { userId } })`). */
  function CartOf(db: Db, user: Id): (r: Option<Id>)
    ensures r.Some? ==> r.value in db.carts && db.carts[r.value].userId == user
    ensures r.None? && KeysBelow(db.carts, db.nextId) ==>
              forall k :: k in db.carts ==> db.carts[k].userId != user
  {
    FirstKey(db.carts, (c: Cart) => c.userId == user, 0, db.nextId)
  }

  /** The row of `product` in cart `cartId` (`cartItem.findFirst({ where: { cartId, productId } })`). */
  function ItemOf(db: Db, cartId: Id, product: Id): (r: Option<Id>)
    ensures r.Some? ==>
              && r.value in db.cartItems
              && db.cartItems[r.value].cartId == cartId
              && db.cartItems[r.value].productId == product
    ensures r.None? && KeysBelow(db.cartItems, db.nextId) ==>
              forall k :: k in db.cartItems ==>
                db.cartItems[k].cartId != cartId || db.cartItems[k].productId != product
  {
    FirstKey(db.cartItems, (i: CartItem) => i.cartId == cartId && i.productId == product, 0, db.nextId)
  }

  /** Under the invariant, the cart found is the user's only cart. */
  lemma CartOfUnique(db: Db, user: Id, c: Id)
    requires Consistent(db)
    requires c in db.carts && db.carts[c].userId == user
    ensures CartOf(db, user) == Some(c)
  {
  }

  /** Row `k` is a row of a cart that belongs to `user`. */
  predicate InCartOf(db: Db, user: Id, k: Id) {
    k in db.cartItems && db.cartItems[k].cartId in db.carts && db.carts[db.cartItems[k].cartId].userId == user
  }

  /** Storing a new order under the next id keeps the invariant. */
  lemma AddOrderKeepsConsistent(db: Db, order: Order)
    requires Consistent(db)
    ensures Consistent(db.(orders := db.orders[db.nextId := order], nextId := db.nextId + 1))
  {
    var db' := db.(orders := db.orders[db.nextId := order], nextId := db.nextId + 1);
    assert KeysBelow(db'.orders, db'.nextId);
    assert IdsBelow(db');
  }

  /** The store with no rows. */
  function EmptyDb(): (db: Db)
    ensures Consistent(db)
  {
    Db(map[], map[], map[], map[], map[], map[], map[], map[], 0)
  }

  /** The database the handlers read and write. Each field is one table. */
  class Database {
    var carts: map<Id, Cart>
    var cartItems: map<Id, CartItem>
    var products: map<Id, Product>
    var orders: map<Id, Order>
    var addresses: map<Id, Address>
    var users: map<Id, User>
    var brands: map<string, string>
    var categories: map<string, string>
    var nextId: nat

    /** The value of all tables now. */
    function Snapshot(): Db
      reads this
    {
      Db(carts, cartItems, products, orders, addresses, users, brands, categories, nextId)
    }

    ghost predicate Valid()
      reads this
    {
      Consistent(Snapshot())
    }

    constructor ()
      ensures Snapshot() == EmptyDb() && Valid()
    {
      carts, cartItems, products, orders := map[], map[], map[], map[];
      addresses, users, brands, categories := map[], map[], map[], map[];
      nextId := 0;
    }
  }
}
