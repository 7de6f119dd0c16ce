# Storefront server core, modelled in Dafny

This project models the server-side rules of a car-parts web shop built with Next.js and Prisma.

- **Cart.** The REST cart endpoints (`/api/cart`) read a cart, add to it, set a quantity and remove a row.
- **Checkout and orders.** The REST orders endpoint turns a cart into an order, lets a manager change an order's status, and lists a user's orders.
- **Addresses.** The REST addresses endpoint keeps at most one default address per user.
- **Remote procedures.** The `order`, `user` and `product` procedures of the tRPC API cover:
  - order visibility, creation and status updates;
  - the e-mail verification protocol and the administrator-only user management;
  - the product catalogue query and product writes.

The database is a value `Store.Db`: one map from id to row per table, plus one id counter `nextId` shared by all tables. `Store.Database` is the class that holds these tables as fields.

- Every handler is specified by a pure function. It maps the database before the request, and the request, to the database after it and the response.
- An imperative method over `Database` performs the same steps in place. Its `ensures` states that its new state and its response are exactly the ones the function gives.
- Every method also keeps `Store.Consistent`, the invariant of the tables:
  - fresh ids;
  - one cart per user;
  - one cart row per product in a cart;
  - cart rows that point at carts;
  - quantities of at least 1;
  - one default address per user.
- The properties the handlers promise are stated as lemmas over the specification functions.
- Inputs the code cannot choose are parameters:
  - the session (`Option<Session>`; `None` means not signed in);
  - the clock (`now`, in milliseconds);
  - the random draw of the verification code (a real in [0, 1)).
- A request body is decoded into a datatype:
  - a field that a schema checks is `None` when it is absent or of the wrong JSON type, since the schema then refuses the body;
  - a field that reaches the database unchecked (`addressId` of checkout, `id` of the address PUT) is a `Store.Field`: `Absent`, `Present` or `WrongType`. A wrong-typed one makes the database call throw, which answers 500 with nothing written.

Prisma behaviour is modelled as follows:
- `findFirst` without an order returns the row with the lowest id (`Tables.FirstKey`).
- `findMany` lists rows in id order (`Tables.Rows`), filtered by `Tables.Filter`.
- An `orderBy` is a stable insertion sort under a "may come before" relation (`Sorting.Sort`).
- `contains` is a plain substring test (`Text.Contains`).
- `update` and `delete` of a missing row fail (`RecordNotFound` in the remote procedures, a 500 answer in the REST handlers).

Where the code and the written description of the system disagree, the model follows the code:
- An order line stores product, quantity and price. The product name that the checkout handler puts into its intermediate list is never written (app/api/orders/route.ts:97-102 against 118-122).
- The phone number is required by both checkout paths but stored by neither.
- A cart row whose product no longer exists makes checkout answer 500, because reading `item.product.price` throws.
- The product writes `create`, `update` and `delete` check only that a session exists; the code asks for no role.
- GET `/api/addresses` asks for no session and returns the addresses of every user (app/api/addresses/route.ts:14-25). `AddressesProperties.ListAddressesIsEveryRow` states this.
- The REST status update requires the role spelled exactly "MANAGER". The remote procedure `updateStatus` accepts "admin" or "manager" in any letter case. `getAll` and `getById` of the `order` procedures accept exactly "admin" or "manager". `OrderRouterProperties.ManagerSpellings` shows the three gates disagreeing.

## Model

| member | source | states |
|---|---|---|
| `Tables.FirstKey` | app/api/cart/route.ts:67-71 | `findFirst`: the result is a key of the table whose row matches, with no matching key below it; `None` only when no key from the start up to the bound matches |
| `Text.Contains` | server/api/routers/product.ts:21-26 | `contains` holds exactly when the search string occurs at some position of the text |
| `Text.SixDigits` | server/api/routers/user.ts:48 | every number from 100000 to 999999 is written with exactly six decimal digits |
| `Text.DecimalRoundTrip` | server/api/routers/user.ts:48 | reading back the decimal digits of `toString()` gives the number again |
| `Store.CartOf` | app/api/cart/route.ts:20-23 | the cart found belongs to the user; when none is found, no cart of the table belongs to the user |
| `Store.ItemOf` | app/api/cart/route.ts:81-86 | the row found is in the given cart and holds the given product; when none is found, no row does |
| `Store.CartOfUnique` | app/api/cart/route.ts:67-79 | under the invariant, a cart of the user is the one the lookup finds |
| `Store.AddOrderKeepsConsistent` | server/api/routers/order.ts:92-101 | storing a new order under the next id keeps the table invariant |
| `CartRoute.PositiveInteger` | app/api/cart/route.ts:7-10 | the quantity passes exactly when it is a whole number of at least 1, and it is then that number |
| `CartRoute.Get` | app/api/cart/route.ts:12-54 | GET in place: new state and response are those of `GetCart`, and the invariant is kept |
| `CartRoute.Post` | app/api/cart/route.ts:56-123 | POST in place: new state and response are those of `AddItem`, and the invariant is kept |
| `CartRoute.Put` | app/api/cart/route.ts:125-182 | PUT in place: new state and response are those of `SetQuantity`, and the invariant is kept |
| `CartRoute.Delete` | app/api/cart/route.ts:184-230 | DELETE in place: new state and response are those of `RemoveItem`, and the invariant is kept |
| `CartRoute.ItemOfUnique` | app/api/cart/route.ts:81-86 | under the invariant, the row of a product in a cart is the one the lookup finds |
| `CartRoute.GetCartKeepsConsistent` | app/api/cart/route.ts:20-47 | GET's lazy cart creation keeps one cart per user |
| `CartRoute.AddItemKeepsConsistent` | app/api/cart/route.ts:67-114 | POST keeps one cart per user, one row per product in a cart, and positive quantities |
| `CartRoute.WithCartKeepsConsistent` | app/api/cart/route.ts:67-79 | finding or creating the cart keeps the invariant and yields a stored cart |
| `CartRoute.DepositKeepsConsistent` | app/api/cart/route.ts:81-114 | the increment-or-insert into a stored cart keeps one row per product and positive quantities |
| `CartRoute.SameKeysKeepItemInvariants` | app/api/cart/route.ts:162-172 | rewriting quantities to at least 1 without moving rows keeps the invariant |
| `CartRoute.SetQuantityKeepsConsistent` | app/api/cart/route.ts:141-172 | PUT keeps the invariant |
| `CartRoute.RemoveItemKeepsConsistent` | app/api/cart/route.ts:199-224 | DELETE keeps the invariant |
| `CartProperties.QuantityOfLine` | app/api/cart/route.ts:81-86 | the quantity of a product in the user's cart is that of its row |
| `CartProperties.QuantityNoLine` | app/api/cart/route.ts:81-86 | a product with no row in the user's cart has quantity 0 |
| `CartProperties.NoSessionChangesNothing` | app/api/cart/route.ts:16-18 | all four handlers answer 401 without a session and leave the store unchanged (also lines 60-62, 129-131 and 188-190) |
| `CartProperties.GetCartTouchesOnlyCarts` | app/api/cart/route.ts:33-46 | GET writes only the cart table and the id counter |
| `CartProperties.AddItemTouchesOnlyCarts` | app/api/cart/route.ts:67-112 | POST writes only the cart and cart-row tables and the id counter |
| `CartProperties.DepositTouchesOnlyItems` | app/api/cart/route.ts:88-112 | the increment-or-insert writes only the cart-row table and the id counter |
| `CartProperties.SetQuantityTouchesOnlyCarts` | app/api/cart/route.ts:162-172 | PUT writes only the cart-row table |
| `CartProperties.RemoveItemTouchesOnlyCarts` | app/api/cart/route.ts:220-224 | DELETE writes only the cart-row table |
| `CartProperties.AddItemValidation` | app/api/cart/route.ts:65 | POST answers 400 exactly when the product id is missing or the quantity is not a positive integer, and then changes nothing |
| `CartProperties.AddItemCreatesCart` | app/api/cart/route.ts:67-79 | POST for a user without a cart creates exactly one new cart for that user, and the row goes into it |
| `CartProperties.AddItemAccumulates` | app/api/cart/route.ts:81-114 | a successful POST raises the product's quantity in the user's cart by exactly the requested amount |
| `CartProperties.WithCartKeepsQuantity` | app/api/cart/route.ts:67-79 | finding or creating the cart yields a cart of the user and changes no quantity |
| `CartProperties.DepositAccumulates` | app/api/cart/route.ts:81-114 | the increment-or-insert adds exactly `q` to the product's quantity in the owner's cart |
| `CartProperties.AddItemTwice` | app/api/cart/route.ts:88-100 | two identical successful POSTs add twice the quantity |
| `CartProperties.AddItemExistingRow` | app/api/cart/route.ts:88-100 | POST for a product already in the cart sets that row to old plus requested quantity, adds no row and no cart |
| `CartProperties.AddItemNewRow` | app/api/cart/route.ts:103-114 | POST for a product not in the cart inserts one fresh row with exactly the requested quantity, in the user's cart |
| `CartProperties.DepositNewRow` | app/api/cart/route.ts:103-112 | the insert stores the row under the next id, which was free, and changes no cart |
| `CartProperties.WithCartKeepsLines` | app/api/cart/route.ts:67-79 | finding or creating the cart changes no row and no row's owner |
| `CartProperties.DepositKeepsOtherLines` | app/api/cart/route.ts:81-112 | the increment-or-insert leaves every row of another product or another user as it was |
| `CartProperties.ReplacingRowKeepsLines` | app/api/cart/route.ts:89-99 | writing one row changes no line of an unrelated user and product |
| `CartProperties.AddItemLeavesOthers` | app/api/cart/route.ts:81-114 | POST changes the quantity of no other product and of no other user's cart |
| `CartProperties.SetQuantityOutcome` | app/api/cart/route.ts:141-174 | PUT succeeds exactly when the row is in the user's cart: it then sets that row's quantity and nothing else; otherwise it answers 404 ("Cart not found" exactly when the user has no cart) and changes nothing |
| `CartProperties.RemoveItemOutcome` | app/api/cart/route.ts:192-226 | DELETE without an item id answers 400; on a row of the user's cart it removes exactly that row and answers 204; otherwise it answers 404 and changes nothing |
| `CartProperties.GetCartOutcome` | app/api/cart/route.ts:20-49 | GET returns the existing cart and its rows unchanged, or creates one new empty cart for the user |
| `OrdersRoute.Get` | app/api/orders/route.ts:23-60 | GET in place: the response is `ListOrders` of the state |
| `OrdersRoute.Post` | app/api/orders/route.ts:62-153 | POST in place: new state and response are those of `PlaceOrder`, and the invariant is kept; the order insert and the cart clear are one step |
| `OrdersRoute.Put` | app/api/orders/route.ts:155-195 | PUT in place: new state and response are those of `SetStatus`, and the invariant is kept |
| `OrdersRoute.PlaceOrderKeepsConsistent` | app/api/orders/route.ts:110-143 | checkout keeps the invariant |
| `OrdersRoute.CommitKeepsConsistent` | app/api/orders/route.ts:110-143 | inserting the order and deleting the user's cart rows keeps the invariant |
| `OrdersProperties.CartTotalIsItemsTotal` | app/api/orders/route.ts:105-108 | the running sum of price times quantity over the cart equals the total of the stored order lines |
| `OrdersProperties.CartLinesAreTheCart` | app/api/orders/route.ts:77-86 | the rows checkout reads are exactly the rows of the user's carts, each once, in key order |
| `OrdersProperties.PlaceOrderSnapshot` | app/api/orders/route.ts:92-132 | a placed order is the caller's, "PENDING", at the given address, stamped now, under a fresh id, with one line per cart row at the current price and a total equal to the sum of its lines |
| `OrdersProperties.PlaceOrderEmptiesCart` | app/api/orders/route.ts:110-143 | after a successful checkout the order is stored, the user's carts hold no row, every other row and every other table is unchanged |
| `OrdersProperties.CommitEmptiesCart` | app/api/orders/route.ts:134-140 | after the transaction the user's carts hold no row |
| `OrdersProperties.PlaceOrderFailureChangesNothing` | app/api/orders/route.ts:66-90 | every refused checkout leaves the database unchanged |
| `OrdersProperties.PlaceOrderRefusals` | app/api/orders/route.ts:66-90 | 401 without a session; 400 "Missing required fields" before the cart is read; then 400 "Cart is empty" exactly when the cart has no row |
| `OrdersProperties.PlaceOrderAccepted` | app/api/orders/route.ts:66-151 | checkout succeeds exactly when an address id and a non-empty phone are given, the cart has a row and every row's product exists; with a cart row, a wrong-typed address id or a missing product answers 500 "Failed to create order" and writes nothing |
| `OrdersProperties.ExampleCartLines` | app/api/orders/route.ts:77-86 | the example cart reads as its two rows in id order |
| `OrdersProperties.PlaceOrderExample` | app/api/orders/route.ts:105-108 | 2 x 500 plus 1 x 1500 make a total of 2500, and the cart is emptied |
| `OrdersProperties.SetStatusOnlyStatus` | app/api/orders/route.ts:171-177 | a successful PUT changes only the status of the named existing order, to one of the four statuses; a refused PUT changes nothing |
| `OrdersProperties.SetStatusGate` | app/api/orders/route.ts:159-161 | PUT answers 401 exactly when there is no session or the role is not exactly "MANAGER" |
| `OrdersProperties.SetStatusRefusals` | app/api/orders/route.ts:163-193 | for a manager, 400 exactly for a missing id or a status outside PENDING/PROCESSING/SHIPPED/DELIVERED, and 500 exactly for a valid request on a missing order |
| `OrdersProperties.ListOrdersContents` | app/api/orders/route.ts:31-53 | GET lists exactly the orders whose owner has the session's e-mail, newest first |
| `OrdersProperties.ListOrdersNeedsEmail` | app/api/orders/route.ts:27-29 | GET without an e-mail in the session answers 401 |
| `AddressesRoute.Get` | app/api/addresses/route.ts:14-25 | GET in place: the response is `ListAddresses` of the state |
| `AddressesRoute.Post` | app/api/addresses/route.ts:27-71 | POST in place: new state and response are those of `CreateAddress`, and the invariant is kept |
| `AddressesRoute.Put` | app/api/addresses/route.ts:73-131 | PUT in place: new state and response are those of the corrected `UpdateAddress`, and the invariant is kept |
| `AddressesRoute.Delete` | app/api/addresses/route.ts:133-170 | DELETE in place: new state and response are those of `DeleteAddress`, and the invariant is kept |
| `AddressesRoute.ClearDefaultsLeavesAtMost` | app/api/addresses/route.ts:97-108 | clearing keeps every key and owner; afterwards the only default of the user that can remain is the excepted one |
| `AddressesRoute.CreateAddressKeepsConsistent` | app/api/addresses/route.ts:38-60 | POST keeps one default address per user |
| `AddressesRoute.AddAddressKeepsConsistent` | app/api/addresses/route.ts:50-60 | adding a default row after the owner's defaults were cleared keeps the invariant |
| `AddressesRoute.UpdateAddressKeepsConsistent` | app/api/addresses/route.ts:85-121 | PUT keeps one default address per user |
| `AddressesRoute.RewriteKeepsConsistent` | app/api/addresses/route.ts:96-121 | clearing the other defaults and then rewriting the row keeps the invariant |
| `AddressesRoute.DeleteAddressKeepsConsistent` | app/api/addresses/route.ts:159-163 | DELETE keeps the invariant |
| `AddressesProperties.CreateAddressResult` | app/api/addresses/route.ts:38-62 | POST stores the given fields with region "Москва" and country "Россия" under a fresh id; a default address is then the user's only default; a non-default one changes no other row; every earlier row keeps its fields, and loses its default flag exactly when it is the caller's and the new row is the default |
| `AddressesProperties.ClearDefaultsOnlyFlags` | app/api/addresses/route.ts:97-108 | clearing keeps every row and every field but the flag; a row keeps its flag set exactly when it had it and is not one of the user's rows other than the excepted one |
| `AddressesProperties.UpdateAddressResult` | app/api/addresses/route.ts:85-123 | a successful PUT rewrites exactly street, city, postal code and flag of the user's own address; a default one is then the user's only default; every other row keeps its fields and loses its default flag exactly when it is the caller's and the edited row is the default; other tables are untouched |
| `AddressesProperties.ForeignAddressRefused` | app/api/addresses/route.ts:85-94 | PUT and DELETE on an address that is not the caller's answer 404 and change nothing |
| `AddressesProperties.AddressFailuresChangeNothing` | app/api/addresses/route.ts:31-94 | every refused POST, PUT or DELETE leaves the database unchanged |
| `AddressesProperties.AddressRefusals` | app/api/addresses/route.ts:77-94 | POST and PUT answer 401 without a session, then 400 for a body the schema rejects; a PUT whose `id` has the wrong type answers 500 and one without `id` 404, writing nothing |
| `AddressesProperties.DeleteAddressOutcome` | app/api/addresses/route.ts:141-165 | DELETE without an id answers 400, and succeeds exactly on an address of the caller, removing that row only |
| `AddressesProperties.ListAddressesIsEveryRow` | app/api/addresses/route.ts:16-17 | GET returns every stored address of every user |
| `AddressesProperties.AsWrittenAgreesWithId` | app/api/addresses/route.ts:81-121 | with an `id` in the body, of any type, the handler as written and the corrected PUT agree |
| `AddressesProperties.PutWithoutIdClearsDefault` | app/api/addresses/route.ts:82-121 | a PUT without id answers 500 yet has cleared the caller's default; the corrected PUT answers 404 and writes nothing |
| `OrderRouter.PriceLines` | server/api/routers/order.ts:77-89 | the lookup succeeds exactly when every product exists, giving one line per input line at the product's price; otherwise it fails on the first missing product |
| `OrderRouter.Create` | server/api/routers/order.ts:67-110 | `create` in place: new state and result are those of `CreateOrder`, and the invariant is kept |
| `OrderRouter.UpdateStatus` | server/api/routers/order.ts:112-130 | `updateStatus` in place: new state and result are those of `UpdateOrderStatus`, and the invariant is kept |
| `OrderRouter.CreateOrderKeepsConsistent` | server/api/routers/order.ts:92-101 | `create` keeps the invariant |
| `OrderRouterProperties.AllOrdersVisibility` | server/api/routers/order.ts:10-42 | `getAll` lists every order for "admin" or "manager" and exactly the caller's orders otherwise, newest first |
| `OrderRouterProperties.OrderByIdAccess` | server/api/routers/order.ts:44-65 | `getById` returns an order exactly when it exists, the caller has a role, and the caller is staff or the owner; a missing order fails with "Order not found", an existing one the caller may not see with "Unauthorized" |
| `OrderRouterProperties.CreateOrderResult` | server/api/routers/order.ts:77-101 | a created order is the caller's, "pending", at the given address, with one line per input line at the current price and a total equal to the sum of its lines; nothing else changes |
| `OrderRouterProperties.CreateOrderMissingProduct` | server/api/routers/order.ts:79-82 | `create` fails with the first missing product and writes nothing |
| `OrderRouterProperties.UpdateOrderStatusOnlyStatus` | server/api/routers/order.ts:122-125 | `updateStatus` changes only the status of the one named order, to one of the five statuses; a failure changes nothing |
| `OrderRouterProperties.UpdateOrderStatusRefusals` | server/api/routers/order.ts:113-121 | a status outside the five is refused first; then a role that is not admin or manager in any case fails with "Unauthorized"; then a missing order fails |
| `OrderRouterProperties.ManagerSpellings` | server/api/routers/order.ts:119 | "MANAGER" passes `updateStatus` but not `getAll`; "manager" and "Manager" pass `updateStatus` but are refused by the REST status update |
| `UserRouter.CodeNumber` | server/api/routers/user.ts:48 | the generated number lies between 100000 and 999999 |
| `UserRouter.SendVerificationEmail` | server/api/routers/user.ts:41-59 | `sendVerificationEmail` in place: new state and result are those of `SendCode`, and the invariant is kept |
| `UserRouter.VerifyEmail` | server/api/routers/user.ts:61-87 | `verifyEmail` in place: new state and result are those of `Verify`, and the invariant is kept |
| `UserRouter.UpdateRole` | server/api/routers/user.ts:104-117 | `updateRole` in place: new state and result are those of `SetRole`, and the invariant is kept |
| `UserRouter.Delete` | server/api/routers/user.ts:119-128 | `delete` in place: new state and result are those of `DeleteUser`, and the invariant is kept |
| `UserRouterProperties.SendCodeAwaits` | server/api/routers/user.ts:43-56 | sending a code puts the caller in the awaiting state with a six-digit code expiring 30 minutes after now; nothing else changes |
| `UserRouterProperties.SendCodeUnknownUser` | server/api/routers/user.ts:46 | a missing user fails with "User not found" and nothing is written |
| `UserRouterProperties.VerifySucceedsExactly` | server/api/routers/user.ts:66-86 | verification succeeds exactly when a code awaits, the input names it and it has not expired; a failure writes nothing |
| `UserRouterProperties.VerifyRefusals` | server/api/routers/user.ts:75-77 | "No code sent", then "Неверный код", then "Код истёк": the wrong-code check comes before the expiry check |
| `UserRouterProperties.VerifyConsumesCode` | server/api/routers/user.ts:78-85 | success records now as the verification time and clears code and expiry, changing nothing else |
| `UserRouterProperties.VerifyTwice` | server/api/routers/user.ts:75 | a second verification after a success fails with "No code sent" |
| `UserRouterProperties.SendThenVerify` | server/api/routers/user.ts:48-86 | the code just sent verifies until 30 minutes have passed and is refused as expired afterwards |
| `UserRouterProperties.ArrayInputIsFirstElement` | server/api/routers/user.ts:65 | an array input is judged by its first element |
| `UserRouterProperties.AdminGates` | server/api/routers/user.ts:91-124 | `getAll`, `updateRole` and `delete` fail with "Unauthorized" unless the role is exactly "admin" ("ADMIN" is refused) |
| `UserRouterProperties.SetRoleOutcome` | server/api/routers/user.ts:105-116 | a role outside user/manager/admin is refused before the caller's role is checked; a success sets exactly that user's role |
| `UserRouterProperties.DeleteUserOutcome` | server/api/routers/user.ts:125-127 | for an administrator, `delete` succeeds exactly on an existing user, removing and returning that row only |
| `UserRouterProperties.AllUsersIsEveryRow` | server/api/routers/user.ts:94-101 | `getAll` lists the id, name, e-mail and role of every user and nothing else |
| `ProductRouter.Create` | server/api/routers/product.ts:64-93 | `create` in place: new state and result are those of `CreateProduct`, and the invariant is kept |
| `ProductRouter.Update` | server/api/routers/product.ts:95-115 | `update` in place: new state and result are those of `UpdateProduct`, and the invariant is kept |
| `ProductRouter.Delete` | server/api/routers/product.ts:117-124 | `delete` in place: new state and result are those of `DeleteProduct`, and the invariant is kept |
| `ProductRouter.CreateProductKeepsConsistent` | server/api/routers/product.ts:79-92 | `create` keeps the invariant |
| `ProductRouterProperties.OrderIsPreorder` | server/api/routers/product.ts:28-32 | each of the five orderings is total and transitive |
| `ProductRouterProperties.AllProductsOrder` | server/api/routers/product.ts:28-47 | `getAll` with "price_asc" lists prices ascending, "price_desc" descending, "name_asc" and "name_desc" names ascending and descending; any other `sort`, or none, lists the newest first |
| `ProductRouterProperties.SelectedRows` | server/api/routers/product.ts:39-42 | the rows selected are exactly the matching products, sorted by the requested ordering |
| `ProductRouterProperties.AllProductsResult` | server/api/routers/product.ts:17-47 | `getAll` lists exactly the matching products with all their fields and their brand's and category's names ("" for an unknown id), one entry per selected row, in the requested order |
| `ProductRouterProperties.MatchesMeaning` | server/api/routers/product.ts:17-26 | a given non-empty category, car brand or car model must equal the product's; with no filter given, every product matches; a non-empty search keeps exactly the products whose name or description contains it |
| `ProductRouterProperties.PopularSize` | server/api/routers/product.ts:131-134 | `getPopular` lists 12 products, or all when there are fewer |
| `ProductRouterProperties.PopularSorted` | server/api/routers/product.ts:131-134 | `getPopular` lists newest first |
| `ProductRouterProperties.PopularNewest` | server/api/routers/product.ts:131-134 | `getPopular` lists only stored products, and no product it leaves out is newer than one it lists |
| `ProductRouterProperties.PopularFromAll` | server/api/routers/product.ts:131-134 | the popular list is a prefix of the whole catalogue sorted newest first |
| `ProductRouterProperties.RowCount` | server/api/routers/product.ts:131-134 | the catalogue lists each product once |
| `ProductRouterProperties.CreateProductResult` | server/api/routers/product.ts:79-92 | `create` stores every given field under a fresh id, "" for an omitted car brand or model, stamped now; nothing else changes |
| `ProductRouterProperties.UpdateProductPartial` | server/api/routers/product.ts:110-114 | `update` gives each supplied field its new value and keeps every other field, including part number and creation time; no other row changes |
| `ProductRouterProperties.MissingProduct` | server/api/routers/product.ts:111-123 | `update` and `delete` of a missing product fail with nothing written; `delete` otherwise removes exactly that row and returns it |
| `ProductRouterProperties.ProductWriteRefusals` | server/api/routers/product.ts:64-124 | `create`, `update` and `delete` fail without a session, then with a bad request exactly when the input fails its schema, writing nothing; `create` succeeds exactly with a session and a valid input |

## Left out

- Sending e-mail is left out; `sendVerificationEmail` is modelled only as its change to the user row.
- Logging is left out.
- The rows a handler `include`s in its response (products of cart rows, order lines, users) are left out. Responses carry ids and rows only.
- Foreign keys and cascades are not modelled, because the database schema is not part of this model. Deleting a user, product or address that other rows point at succeeds in the model. Column widths are not modelled either: integers are unbounded, so a quantity that overflows a 32-bit `Int` column (which would make the cart update throw) is accepted, and `CartProperties.AddItemTwice` holds for every quantity.
- Concurrency is not modelled. Checkout reads the cart outside its transaction, and each handler is one atomic step.
- Floating point is not modelled. Prices and quantities are integers in minor units. The zod integer test works on a `real`.
- The remote procedures' `Promise.all` rejects with whichever lookup fails first in time. The model reports the first missing product in input order.
- The database's collation is modelled as code-point order of the strings for name sorting, and as a case-sensitive comparison for `contains`. The database provider is not named in the code. Under a case-insensitive collation (MySQL's default, for example) a search would also match other letter cases.
- The order among equal sort keys is the database's choice. The model keeps id order (the sort is stable).
- The product procedures `getById` and `getCategories` are left out. They are plain lookups with `include`/`select` of related rows.
- `getProfile` and `updateProfile` of the `user` procedures are left out, because they store the client's fields unchecked.
- The input schemas of the remote procedures are modelled as `None` for an input of the wrong shape: order `getById`, `create` and `updateStatus`, user `updateRole` and `delete`, and product `getAll`, `create`, `update` and `delete`. `verifyEmail` takes its input as a JSON value (`UserRouter.JsonValue`), because the procedure inspects the input itself. The numbers in `create` and `update` of products are integers, where the schema accepts any number.
- A body that is not valid JSON makes `request.json()` throw, which every REST handler answers with 500. The model starts from the decoded body, so this case is not modelled.
- `Math.random` itself is not modelled. The random draw of the verification code is a parameter.

## Findings

| source | as written | input that shows it | evidently intended | confidence | as-written member | corrected member |
|---|---|---|---|---|---|---|
| app/api/addresses/route.ts:82-121 | A PUT body without `id` passes the schema. `findFirst({ where: { id: undefined, userId } })` drops the id filter and finds the caller's first address. `updateMany` with `id: { not: undefined }` then clears every default of the caller. `update({ where: { id: undefined } })` finally throws, so the request answers 500 after the default flag was already removed. | User 1 owns one default address; PUT `{ street: "Mira 2", city: "Tver", postalCode: "170001", isDefault: true }` without `id` | a PUT that names no address is refused with 404 and writes nothing | not executed | `AddressesProperties.PutWithoutIdClearsDefault` | `AddressesRoute.UpdateAddress` |
