/** The `product` procedures of the remote-procedure API: the catalogue query `getAll`, the
    writes `create`, `update` and `delete`, and `getPopular`.

    `getAll` is a pure query: optional equality filters and a name-or-description search
    select the products, a sort key picks the order, and each product is returned with the
    names of its brand and category. */
module ProductRouter {
  import opened Wrappers
  import opened Tables
  import opened Sorting
  import opened Text
  import opened Store

  /** The input of `getAll`; every field is optional. */
  datatype Query = Query(
    categoryId: Option<string>, search: Option<string>, sort: Option<string>,
    carBrand: Option<string>, carModel: Option<string>)

  /** A product as `getAll` returns it: its row plus the names of its brand and category. */
  datatype ProductView = ProductView(id: Id, product: Product, brandName: string, categoryName: string)

  /** The input of `create`. */
  datatype NewProduct = NewProduct(
    name: string, description: string, price: int, image: string, categoryId: string,
    brandId: string, partNumber: string, stock: int, carBrand: Option<string>, carModel: Option<string>)

  /** The input of `update`: the product id and the fields to change. The part number cannot
      be changed. */
  datatype ProductPatch = ProductPatch(
    id: Id, name: Option<string>, description: Option<string>, price: Option<int>,
    image: Option<string>, categoryId: Option<string>, brandId: Option<string>,
    stock: Option<int>, carBrand: Option<string>, carModel: Option<string>)

  /** The orderings `getAll` can ask for. */
  datatype SortKey = PriceAsc | PriceDesc | NameAsc | NameDesc | NewestFirst

  /** How many products `getPopular` returns at most. */
  const PopularCount: nat := 12

  /** The sort key named by `sort`; anything else, or nothing, is newest first. */
  function SortKeyOf(sort: Option<string>): SortKey {
    if sort == Some("price_asc") then PriceAsc
    else if sort == Some("price_desc") then PriceDesc
    else if sort == Some("name_asc") then NameAsc
    else if sort == Some("name_desc") then NameDesc
    else NewestFirst
  }

  /** `a` may be listed before `b` under `key`. */
  function Before(key: SortKey, a: (Id, Product), b: (Id, Product)): bool {
    match key
    case PriceAsc => a.1.price <= b.1.price
    case PriceDesc => a.1.price >= b.1.price
    case NameAsc => LessEq(a.1.name, b.1.name)
    case NameDesc => LessEq(b.1.name, a.1.name)
    case NewestFirst => a.1.createdAt >= b.1.createdAt
  }

  function Ordering(key: SortKey): ((Id, Product), (Id, Product)) -> bool {
    (a: (Id, Product), b: (Id, Product)) => Before(key, a, b)
  }

  /** A filter value is used only when it is given and not empty. */
  predicate Given(v: Option<string>) {
    v.Some? && v.value != ""
  }

  /** The `where` clause `getAll` builds. */
  predicate Matches(q: Query, p: Product) {
    && (Given(q.categoryId) ==> p.categoryId == q.categoryId.value)
    && (Given(q.carBrand) ==> p.carBrand == q.carBrand.value)
    && (Given(q.carModel) ==> p.carModel == q.carModel.value)
    && (Given(q.search) ==> Contains(p.name, q.search.value) || Contains(p.description, q.search.value))
  }

  /** `names[id] || ''`. */
  function NameOr(names: map<string, string>, id: string): string {
    if id in names then names[id] else ""
  }

  function Enrich(db: Db, row: (Id, Product)): ProductView {
    ProductView(row.0, row.1, NameOr(db.brands, row.1.brandId), NameOr(db.categories, row.1.categoryId))
  }

  /** The matching rows in the requested order, before enrichment. */
  function Selected(db: Db, q: Query): seq<(Id, Product)> {
    Sort(Filter(Rows(db.products, 0, db.nextId), (r: (Id, Product)) => Matches(q, r.1)), Ordering(SortKeyOf(q.sort)))
  }

  // ---------------------------------------------------------------- queries

  /** `getAll`: no sign-in needed. `query` is `None` when the input is no object of optional
      strings. */
  function AllProducts(db: Db, query: Option<Query>): Outcome<seq<ProductView>> {
    if query.None? then Err(BadRequest)
    else
      var rows := Selected(db, query.value);
      Ok(seq(|rows|, i requires 0 <= i < |rows| => Enrich(db, rows[i])))
  }

  /** `getPopular`: the twelve newest products, newest first. */
  function Popular(db: Db): seq<(Id, Product)> {
    var all := Sort(Rows(db.products, 0, db.nextId), Ordering(NewestFirst));
    if |all| <= PopularCount then all else all[..PopularCount]
  }

  // ---------------------------------------------------------------- mutations

  /** `create` at time `now`: a missing car brand or model is stored as "". `input` is `None`
      when the input does not pass its schema. */
  function CreateProduct(db: Db, session: Option<Session>, input: Option<NewProduct>, now: int): (Db, Outcome<(Id, Product)>) {
    if session.None? then (db, Err(Unauthenticated))
    else if input.None? then (db, Err(BadRequest))
    else
      var i := input.value;
      var p := Product(i.name, i.description, i.price, i.image, i.categoryId,
                       i.brandId, i.partNumber, i.stock,
                       i.carBrand.GetOr(""), i.carModel.GetOr(""), now);
      (db.(products := db.products[db.nextId := p], nextId := db.nextId + 1), Ok((db.nextId, p)))
  }

  /** The product with every supplied field of `patch` replaced. */
  function ApplyPatch(p: Product, patch: ProductPatch): Product {
    p.(name := patch.name.GetOr(p.name),
       description := patch.description.GetOr(p.description),
       price := patch.price.GetOr(p.price),
       image := patch.image.GetOr(p.image),
       categoryId := patch.categoryId.GetOr(p.categoryId),
       brandId := patch.brandId.GetOr(p.brandId),
       stock := patch.stock.GetOr(p.stock),
       carBrand := patch.carBrand.GetOr(p.carBrand),
       carModel := patch.carModel.GetOr(p.carModel))
  }

  /** `update`: change the supplied fields of an existing product. `patch` is `None` when the
      input does not pass its schema. */
  function UpdateProduct(db: Db, session: Option<Session>, patch: Option<ProductPatch>): (Db, Outcome<(Id, Product)>) {
    if session.None? then (db, Err(Unauthenticated))
    else if patch.None? then (db, Err(BadRequest))
    else if patch.value.id !in db.products then (db, Err(RecordNotFound))
    else
      var p := ApplyPatch(db.products[patch.value.id], patch.value);
      (db.(products := db.products[patch.value.id := p]), Ok((patch.value.id, p)))
  }

  /** `delete`: remove an existing product, returning its row. `id` is `None` when the input
      is not a string. */
  function DeleteProduct(db: Db, session: Option<Session>, id: Option<Id>): (Db, Outcome<Product>) {
    if session.None? then (db, Err(Unauthenticated))
    else if id.None? then (db, Err(BadRequest))
    else if id.value !in db.products then (db, Err(RecordNotFound))
    else (db.(products := db.products - {id.value}), Ok(db.products[id.value]))
  }

  method Create(db: Database, session: Option<Session>, input: Option<NewProduct>, now: int) returns (result: Outcome<(Id, Product)>)
    requires db.Valid()
    modifies db
    ensures db.Valid()
    ensures (db.Snapshot(), result) == CreateProduct(old(db.Snapshot()), session, input, now)
  {
    CreateProductKeepsConsistent(db.Snapshot(), session, input, now);
    if session.None? {
      return Err(Unauthenticated);
    }
    if input.None? {
      return Err(BadRequest);
    }
    var i := input.value;
    var p := Product(i.name, i.description, i.price, i.image, i.categoryId,
                     i.brandId, i.partNumber, i.stock,
                     i.carBrand.GetOr(""), i.carModel.GetOr(""), now);
    var id := db.nextId;
    db.products := db.products[id := p];
    db.nextId := id + 1;
    return Ok((id, p));
  }

  method Update(db: Database, session: Option<Session>, patch: Option<ProductPatch>) returns (result: Outcome<(Id, Product)>)
    requires db.Valid()
    modifies db
    ensures db.Valid()
    ensures (db.Snapshot(), result) == UpdateProduct(old(db.Snapshot()), session, patch)
  {
    if session.None? {
      return Err(Unauthenticated);
    }
    if patch.None? {
      return Err(BadRequest);
    }
    var id := patch.value.id;
    if id !in db.products {
      return Err(RecordNotFound);
    }
    var p := ApplyPatch(db.products[id], patch.value);
    db.products := db.products[id := p];
    return Ok((id, p));
  }

  method Delete(db: Database, session: Option<Session>, id: Option<Id>) returns (result: Outcome<Product>)
    requires db.Valid()
    modifies db
    ensures db.Valid()
    ensures (db.Snapshot(), result) == DeleteProduct(old(db.Snapshot()), session, id)
  {
    if session.None? {
      return Err(Unauthenticated);
    }
    if id.None? {
      return Err(BadRequest);
    }
    if id.value !in db.products {
      return Err(RecordNotFound);
    }
    var p := db.products[id.value];
    db.products := db.products - {id.value};
    return Ok(p);
  }

  lemma CreateProductKeepsConsistent(db: Db, session: Option<Session>, input: Option<NewProduct>, now: int)
    requires Consistent(db)
    ensures Consistent(CreateProduct(db, session, input, now).0)
  {
    var db' := CreateProduct(db, session, input, now).0;
    assert KeysBelow(db'.products, db'.nextId);
    assert IdsBelow(db');
  }
}

/** What the `product` procedures promise, stated over the specifications. */
module ProductRouterProperties {
  import opened Wrappers
  import opened Tables
  import opened Sorting
  import opened Text
  import opened Store
  import opened ProductRouter

  /** Each of the five orderings is a total preorder, so sorting by it is well defined. */
  lemma OrderIsPreorder(key: SortKey)
    ensures TotalPreorder(Ordering(key))
  {
    if key == NameAsc || key == NameDesc {
      forall a: (Id, Product), b: (Id, Product) ensures Ordering(key)(a, b) || Ordering(key)(b, a) {
        LessEqTotal(a.1.name, b.1.name);
      }
      forall a: (Id, Product), b: (Id, Product), c: (Id, Product) | Ordering(key)(a, b) && Ordering(key)(b, c)
        ensures Ordering(key)(a, c)
      {
        if key == NameAsc {
          LessEqTransitive(a.1.name, b.1.name, c.1.name);
        } else {
          LessEqTransitive(c.1.name, b.1.name, a.1.name);
        }
      }
    }
  }

  /** The rows `getAll` selects are exactly the matching products, in the requested order. */
  lemma SelectedRows(db: Db, q: Query)
    requires Consistent(db)
    ensures forall id, p :: (id, p) in Selected(db, q) <==> id in db.products && db.products[id] == p && Matches(q, p)
    ensures Sorted(Selected(db, q), Ordering(SortKeyOf(q.sort)))
  {
    var rows := Rows(db.products, 0, db.nextId);
    var pick := (r: (Id, Product)) => Matches(q, r.1);
    var kept := Filter(rows, pick);
    var sel := Selected(db, q);
    RowsOfTable(db.products, db.nextId);
    forall id, p ensures (id, p) in sel <==> id in db.products && db.products[id] == p && Matches(q, p) {
      assert (id, p) in sel <==> multiset(sel)[(id, p)] > 0;
      assert (id, p) in kept <==> multiset(kept)[(id, p)] > 0;
      FilterMembership(rows, pick, (id, p));
    }
    OrderIsPreorder(SortKeyOf(q.sort));
    SortSorted(kept, Ordering(SortKeyOf(q.sort)));
  }

  /** `getAll` lists exactly the products that pass every given filter, in the requested
      order, each with all of its fields and with its brand's and category's name, or ""
      when the id names none. */
  lemma AllProductsResult(db: Db, q: Query)
    requires Consistent(db)
    ensures AllProducts(db, Some(q)).Ok?
    ensures var views := AllProducts(db, Some(q)).value;
      && |views| == |Selected(db, q)|
      && (forall v :: v in views <==>
            && v.id in db.products && v.product == db.products[v.id] && Matches(q, v.product)
            && v.brandName == NameOr(db.brands, v.product.brandId)
            && v.categoryName == NameOr(db.categories, v.product.categoryId))
      && (forall i, j :: 0 <= i < j < |views| ==>
            Before(SortKeyOf(q.sort), (views[i].id, views[i].product), (views[j].id, views[j].product)))
  {
    var sel := Selected(db, q);
    var views := AllProducts(db, Some(q)).value;
    SelectedRows(db, q);
    forall v ensures v in views <==>
      && v.id in db.products && v.product == db.products[v.id] && Matches(q, v.product)
      && v.brandName == NameOr(db.brands, v.product.brandId)
      && v.categoryName == NameOr(db.categories, v.product.categoryId)
    {
      if v in views {
        var i :| 0 <= i < |views| && views[i] == v;
        assert sel[i] in sel;
      }
      if v.id in db.products && v.product == db.products[v.id] && Matches(q, v.product)
        && v.brandName == NameOr(db.brands, v.product.brandId)
        && v.categoryName == NameOr(db.categories, v.product.categoryId)
      {
        assert (v.id, v.product) in sel;
        var i :| 0 <= i < |sel| && sel[i] == (v.id, v.product);
        assert views[i] == v;
      }
    }
  }

  /** The order of `getAll` for each value of `sort`: "price_asc" and "price_desc" order by
      price, "name_asc" and "name_desc" by name, and any other value, or none, lists the
      newest products first. */
  lemma AllProductsOrder(db: Db, q: Query)
    requires Consistent(db)
    ensures var views := AllProducts(db, Some(q)).value;
      && (q.sort == Some("price_asc") ==>
            forall i, j :: 0 <= i < j < |views| ==> views[i].product.price <= views[j].product.price)
      && (q.sort == Some("price_desc") ==>
            forall i, j :: 0 <= i < j < |views| ==> views[i].product.price >= views[j].product.price)
      && (q.sort == Some("name_asc") ==>
            forall i, j :: 0 <= i < j < |views| ==> LessEq(views[i].product.name, views[j].product.name))
      && (q.sort == Some("name_desc") ==>
            forall i, j :: 0 <= i < j < |views| ==> LessEq(views[j].product.name, views[i].product.name))
      && (q.sort !in {Some("price_asc"), Some("price_desc"), Some("name_asc"), Some("name_desc")} ==>
            forall i, j :: 0 <= i < j < |views| ==> views[i].product.createdAt >= views[j].product.createdAt)
  {
    AllProductsResult(db, q);
  }

  /** A given, non-empty filter value restricts the field to that value; a search keeps the
      products whose name or description has the search string at some position. */
  lemma MatchesMeaning(q: Query, p: Product)
    ensures Given(q.categoryId) && p.categoryId != q.categoryId.value ==> !Matches(q, p)
    ensures Given(q.carBrand) && p.carBrand != q.carBrand.value ==> !Matches(q, p)
    ensures Given(q.carModel) && p.carModel != q.carModel.value ==> !Matches(q, p)
    ensures !Given(q.categoryId) && !Given(q.carBrand) && !Given(q.carModel) && !Given(q.search) ==>
      Matches(q, p)
    ensures Given(q.search) ==>
      (Matches(q.(categoryId := None, carBrand := None, carModel := None), p) <==>
        (exists i: nat :: OccursAt(p.name, q.search.value, i)) ||
        (exists i: nat :: OccursAt(p.description, q.search.value, i)))
  {
  }

  /** `getPopular` lists twelve products, or every product when there are fewer. */
  lemma PopularSize(db: Db)
    requires KeysBelow(db.products, db.nextId)
    ensures |Popular(db)| == (if |db.products| < PopularCount then |db.products| else PopularCount)
  {
    RowCount(db);
    PopularFromAll(db);
  }

  /** `getPopular` lists its products newest first. */
  lemma PopularSorted(db: Db)
    requires KeysBelow(db.products, db.nextId)
    ensures Sorted(Popular(db), Ordering(NewestFirst))
  {
    var rows := Rows(db.products, 0, db.nextId);
    var all := Sort(rows, Ordering(NewestFirst));
    PopularFromAll(db);
    OrderIsPreorder(NewestFirst);
    SortSorted(rows, Ordering(NewestFirst));
    PrefixOfSorted(all, Ordering(NewestFirst), Popular(db));
  }

  /** `getPopular` lists only stored products, and no product it leaves out is newer than
      one it lists. */
  lemma PopularNewest(db: Db)
    requires KeysBelow(db.products, db.nextId)
    ensures forall id, p :: (id, p) in Popular(db) ==> id in db.products && db.products[id] == p
    ensures forall id :: id in db.products && (id, db.products[id]) !in Popular(db) ==>
      forall i :: 0 <= i < |Popular(db)| ==> Popular(db)[i].1.createdAt >= db.products[id].createdAt
  {
    var rows := Rows(db.products, 0, db.nextId);
    var all := Sort(rows, Ordering(NewestFirst));
    var top := Popular(db);
    PopularFromAll(db);
    OrderIsPreorder(NewestFirst);
    SortSorted(rows, Ordering(NewestFirst));
    PrefixOfSorted(all, Ordering(NewestFirst), top);
    forall id, p | (id, p) in top ensures id in db.products && db.products[id] == p {
      assert (id, p) in all;
    }
    forall id | id in db.products && (id, db.products[id]) !in top
      ensures forall i :: 0 <= i < |top| ==> top[i].1.createdAt >= db.products[id].createdAt
    {
      assert (id, db.products[id]) in all;
    }
  }

  /** The popular list is a prefix of the whole catalogue sorted newest first, which holds
      every product row exactly once. */
  lemma PopularFromAll(db: Db)
    requires KeysBelow(db.products, db.nextId)
    ensures var all := Sort(Rows(db.products, 0, db.nextId), Ordering(NewestFirst));
      && |all| == |Rows(db.products, 0, db.nextId)|
      && |Popular(db)| == (if |all| < PopularCount then |all| else PopularCount)
      && Popular(db) == all[..|Popular(db)|]
      && (forall id, p :: (id, p) in all <==> id in db.products && db.products[id] == p)
  {
    var rows := Rows(db.products, 0, db.nextId);
    var all := Sort(rows, Ordering(NewestFirst));
    assert |all| == |rows| by {
      assert |multiset(all)| == |multiset(rows)|;
    }
    RowsOfTable(db.products, db.nextId);
    forall id, p ensures (id, p) in all <==> id in db.products && db.products[id] == p {
      assert (id, p) in all <==> multiset(all)[(id, p)] > 0;
      assert (id, p) in rows <==> multiset(rows)[(id, p)] > 0;
    }
  }

  /** A prefix of a sorted list is sorted, and each of its elements may precede every
      element after it. */
  lemma PrefixOfSorted<T>(all: seq<T>, le: (T, T) -> bool, top: seq<T>)
    requires Sorted(all, le)
    requires |top| <= |all| && top == all[..|top|]
    ensures Sorted(top, le)
    ensures forall x :: x in all && x !in top ==> forall i :: 0 <= i < |top| ==> le(top[i], x)
  {
    forall i, j | 0 <= i < j < |top| ensures le(top[i], top[j]) {
      assert top[i] == all[i] && top[j] == all[j];
    }
    forall x | x in all && x !in top ensures forall i :: 0 <= i < |top| ==> le(top[i], x) {
      var j :| 0 <= j < |all| && all[j] == x;
    }
  }

  /** A table listed up to its id counter has one row per key. */
  lemma RowCount(db: Db)
    requires KeysBelow(db.products, db.nextId)
    ensures |Rows(db.products, 0, db.nextId)| == |db.products|
  {
    var rows := Rows(db.products, 0, db.nextId);
    RowsOfTable(db.products, db.nextId);
    RowsIncreasing(db.products, 0, db.nextId);
    var keys := set i | 0 <= i < |rows| :: rows[i].0;
    assert keys == db.products.Keys by {
      forall k | k in db.products ensures k in keys {
        assert (k, db.products[k]) in rows;
        var i :| 0 <= i < |rows| && rows[i] == (k, db.products[k]);
      }
    }
    DistinctKeysCount(rows);
  }

  /** A list whose keys strictly increase has as many distinct keys as elements. */
  lemma {:induction false} DistinctKeysCount<V>(rows: seq<(Id, V)>)
    requires forall i, j :: 0 <= i < j < |rows| ==> rows[i].0 < rows[j].0
    ensures |set i | 0 <= i < |rows| :: rows[i].0| == |rows|
  {
    if rows != [] {
      var rest := rows[1..];
      DistinctKeysCount(rest);
      var keys := set i | 0 <= i < |rows| :: rows[i].0;
      var restKeys := set i | 0 <= i < |rest| :: rest[i].0;
      assert keys == {rows[0].0} + restKeys by {
        forall k | k in keys ensures k in {rows[0].0} + restKeys {
          var i :| 0 <= i < |rows| && rows[i].0 == k;
          if i > 0 {
            assert rest[i - 1].0 == k;
          }
        }
      }
      assert rows[0].0 !in restKeys;
    }
  }

  /** `create` stores the given fields under a fresh id, with "" for an omitted car brand or
      model, stamped `now`; no other table changes. */
  lemma CreateProductResult(db: Db, s: Session, input: NewProduct, now: int)
    ensures var (db', r) := CreateProduct(db, Some(s), Some(input), now);
      && r.Ok?
      && r.value.0 == db.nextId
      && var p := r.value.1;
      && p.name == input.name && p.description == input.description && p.price == input.price
      && p.image == input.image && p.categoryId == input.categoryId && p.brandId == input.brandId
      && p.partNumber == input.partNumber && p.stock == input.stock && p.createdAt == now
      && (input.carBrand.None? ==> p.carBrand == "") && (input.carBrand.Some? ==> p.carBrand == input.carBrand.value)
      && (input.carModel.None? ==> p.carModel == "") && (input.carModel.Some? ==> p.carModel == input.carModel.value)
      && db' == db.(products := db.products[db.nextId := p], nextId := db.nextId + 1)
  {
  }

  /** `update` changes exactly the supplied fields of the named product: each supplied field
      takes its new value, every other field keeps its old one, and no other row changes. */
  lemma UpdateProductPartial(db: Db, s: Session, patch: ProductPatch)
    requires patch.id in db.products
    ensures var (db', r) := UpdateProduct(db, Some(s), Some(patch));
      var old_ := db.products[patch.id];
      && r.Ok? && r.value.0 == patch.id
      && var p := r.value.1;
      && (patch.name.Some? ==> p.name == patch.name.value) && (patch.name.None? ==> p.name == old_.name)
      && (patch.description.Some? ==> p.description == patch.description.value)
      && (patch.description.None? ==> p.description == old_.description)
      && (patch.price.Some? ==> p.price == patch.price.value) && (patch.price.None? ==> p.price == old_.price)
      && (patch.image.Some? ==> p.image == patch.image.value) && (patch.image.None? ==> p.image == old_.image)
      && (patch.categoryId.Some? ==> p.categoryId == patch.categoryId.value)
      && (patch.categoryId.None? ==> p.categoryId == old_.categoryId)
      && (patch.brandId.Some? ==> p.brandId == patch.brandId.value) && (patch.brandId.None? ==> p.brandId == old_.brandId)
      && (patch.stock.Some? ==> p.stock == patch.stock.value) && (patch.stock.None? ==> p.stock == old_.stock)
      && (patch.carBrand.Some? ==> p.carBrand == patch.carBrand.value)
      && (patch.carBrand.None? ==> p.carBrand == old_.carBrand)
      && (patch.carModel.Some? ==> p.carModel == patch.carModel.value)
      && (patch.carModel.None? ==> p.carModel == old_.carModel)
      && p.partNumber == old_.partNumber && p.createdAt == old_.createdAt
      && db' == db.(products := db.products[patch.id := p])
  {
  }

  /** `update` and `delete` of a product that does not exist fail and write nothing; `delete`
      otherwise removes exactly that row. */
  lemma MissingProduct(db: Db, s: Session, patch: ProductPatch, id: Id)
    ensures patch.id !in db.products ==> UpdateProduct(db, Some(s), Some(patch)) == (db, Err(RecordNotFound))
    ensures id !in db.products ==> DeleteProduct(db, Some(s), Some(id)) == (db, Err(RecordNotFound))
    ensures id in db.products ==>
      DeleteProduct(db, Some(s), Some(id)) == (db.(products := db.products - {id}), Ok(db.products[id]))
  {
  }

  /** The three writes ask only for a session, then for an input that passes the schema; each
      refusal writes nothing. */
  lemma ProductWriteRefusals(db: Db, session: Option<Session>, input: Option<NewProduct>,
                             patch: Option<ProductPatch>, id: Option<Id>, now: int)
    ensures session.None? ==>
      && CreateProduct(db, session, input, now) == (db, Err(Unauthenticated))
      && UpdateProduct(db, session, patch) == (db, Err(Unauthenticated))
      && DeleteProduct(db, session, id) == (db, Err(Unauthenticated))
    ensures session.Some? ==>
      && (input.None? <==> CreateProduct(db, session, input, now) == (db, Err(BadRequest)))
      && (patch.None? <==> UpdateProduct(db, session, patch) == (db, Err(BadRequest)))
      && (id.None? <==> DeleteProduct(db, session, id) == (db, Err(BadRequest)))
    ensures CreateProduct(db, session, input, now).1.Ok? <==> session.Some? && input.Some?
  {
  }
}
