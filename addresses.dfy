/** The address endpoints of the REST API: GET, POST, PUT and DELETE on /api/addresses.

    A user keeps any number of delivery addresses, at most one of them marked as the default.
    Creating or editing an address with `isDefault` set first clears the flag on the user's
    other addresses. */
module AddressesRoute {
  import opened Wrappers
  import opened Tables
  import opened Store

  /** The decoded body of POST and PUT: a field the schema checks is `None` when absent or of
      the wrong JSON type. `id` is only read by PUT and reaches the database unchecked, so a
      wrong-typed `id` is kept apart as `WrongType`. */
  datatype AddressBody = AddressBody(
    id: Field<Id>, street: Option<string>, city: Option<string>,
    postalCode: Option<string>, isDefault: Option<bool>)

  /** The fields `addressSchema` accepts. */
  datatype AddressFields = AddressFields(street: string, city: string, postalCode: string, isDefault: bool)

  /** The region and country every created address gets. */
  const DefaultState: string := "Москва"
  const DefaultCountry: string := "Россия"

  /** `addressSchema.parse`: three non-empty strings and a boolean. */
  function ParseAddress(body: AddressBody): (r: Option<AddressFields>)
    ensures r.Some? <==>
      && body.street.Some? && body.street.value != ""
      && body.city.Some? && body.city.value != ""
      && body.postalCode.Some? && body.postalCode.value != ""
      && body.isDefault.Some?
    ensures r.Some? ==>
      r.value == AddressFields(body.street.value, body.city.value, body.postalCode.value, body.isDefault.value)
  {
    if && body.street.Some? && |body.street.value| >= 1
       && body.city.Some? && |body.city.value| >= 1
       && body.postalCode.Some? && |body.postalCode.value| >= 1
       && body.isDefault.Some?
    then Some(AddressFields(body.street.value, body.city.value, body.postalCode.value, body.isDefault.value))
    else None
  }

  /** `address.updateMany({ where: { userId, isDefault: true, id: { not: except } }, data:
      { isDefault: false } })`; `except` is `None` when no row is spared. */
  function ClearDefaults(m: map<Id, Address>, user: Id, except: Option<Id>): map<Id, Address> {
    map k | k in m :: if m[k].userId == user && m[k].isDefault && Some(k) != except then m[k].(isDefault := false) else m[k]
  }

  /** `address.findFirst({ where: { id, userId } })` for a given id. */
  predicate Owns(db: Db, user: Id, id: Id) {
    id in db.addresses && db.addresses[id].userId == user
  }

  // ---------------------------------------------------------------- specifications

  /** GET: every address of every user, in key order. No session is asked for. */
  function ListAddresses(db: Db): Response<seq<(Id, Address)>> {
    Json(Rows(db.addresses, 0, db.nextId))
  }

  /** POST: add an address for the caller; a default one first clears the caller's other
      defaults. */
  function CreateAddress(db: Db, session: Option<Session>, body: AddressBody): (Db, Response<(Id, Address)>) {
    if session.None? then (db, Unauthorized())
    else
      match ParseAddress(body)
      case None => (db, InvalidRequestData())
      case Some(f) =>
        var user := session.value.userId;
        var cleared := if f.isDefault then ClearDefaults(db.addresses, user, None) else db.addresses;
        var address := Address(user, f.street, f.city, DefaultState, f.postalCode, DefaultCountry, f.isDefault);
        (db.(addresses := cleared[db.nextId := address], nextId := db.nextId + 1), Json((db.nextId, address)))
  }

  /** PUT: edit street, city, postal code and default flag of one of the caller's addresses.
      A body without `id` names no address and is refused with 404 before anything is
      written (see `UpdateAddressAsWritten` for what the handler does instead). An `id` of
      another JSON type fails the database's own validation on the first lookup, which
      answers 500 before anything is written. */
  function UpdateAddress(db: Db, session: Option<Session>, body: AddressBody): (Db, Response<(Id, Address)>) {
    if session.None? then (db, Unauthorized())
    else
      match ParseAddress(body)
      case None => (db, InvalidRequestData())
      case Some(f) =>
        var user := session.value.userId;
        if body.id.WrongType? then (db, InternalError())
        else if body.id.Absent? || !Owns(db, user, body.id.value) then (db, Failure(404, "Address not found"))
        else
          var id := body.id.value;
          var (db', address) := Rewrite(db, user, id, f);
          (db', Json((id, address)))
  }

  /** The writes of a PUT on address `id`: clear the user's other defaults when the new row is
      the default, then overwrite the four editable fields. */
  function Rewrite(db: Db, user: Id, id: Id, f: AddressFields): (Db, Address)
    requires id in db.addresses
  {
    var cleared := if f.isDefault then ClearDefaults(db.addresses, user, Some(id)) else db.addresses;
    var address := cleared[id].(street := f.street, city := f.city, postalCode := f.postalCode, isDefault := f.isDefault);
    (db.(addresses := cleared[id := address]), address)
  }

  /** DELETE ?id=: remove one of the caller's addresses. An absent or empty `id` is `None`. */
  function DeleteAddress(db: Db, session: Option<Session>, id: Option<Id>): (Db, Response<()>) {
    if session.None? then (db, Unauthorized())
    else if id.None? then (db, Failure(400, "Address ID is required"))
    else if !Owns(db, session.value.userId, id.value) then (db, Failure(404, "Address not found"))
    else (db.(addresses := db.addresses - {id.value}), NoContent)
  }

  // ---------------------------------------------------------------- the handler's PUT without `id`

  /** PUT as the handler runs it. With `id` absent, the lookup `findFirst({ where: { id:
      undefined, userId } })` drops the id filter and finds the caller's first address; the
      `id: { not: undefined }` filter is dropped too, so every default of the caller is
      cleared; then `update({ where: { id: undefined } })` throws, which answers 500 after
      the defaults were already cleared. With `id` present it is `UpdateAddress`. */
  function UpdateAddressAsWritten(db: Db, session: Option<Session>, body: AddressBody): (Db, Response<(Id, Address)>) {
    if session.None? || ParseAddress(body).None? || !body.id.Absent? then UpdateAddress(db, session, body)
    else
      var user := session.value.userId;
      var f := ParseAddress(body).value;
      match FirstKey(db.addresses, (a: Address) => a.userId == user, 0, db.nextId)
      case None => (db, Failure(404, "Address not found"))
      case Some(_) =>
        var cleared := if f.isDefault then ClearDefaults(db.addresses, user, None) else db.addresses;
        (db.(addresses := cleared), InternalError())
  }

  // ---------------------------------------------------------------- handlers

  method Get(db: Database) returns (resp: Response<seq<(Id, Address)>>)
    ensures resp == ListAddresses(db.Snapshot())
  {
    return Json(Rows(db.addresses, 0, db.nextId));
  }

  method Post(db: Database, session: Option<Session>, body: AddressBody) returns (resp: Response<(Id, Address)>)
    requires db.Valid()
    modifies db
    ensures db.Valid()
    ensures (db.Snapshot(), resp) == CreateAddress(old(db.Snapshot()), session, body)
  {
    CreateAddressKeepsConsistent(db.Snapshot(), session, body);
    if session.None? {
      return Unauthorized();
    }
    var fields := ParseAddress(body);
    if fields.None? {
      return InvalidRequestData();
    }
    var f, user := fields.value, session.value.userId;
    if f.isDefault {
      db.addresses := ClearDefaults(db.addresses, user, None);
    }
    var address := Address(user, f.street, f.city, DefaultState, f.postalCode, DefaultCountry, f.isDefault);
    var id := db.nextId;
    db.addresses := db.addresses[id := address];
    db.nextId := id + 1;
    return Json((id, address));
  }

  method Put(db: Database, session: Option<Session>, body: AddressBody) returns (resp: Response<(Id, Address)>)
    requires db.Valid()
    modifies db
    ensures db.Valid()
    ensures (db.Snapshot(), resp) == UpdateAddress(old(db.Snapshot()), session, body)
  {
    UpdateAddressKeepsConsistent(db.Snapshot(), session, body);
    if session.None? {
      return Unauthorized();
    }
    var fields := ParseAddress(body);
    if fields.None? {
      return InvalidRequestData();
    }
    var f, user := fields.value, session.value.userId;
    if body.id.WrongType? {
      return InternalError();
    }
    if body.id.Absent? || body.id.value !in db.addresses || db.addresses[body.id.value].userId != user {
      return Failure(404, "Address not found");
    }
    var id := body.id.value;
    if f.isDefault {
      db.addresses := ClearDefaults(db.addresses, user, Some(id));
    }
    var address := db.addresses[id].(street := f.street, city := f.city, postalCode := f.postalCode, isDefault := f.isDefault);
    db.addresses := db.addresses[id := address];
    return Json((id, address));
  }

  method Delete(db: Database, session: Option<Session>, id: Option<Id>) returns (resp: Response<()>)
    requires db.Valid()
    modifies db
    ensures db.Valid()
    ensures (db.Snapshot(), resp) == DeleteAddress(old(db.Snapshot()), session, id)
  {
    DeleteAddressKeepsConsistent(db.Snapshot(), session, id);
    if session.None? {
      return Unauthorized();
    }
    if id.None? {
      return Failure(400, "Address ID is required");
    }
    if id.value !in db.addresses || db.addresses[id.value].userId != session.value.userId {
      return Failure(404, "Address not found");
    }
    db.addresses := db.addresses - {id.value};
    return NoContent;
  }

  // ---------------------------------------------------------------- invariant

  /** After clearing, the only default of `user` that can remain is `except`. */
  lemma ClearDefaultsLeavesAtMost(m: map<Id, Address>, user: Id, except: Option<Id>)
    requires OneDefaultPerUser(m)
    ensures var m' := ClearDefaults(m, user, except);
      && m'.Keys == m.Keys
      && OneDefaultPerUser(m')
      && (forall k :: k in m' && m'[k].userId == user && m'[k].isDefault ==> Some(k) == except)
      && (forall k :: k in m' ==> m'[k].userId == m[k].userId)
  {
  }

  lemma CreateAddressKeepsConsistent(db: Db, session: Option<Session>, body: AddressBody)
    requires Consistent(db)
    ensures Consistent(CreateAddress(db, session, body).0)
  {
    if session.Some? && ParseAddress(body).Some? {
      var f, user := ParseAddress(body).value, session.value.userId;
      var cleared := if f.isDefault then ClearDefaults(db.addresses, user, None) else db.addresses;
      ClearDefaultsLeavesAtMost(db.addresses, user, None);
      var address := Address(user, f.street, f.city, DefaultState, f.postalCode, DefaultCountry, f.isDefault);
      assert CreateAddress(db, session, body).0 == db.(addresses := cleared[db.nextId := address], nextId := db.nextId + 1);
      AddAddressKeepsConsistent(db, cleared, address);
    }
  }

  /** Adding a row under the next id keeps the invariant when a default row is the owner's
      only default. */
  lemma AddAddressKeepsConsistent(db: Db, cleared: map<Id, Address>, address: Address)
    requires Consistent(db)
    requires cleared.Keys == db.addresses.Keys && OneDefaultPerUser(cleared)
    requires address.isDefault ==> forall k :: k in cleared && cleared[k].userId == address.userId ==> !cleared[k].isDefault
    ensures Consistent(db.(addresses := cleared[db.nextId := address], nextId := db.nextId + 1))
  {
    var n := db.nextId;
    var m' := cleared[n := address];
    assert OneDefaultPerUser(m') by {
      forall a, b | a in m' && b in m' && m'[a].userId == m'[b].userId && m'[a].isDefault && m'[b].isDefault
        ensures a == b
      {
        if a != n && b != n {
          assert m'[a] == cleared[a] && m'[b] == cleared[b];
        }
      }
    }
    assert KeysBelow(m', n + 1);
  }

  lemma UpdateAddressKeepsConsistent(db: Db, session: Option<Session>, body: AddressBody)
    requires Consistent(db)
    ensures Consistent(UpdateAddress(db, session, body).0)
  {
    if session.Some? && ParseAddress(body).Some? && body.id.Present? && Owns(db, session.value.userId, body.id.value) {
      RewriteKeepsConsistent(db, session.value.userId, body.id.value, ParseAddress(body).value);
    }
  }

  lemma RewriteKeepsConsistent(db: Db, user: Id, id: Id, f: AddressFields)
    requires Consistent(db) && Owns(db, user, id)
    ensures Consistent(Rewrite(db, user, id, f).0)
  {
    var cleared := if f.isDefault then ClearDefaults(db.addresses, user, Some(id)) else db.addresses;
    ClearDefaultsLeavesAtMost(db.addresses, user, Some(id));
    var m' := Rewrite(db, user, id, f).0.addresses;
    assert m' == cleared[id := m'[id]];
    assert OneDefaultPerUser(m') by {
      forall a, b | a in m' && b in m' && m'[a].userId == m'[b].userId && m'[a].isDefault && m'[b].isDefault
        ensures a == b
      {
        if a != id && b != id {
          assert m'[a] == cleared[a] && m'[b] == cleared[b];
        }
      }
    }
  }

  lemma DeleteAddressKeepsConsistent(db: Db, session: Option<Session>, id: Option<Id>)
    requires Consistent(db)
    ensures Consistent(DeleteAddress(db, session, id).0)
  {
  }
}

/** What the address endpoints promise, stated over the specifications. */
module AddressesProperties {
  import opened Wrappers
  import opened Tables
  import opened Store
  import opened AddressesRoute

  /** `db'` holds the same addresses of users other than `user` as `db`. */
  ghost predicate OthersUntouched(db: Db, db': Db, user: Id) {
    forall k :: k in db.addresses && db.addresses[k].userId != user ==>
      k in db'.addresses && db'.addresses[k] == db.addresses[k]
  }

  /** A successful POST stores the fields given, in the fixed region and country, under a
      fresh id; a default address is then the caller's only default, and a non-default one
      leaves every other address as it was. */
  lemma CreateAddressResult(db: Db, s: Session, body: AddressBody)
    requires Consistent(db)
    requires ParseAddress(body).Some?
    ensures var (db', r) := CreateAddress(db, Some(s), body);
      var f := ParseAddress(body).value;
      && r.Json?
      && r.value.0 == db.nextId && r.value.0 !in db.addresses
      && r.value.1 == Address(s.userId, f.street, f.city, "Москва", f.postalCode, "Россия", f.isDefault)
      && db'.addresses.Keys == db.addresses.Keys + {r.value.0}
      && db'.addresses[r.value.0] == r.value.1
      && (f.isDefault ==>
            forall k :: k in db'.addresses && db'.addresses[k].userId == s.userId && db'.addresses[k].isDefault ==>
              k == r.value.0)
      && (!f.isDefault ==> db'.addresses == db.addresses[r.value.0 := r.value.1])
      && OthersUntouched(db, db', s.userId)
      && (forall k :: k in db.addresses ==>
            k in db'.addresses &&
            db'.addresses[k] == (if db.addresses[k].userId == s.userId && f.isDefault then db.addresses[k].(isDefault := false) else db.addresses[k]))
  {
    ClearDefaultsLeavesAtMost(db.addresses, s.userId, None);
  }

  /** Clearing defaults keeps every row and every field but the flag; a row keeps its flag
      set exactly when it had it and is not one of `user`'s rows other than `except`. */
  lemma ClearDefaultsOnlyFlags(m: map<Id, Address>, user: Id, except: Option<Id>)
    ensures var m' := ClearDefaults(m, user, except);
      && m'.Keys == m.Keys
      && (forall k :: k in m ==> m'[k].(isDefault := m[k].isDefault) == m[k])
      && (forall k :: k in m ==> (m'[k].isDefault <==> m[k].isDefault && (m[k].userId != user || Some(k) == except)))
  {
  }

  /** A successful PUT rewrites the four editable fields of the caller's own address `id`,
      keeps its owner, region and country, makes it the caller's only default when asked,
      and changes no address of any other user. */
  lemma UpdateAddressResult(db: Db, s: Session, body: AddressBody)
    requires Consistent(db)
    requires UpdateAddress(db, Some(s), body).1.Json?
    ensures var (db', r) := UpdateAddress(db, Some(s), body);
      var f := ParseAddress(body).value;
      var (id, address) := r.value;
      && body.id == Present(id)
      && Owns(db, s.userId, id)
      && address == db.addresses[id].(street := f.street, city := f.city, postalCode := f.postalCode, isDefault := f.isDefault)
      && db'.addresses.Keys == db.addresses.Keys
      && db'.addresses[id] == address
      && (f.isDefault ==>
            forall k :: k in db'.addresses && db'.addresses[k].userId == s.userId && db'.addresses[k].isDefault ==> k == id)
      && (!f.isDefault ==> db'.addresses == db.addresses[id := address])
      && OthersUntouched(db, db', s.userId)
      && (forall k :: k in db.addresses && k != id ==>
            k in db'.addresses &&
            db'.addresses[k] == (if db.addresses[k].userId == s.userId && f.isDefault then db.addresses[k].(isDefault := false) else db.addresses[k]))
      && db' == db.(addresses := db'.addresses)
  {
    var f, id := ParseAddress(body).value, body.id.value;
    ClearDefaultsLeavesAtMost(db.addresses, s.userId, Some(id));
    ClearDefaultsOnlyFlags(db.addresses, s.userId, Some(id));
  }

  /** PUT and DELETE refuse an address that is not the caller's with 404 and change nothing. */
  lemma ForeignAddressRefused(db: Db, s: Session, body: AddressBody, id: Id)
    requires !Owns(db, s.userId, id)
    ensures ParseAddress(body).Some? && body.id == Present(id) ==>
      UpdateAddress(db, Some(s), body) == (db, Failure(404, "Address not found"))
    ensures DeleteAddress(db, Some(s), Some(id)) == (db, Failure(404, "Address not found"))
  {
  }

  /** Every refused POST, PUT or DELETE leaves the database unchanged. */
  lemma AddressFailuresChangeNothing(db: Db, session: Option<Session>, body: AddressBody, id: Option<Id>)
    ensures CreateAddress(db, session, body).1.Failure? ==> CreateAddress(db, session, body).0 == db
    ensures UpdateAddress(db, session, body).1.Failure? ==> UpdateAddress(db, session, body).0 == db
    ensures DeleteAddress(db, session, id).1.Failure? ==> DeleteAddress(db, session, id).0 == db
  {
  }

  /** The refusals of POST and PUT, in the order the handlers check them; a PUT whose `id`
      is of the wrong type fails the first lookup with 500, and one without `id` is refused
      with 404, both before anything is written. */
  lemma AddressRefusals(db: Db, session: Option<Session>, body: AddressBody)
    ensures session.None? ==>
      CreateAddress(db, session, body).1 == Failure(401, "Unauthorized") &&
      UpdateAddress(db, session, body).1 == Failure(401, "Unauthorized")
    ensures session.Some? && ParseAddress(body).None? ==>
      CreateAddress(db, session, body).1 == Failure(400, "Invalid request data") &&
      UpdateAddress(db, session, body).1 == Failure(400, "Invalid request data")
    ensures session.Some? && ParseAddress(body).Some? && body.id.WrongType? ==>
      UpdateAddress(db, session, body) == (db, Failure(500, "Internal error"))
    ensures session.Some? && ParseAddress(body).Some? && body.id.Absent? ==>
      UpdateAddress(db, session, body) == (db, Failure(404, "Address not found"))
  {
  }

  /** DELETE succeeds exactly on an address of the caller, and removes that row only. */
  lemma DeleteAddressOutcome(db: Db, s: Session, id: Option<Id>)
    ensures var (db', r) := DeleteAddress(db, Some(s), id);
      && (id.None? ==> r == Failure(400, "Address ID is required"))
      && (r == NoContent <==> id.Some? && Owns(db, s.userId, id.value))
      && (r == NoContent ==> db' == db.(addresses := db.addresses - {id.value}))
  {
  }

  /** GET returns every stored address, whoever owns it. */
  lemma ListAddressesIsEveryRow(db: Db)
    requires Consistent(db)
    ensures forall k, a :: (k, a) in ListAddresses(db).value <==> k in db.addresses && db.addresses[k] == a
  {
    RowsOfTable(db.addresses, db.nextId);
  }

  // ---------------------------------------------------------------- the handler's PUT without `id`

  /** With an id, the handler's PUT is the modelled one. */
  lemma AsWrittenAgreesWithId(db: Db, session: Option<Session>, body: AddressBody)
    requires !body.id.Absent?
    ensures UpdateAddressAsWritten(db, session, body) == UpdateAddress(db, session, body)
  {
  }

  /** A user 1 with one default address 0. */
  function DefaultOnlyDb(): Db {
    Db(map[], map[], map[], map[], map[0 := Address(1, "Lenina 1", "Tver", "Москва", "170000", "Россия", true)],
       map[], map[], map[], 1)
  }

  /** The handler's PUT without `id` and with `isDefault: true` answers 500 yet has already
      taken the default flag off the caller's address; the corrected PUT answers 404 and
      writes nothing. */
  lemma PutWithoutIdClearsDefault()
    ensures var body := AddressBody(Absent, Some("Mira 2"), Some("Tver"), Some("170001"), Some(true));
      var (db', r) := UpdateAddressAsWritten(DefaultOnlyDb(), Some(Session(1, None, None)), body);
      && r == Failure(500, "Internal error")
      && 0 in db'.addresses && !db'.addresses[0].isDefault
      && UpdateAddress(DefaultOnlyDb(), Some(Session(1, None, None)), body) == (DefaultOnlyDb(), Failure(404, "Address not found"))
  {
    var db := DefaultOnlyDb();
    assert FirstKey(db.addresses, (a: Address) => a.userId == 1, 0, 1) == Some(0);
  }
}
