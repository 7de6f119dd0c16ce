/** The `user` procedures of the remote-procedure API that hold rules: e-mail verification and
    the administrator's user management.

    E-mail verification is a small state machine over one user row: `sendVerificationEmail`
    stores a six-digit code and its expiry, `verifyEmail` accepts that code once, before it
    expires, and then forgets it. */
module UserRouter {
  import opened Wrappers
  import opened Tables
  import opened Text
  import opened Store

  /** The untyped input of `verifyEmail`: a string, an array, or anything else. */
  datatype JsonValue = JString(s: string) | JArray(elements: seq<JsonValue>) | JOther

  /** The input of `updateRole`, `None` when `userId` is not a string. */
  datatype RoleInput = RoleInput(userId: Id, role: string)

  /** A row of `getAll`: id, name, e-mail and role. */
  datatype UserSummary = UserSummary(id: Id, name: Option<string>, email: Option<string>, role: string)

  /** Where a user stands in the verification protocol: no usable code, or a code awaiting
      confirmation until `expires`. */
  datatype Verification = NoCode | Awaiting(code: string, expires: int)

  /** How long a code stays valid: 30 minutes, in milliseconds. */
  const CodeLifetime: int := 30 * 60 * 1000

  /** The roles `updateRole` accepts. */
  const Roles: set<string> := {"user", "manager", "admin"}

  /** The state a user row is in. A code that is absent or empty, or a missing expiry, counts
      as no code. */
  function StateOf(u: User): Verification {
    if u.verificationCode.None? || u.verificationCode.value == "" || u.verificationCodeExpires.None? then NoCode
    else Awaiting(u.verificationCode.value, u.verificationCodeExpires.value)
  }

  /** `Array.isArray(input) ? input[0] : input`; the first element of an empty array is
      `undefined`, which is no string. */
  function CodeOf(input: JsonValue): (code: JsonValue)
    ensures input.JArray? && |input.elements| > 0 ==> code == input.elements[0]
    ensures !input.JArray? ==> code == input
  {
    match input
    case JArray(elements) => if |elements| > 0 then elements[0] else JOther
    case _ => input
  }

  /** `Math.floor(100000 + Math.random() * 900000)` for the random draw `r`. */
  function CodeNumber(r: real): (n: int)
    requires 0.0 <= r < 1.0
    ensures 100000 <= n <= 999999
  {
    (100000.0 + r * 900000.0).Floor
  }

  /** The exact-match administrator test of `getAll`, `updateRole` and `delete`. */
  predicate Admin(s: Session) {
    s.role == Some("admin")
  }

  // ---------------------------------------------------------------- specifications

  /** `sendVerificationEmail`: store a fresh code for the caller, valid for 30 minutes from
      `now`. `r` is the random draw in [0, 1). Sending the e-mail is not modelled. */
  function SendCode(db: Db, session: Option<Session>, r: real, now: int): (Db, Outcome<()>)
    requires 0.0 <= r < 1.0
  {
    if session.None? then (db, Err(Unauthenticated))
    else if session.value.userId !in db.users then (db, Err(Thrown("User not found")))
    else
      var id := session.value.userId;
      var user := db.users[id].(verificationCode := Some(Decimal(CodeNumber(r))),
                                verificationCodeExpires := Some(now + CodeLifetime));
      (db.(users := db.users[id := user]), Ok(()))
  }

  /** `verifyEmail` at time `now`: the checks come in a fixed order, and on success the code
      is consumed and the address marked verified. */
  function Verify(db: Db, session: Option<Session>, input: JsonValue, now: int): (Db, Outcome<()>) {
    if session.None? then (db, Err(Unauthenticated))
    else if session.value.userId !in db.users then (db, Err(Thrown("User not found")))
    else
      var id := session.value.userId;
      var u := db.users[id];
      match StateOf(u)
      case NoCode => (db, Err(Thrown("No code sent")))
      case Awaiting(code, expires) =>
        if CodeOf(input) != JString(code) then (db, Err(Thrown("Неверный код")))
        else if now > expires then (db, Err(Thrown("Код истёк")))
        else
          var user := u.(emailVerified := Some(now), verificationCode := None, verificationCodeExpires := None);
          (db.(users := db.users[id := user]), Ok(()))
  }

  /** `getAll`: every user's summary, for an administrator only. */
  function AllUsers(db: Db, session: Option<Session>): Outcome<seq<UserSummary>> {
    if session.None? then Err(Unauthenticated)
    else if !Admin(session.value) then Err(Thrown("Unauthorized"))
    else
      var rows := Rows(db.users, 0, db.nextId);
      Ok(seq(|rows|, i requires 0 <= i < |rows| =>
        UserSummary(rows[i].0, rows[i].1.name, rows[i].1.email, rows[i].1.role)))
  }

  /** `updateRole`: an administrator sets another user's role to one of the three roles. */
  function SetRole(db: Db, session: Option<Session>, input: Option<RoleInput>): (Db, Outcome<User>) {
    if session.None? then (db, Err(Unauthenticated))
    else if input.None? || input.value.role !in Roles then (db, Err(BadRequest))
    else if !Admin(session.value) then (db, Err(Thrown("Unauthorized")))
    else if input.value.userId !in db.users then (db, Err(RecordNotFound))
    else
      var user := db.users[input.value.userId].(role := input.value.role);
      (db.(users := db.users[input.value.userId := user]), Ok(user))
  }

  /** `delete`: an administrator removes a user row. `input` is `None` when it is not a
      string. */
  function DeleteUser(db: Db, session: Option<Session>, input: Option<Id>): (Db, Outcome<User>) {
    if session.None? then (db, Err(Unauthenticated))
    else if input.None? then (db, Err(BadRequest))
    else if !Admin(session.value) then (db, Err(Thrown("Unauthorized")))
    else if input.value !in db.users then (db, Err(RecordNotFound))
    else (db.(users := db.users - {input.value}), Ok(db.users[input.value]))
  }

  // ---------------------------------------------------------------- procedures

  method SendVerificationEmail(db: Database, session: Option<Session>, r: real, now: int) returns (result: Outcome<()>)
    requires 0.0 <= r < 1.0
    requires db.Valid()
    modifies db
    ensures db.Valid()
    ensures (db.Snapshot(), result) == SendCode(old(db.Snapshot()), session, r, now)
  {
    if session.None? {
      return Err(Unauthenticated);
    }
    var id := session.value.userId;
    if id !in db.users {
      return Err(Thrown("User not found"));
    }
    var code := Decimal(CodeNumber(r));
    db.users := db.users[id := db.users[id].(verificationCode := Some(code), verificationCodeExpires := Some(now + CodeLifetime))];
    return Ok(());
  }

  method VerifyEmail(db: Database, session: Option<Session>, input: JsonValue, now: int) returns (result: Outcome<()>)
    requires db.Valid()
    modifies db
    ensures db.Valid()
    ensures (db.Snapshot(), result) == Verify(old(db.Snapshot()), session, input, now)
  {
    var code := CodeOf(input);
    if session.None? {
      return Err(Unauthenticated);
    }
    var id := session.value.userId;
    if id !in db.users {
      return Err(Thrown("User not found"));
    }
    var u := db.users[id];
    if u.verificationCode.None? || u.verificationCode.value == "" || u.verificationCodeExpires.None? {
      return Err(Thrown("No code sent"));
    }
    if code != JString(u.verificationCode.value) {
      return Err(Thrown("Неверный код"));
    }
    if now > u.verificationCodeExpires.value {
      return Err(Thrown("Код истёк"));
    }
    db.users := db.users[id := u.(emailVerified := Some(now), verificationCode := None, verificationCodeExpires := None)];
    return Ok(());
  }

  method UpdateRole(db: Database, session: Option<Session>, input: Option<RoleInput>) returns (result: Outcome<User>)
    requires db.Valid()
    modifies db
    ensures db.Valid()
    ensures (db.Snapshot(), result) == SetRole(old(db.Snapshot()), session, input)
  {
    if session.None? {
      return Err(Unauthenticated);
    }
    if input.None? || input.value.role !in Roles {
      return Err(BadRequest);
    }
    if !Admin(session.value) {
      return Err(Thrown("Unauthorized"));
    }
    var id := input.value.userId;
    if id !in db.users {
      return Err(RecordNotFound);
    }
    var user := db.users[id].(role := input.value.role);
    db.users := db.users[id := user];
    return Ok(user);
  }

  method Delete(db: Database, session: Option<Session>, input: Option<Id>) returns (result: Outcome<User>)
    requires db.Valid()
    modifies db
    ensures db.Valid()
    ensures (db.Snapshot(), result) == DeleteUser(old(db.Snapshot()), session, input)
  {
    if session.None? {
      return Err(Unauthenticated);
    }
    if input.None? {
      return Err(BadRequest);
    }
    if !Admin(session.value) {
      return Err(Thrown("Unauthorized"));
    }
    var id := input.value;
    if id !in db.users {
      return Err(RecordNotFound);
    }
    var user := db.users[id];
    db.users := db.users - {id};
    return Ok(user);
  }
}

/** What the `user` procedures promise, stated over the specifications. */
module UserRouterProperties {
  import opened Wrappers
  import opened Tables
  import opened Text
  import opened Store
  import opened UserRouter

  /** Sending a code puts the caller in the awaiting state with a six-digit code between
      100000 and 999999 that expires 30 minutes from now; nothing else changes. */
  lemma SendCodeAwaits(db: Db, s: Session, r: real, now: int)
    requires 0.0 <= r < 1.0
    requires s.userId in db.users
    ensures var (db', out) := SendCode(db, Some(s), r, now);
      && out == Ok(())
      && db'.users.Keys == db.users.Keys
      && StateOf(db'.users[s.userId]) == Awaiting(Decimal(CodeNumber(r)), now + 1800000)
      && |Decimal(CodeNumber(r))| == 6
      && 100000 <= DigitsValue(Decimal(CodeNumber(r))) <= 999999
      && db'.users[s.userId].emailVerified == db.users[s.userId].emailVerified
      && db' == db.(users := db'.users)
      && (forall k :: k in db.users && k != s.userId ==> db'.users[k] == db.users[k])
  {
    var n := CodeNumber(r);
    SixDigits(n);
    DecimalRoundTrip(n);
  }

  /** Sending a code to a user that does not exist fails and writes nothing. */
  lemma SendCodeUnknownUser(db: Db, s: Session, r: real, now: int)
    requires 0.0 <= r < 1.0
    requires s.userId !in db.users
    ensures SendCode(db, Some(s), r, now) == (db, Err(Thrown("User not found")))
  {
  }

  /** `verifyEmail` succeeds exactly when a code is awaiting, the input names it and it has
      not expired; every failure writes nothing. */
  lemma VerifySucceedsExactly(db: Db, s: Session, input: JsonValue, now: int)
    ensures var (db', out) := Verify(db, Some(s), input, now);
      && (out.Ok? <==>
            && s.userId in db.users
            && StateOf(db.users[s.userId]).Awaiting?
            && CodeOf(input) == JString(StateOf(db.users[s.userId]).code)
            && now <= StateOf(db.users[s.userId]).expires)
      && (out.Err? ==> db' == db)
  {
  }

  /** The failures of `verifyEmail`, in the order it checks them: the user, a stored code,
      the code's value, then its expiry. A wrong code is reported even when it has also
      expired. */
  lemma VerifyRefusals(db: Db, s: Session, input: JsonValue, now: int)
    requires s.userId in db.users
    ensures var u := db.users[s.userId];
      var out := Verify(db, Some(s), input, now).1;
      && (StateOf(u) == NoCode ==> out == Err(Thrown("No code sent")))
      && (StateOf(u).Awaiting? && CodeOf(input) != JString(StateOf(u).code) ==> out == Err(Thrown("Неверный код")))
      && (StateOf(u).Awaiting? && CodeOf(input) == JString(StateOf(u).code) && now > StateOf(u).expires ==>
            out == Err(Thrown("Код истёк")))
  {
  }

  /** A successful verification records `now` as the verification time and consumes the code:
      the user leaves the awaiting state, and only the three verification fields change. */
  lemma VerifyConsumesCode(db: Db, s: Session, input: JsonValue, now: int)
    requires Verify(db, Some(s), input, now).1.Ok?
    ensures var db' := Verify(db, Some(s), input, now).0;
      && db'.users.Keys == db.users.Keys
      && db'.users[s.userId] == db.users[s.userId].(
           emailVerified := Some(now), verificationCode := None, verificationCodeExpires := None)
      && StateOf(db'.users[s.userId]) == NoCode
      && db' == db.(users := db'.users)
  {
  }

  /** The same code cannot be used twice: the second attempt finds no code. */
  lemma VerifyTwice(db: Db, s: Session, input: JsonValue, now: int, later: int)
    requires Verify(db, Some(s), input, now).1.Ok?
    ensures Verify(Verify(db, Some(s), input, now).0, Some(s), input, later).1 == Err(Thrown("No code sent"))
  {
  }

  /** A code sent at `sent` and entered by `sent + 30 minutes` verifies the address; entered
      later, it has expired. */
  lemma SendThenVerify(db: Db, s: Session, r: real, sent: int, now: int)
    requires 0.0 <= r < 1.0
    requires s.userId in db.users
    ensures var db1 := SendCode(db, Some(s), r, sent).0;
      var out := Verify(db1, Some(s), JString(Decimal(CodeNumber(r))), now).1;
      && (now <= sent + CodeLifetime ==> out == Ok(()))
      && (now > sent + CodeLifetime ==> out == Err(Thrown("Код истёк")))
  {
  }

  /** An array input is judged by its first element only; the unwrapping happens once, so
      the first element must itself be no array. */
  lemma ArrayInputIsFirstElement(db: Db, s: Session, first: JsonValue, rest: seq<JsonValue>, now: int)
    requires !first.JArray?
    ensures Verify(db, Some(s), JArray([first] + rest), now) == Verify(db, Some(s), first, now)
  {
    assert CodeOf(JArray([first] + rest)) == first;
  }

  /** `getAll`, `updateRole` and `delete` serve only the role spelled exactly "admin". */
  lemma AdminGates(db: Db, s: Session, input: RoleInput, id: Id)
    requires input.role in Roles
    ensures AllUsers(db, Some(s)).Err? <==> !Admin(s)
    ensures !Admin(s) ==> AllUsers(db, Some(s)) == Err(Thrown("Unauthorized"))
    ensures !Admin(s) ==> SetRole(db, Some(s), Some(input)) == (db, Err(Thrown("Unauthorized")))
    ensures !Admin(s) ==> DeleteUser(db, Some(s), Some(id)) == (db, Err(Thrown("Unauthorized")))
    ensures !Admin(Session(s.userId, Some("ADMIN"), s.email))
  {
  }

  /** `updateRole` rejects a role outside user/manager/admin before the caller's role is even
      looked at, and otherwise changes only the named user's role. */
  lemma SetRoleOutcome(db: Db, s: Session, input: RoleInput)
    ensures input.role !in Roles ==> SetRole(db, Some(s), Some(input)) == (db, Err(BadRequest))
    ensures var (db', out) := SetRole(db, Some(s), Some(input));
      out.Ok? ==>
        && Admin(s) && input.userId in db.users
        && out.value == db.users[input.userId].(role := input.role)
        && out.value.role in Roles
        && db' == db.(users := db.users[input.userId := out.value])
  {
  }

  /** `delete` removes exactly the named user, returning the row it removed. */
  lemma DeleteUserOutcome(db: Db, s: Session, id: Id)
    requires Admin(s)
    ensures var (db', out) := DeleteUser(db, Some(s), Some(id));
      && (out.Ok? <==> id in db.users)
      && (out.Ok? ==> out.value == db.users[id] && db' == db.(users := db.users - {id}))
      && (out.Err? ==> out == Err(RecordNotFound) && db' == db)
  {
  }

  /** `getAll` summarises every user row once, in key order. */
  lemma AllUsersIsEveryRow(db: Db, s: Session)
    requires Consistent(db) && Admin(s)
    ensures AllUsers(db, Some(s)).Ok?
    ensures forall k :: k in db.users ==>
      UserSummary(k, db.users[k].name, db.users[k].email, db.users[k].role) in AllUsers(db, Some(s)).value
    ensures forall u :: u in AllUsers(db, Some(s)).value ==>
      u.id in db.users && u == UserSummary(u.id, db.users[u.id].name, db.users[u.id].email, db.users[u.id].role)
  {
    var rows := Rows(db.users, 0, db.nextId);
    var list := AllUsers(db, Some(s)).value;
    RowsOfTable(db.users, db.nextId);
    forall k | k in db.users
      ensures UserSummary(k, db.users[k].name, db.users[k].email, db.users[k].role) in list
    {
      assert (k, db.users[k]) in rows;
      var i :| 0 <= i < |rows| && rows[i] == (k, db.users[k]);
      assert list[i] == UserSummary(k, db.users[k].name, db.users[k].email, db.users[k].role);
    }
    forall u | u in list
      ensures u.id in db.users && u == UserSummary(u.id, db.users[u.id].name, db.users[u.id].email, db.users[u.id].role)
    {
      var i :| 0 <= i < |list| && list[i] == u;
      assert rows[i] in rows;
    }
  }
}
