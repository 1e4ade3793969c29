/**
 * The staff administration handlers (src/app/api/admin/staff/route.ts): the
 * ADMIN-only access check, the role change (PATCH) with its Attorney and
 * InternalStaff profile sync, and the staff creation (POST).
 *
 * A handler is a method that takes the session's user id (`None` without a
 * session), the parsed body (`None` when `request.json()` throws) and the
 * identifiers the database or the auth library would generate, updates the
 * `Store` and returns the HTTP status. Each method is proved against a status
 * function and a new-state function on `Db`, and the lemmas state what the
 * route promises about those functions.
 */
module StaffAdmin {
  import opened Text
  import opened JsonValue
  import opened Numbering
  import opened Entities

  /** `checkAdminAccess` of the staff route: the user exists and is an ADMIN. */
  predicate HasStaffAccess(users: map<UserId, User>, userId: UserId) {
    userId in users && users[userId].role == AdminRole
  }

  /** The `role` field when it is one of the four valid role names. */
  function RequestedRole(body: Json): Option<Role> {
    var role := Field(body, "role");
    if IsString(role) then ParseRole(Str(role)) else None
  }

  // ---------------------------------------------------------------- PATCH

  /** The status of the role change, in the order the route checks. */
  function PatchStatus(db: Db, session: Option<UserId>, body: Option<Json>): int {
    if session.None? then 401
    else if !HasStaffAccess(db.users, session.value) then 403
    else if body.None? then 400
    else if body.value == JNull then 500          // destructuring null throws
    else
      var userId := Field(body.value, "userId");
      if !Truthy(userId) || !Truthy(Field(body.value, "role")) then 400
      else if RequestedRole(body.value).None? then 400
      else if userId == Some(JString(session.value)) then 400
      else if !IsString(userId) then 500            // the database rejects a non-string id
      else if Str(userId) !in db.users then 404
      else 200
  }

  /** The store after the role is set: ATTORNEY keeps or creates an Attorney row and drops the InternalStaff row, INTERNAL_STAFF the reverse, CLIENT and ADMIN drop both. */
  function SyncRole(db: Db, userId: UserId, role: Role, newProfileId: ProfileId): Db
    requires userId in db.users
  {
    var users := db.users[userId := db.users[userId].(role := role)];
    match role
    case AttorneyRole =>
      db.(users := users,
          attorneys := if userId in db.attorneys then db.attorneys else db.attorneys[userId := newProfileId],
          internalStaff := db.internalStaff - {userId})
    case InternalStaffRole =>
      db.(users := users,
          internalStaff := if userId in db.internalStaff then db.internalStaff else db.internalStaff[userId := newProfileId],
          attorneys := db.attorneys - {userId})
    case _ =>
      db.(users := users, attorneys := db.attorneys - {userId}, internalStaff := db.internalStaff - {userId})
  }

  /** The store after the role change: unchanged unless the request succeeds. */
  function PatchDb(db: Db, session: Option<UserId>, body: Option<Json>, newProfileId: ProfileId): Db {
    if PatchStatus(db, session, body) != 200 then db
    else
      var userId := Str(Field(body.value, "userId"));
      SyncRole(db, userId, RequestedRole(body.value).value, newProfileId)
  }

  /** `PATCH /api/admin/staff`. `newProfileId` is the id the database gives a created profile row. */
  method PatchStaff(store: Store, session: Option<UserId>, body: Option<Json>, newProfileId: ProfileId)
    returns (status: int, oldRole: Option<Role>)
    modifies store
    ensures status == PatchStatus(old(store.Snapshot()), session, body)
    ensures store.Snapshot() == PatchDb(old(store.Snapshot()), session, body, newProfileId)
    ensures status != 200 ==> store.Snapshot() == old(store.Snapshot()) && oldRole.None?
    ensures status == 200 ==> oldRole == Some(old(store.users)[Str(Field(body.value, "userId"))].role)
  {
    oldRole := None;
    if session.None? {
      return 401, None;
    }
    if !(session.value in store.users && store.users[session.value].role == AdminRole) {
      return 403, None;
    }
    if body.None? {
      return 400, None;
    }
    if body.value == JNull {
      return 500, None;
    }
    var userIdField := Field(body.value, "userId");
    var roleField := Field(body.value, "role");
    if !Truthy(userIdField) || !Truthy(roleField) {
      return 400, None;
    }
    var role := if IsString(roleField) then ParseRole(Str(roleField)) else None;
    if role.None? {
      return 400, None;
    }
    if userIdField == Some(JString(session.value)) {
      return 400, None;
    }
    if !IsString(userIdField) {
      return 500, None;
    }
    var userId := Str(userIdField);
    if userId !in store.users {
      return 404, None;
    }
    oldRole := Some(store.users[userId].role);
    SetRoleAndProfiles(store, userId, role.value, newProfileId);
    status := 200;
  }

  /** The update of the user's role followed by the profile-row sync of the role change. */
  method SetRoleAndProfiles(store: Store, userId: UserId, role: Role, newProfileId: ProfileId)
    requires userId in store.users
    modifies store
    ensures store.Snapshot() == SyncRole(old(store.Snapshot()), userId, role, newProfileId)
  {
    store.users := store.users[userId := store.users[userId].(role := role)];
    match role {
      case AttorneyRole =>
        if userId !in store.attorneys {
          store.attorneys := store.attorneys[userId := newProfileId];
        }
        if userId in store.internalStaff {
          store.internalStaff := store.internalStaff - {userId};
        }
      case InternalStaffRole =>
        if userId !in store.internalStaff {
          store.internalStaff := store.internalStaff[userId := newProfileId];
        }
        if userId in store.attorneys {
          store.attorneys := store.attorneys - {userId};
        }
      case _ =>
        if userId in store.attorneys {
          store.attorneys := store.attorneys - {userId};
        }
        if userId in store.internalStaff {
          store.internalStaff := store.internalStaff - {userId};
        }
    }
  }

  /** The caller is signed in and is an ADMIN. */
  predicate PatchAuthorized(db: Db, session: Option<UserId>) {
    session.Some? && HasStaffAccess(db.users, session.value)
  }

  /** The body parsed to something other than null. */
  predicate BodyRead(body: Option<Json>) {
    body.Some? && body.value != JNull
  }

  /** `userId` and `role` are both given and the role is one of the four. */
  predicate PatchFieldsValid(body: Json) {
    Truthy(Field(body, "userId")) && RequestedRole(body).Some?
  }

  /**
   * The checks come in the route's order: each status is returned when every
   * earlier check passed and its own failed, and 200 exactly when all passed.
   */
  lemma PatchRejectionOrder(db: Db, session: Option<UserId>, body: Option<Json>)
    ensures PatchStatus(db, session, body) == 401 <==> session.None?
    ensures PatchStatus(db, session, body) == 403 <==> session.Some? && !HasStaffAccess(db.users, session.value)
    ensures PatchAuthorized(db, session) && body.None? ==> PatchStatus(db, session, body) == 400
    ensures PatchAuthorized(db, session) && body == Some(JNull) ==> PatchStatus(db, session, body) == 500
    ensures PatchAuthorized(db, session) && BodyRead(body)
      && (!Truthy(Field(body.value, "userId")) || !Truthy(Field(body.value, "role")))
      ==> PatchStatus(db, session, body) == 400
    ensures PatchAuthorized(db, session) && BodyRead(body)
      && Truthy(Field(body.value, "userId")) && Truthy(Field(body.value, "role")) && RequestedRole(body.value).None?
      ==> PatchStatus(db, session, body) == 400
    ensures PatchAuthorized(db, session) && BodyRead(body) && PatchFieldsValid(body.value)
      && Field(body.value, "userId") == Some(JString(session.value))
      ==> PatchStatus(db, session, body) == 400
    ensures PatchAuthorized(db, session) && BodyRead(body) && PatchFieldsValid(body.value)
      && Field(body.value, "userId") != Some(JString(session.value)) && !IsString(Field(body.value, "userId"))
      ==> PatchStatus(db, session, body) == 500
    ensures PatchAuthorized(db, session) && BodyRead(body) && PatchFieldsValid(body.value)
      && IsString(Field(body.value, "userId")) && Str(Field(body.value, "userId")) != session.value
      && Str(Field(body.value, "userId")) !in db.users
      ==> PatchStatus(db, session, body) == 404
    ensures PatchStatus(db, session, body) == 200 <==>
      && PatchAuthorized(db, session) && BodyRead(body) && PatchFieldsValid(body.value)
      && IsString(Field(body.value, "userId"))
      && Str(Field(body.value, "userId")) != session.value
      && Str(Field(body.value, "userId")) in db.users
  {
  }

  /** After a successful change the target has the requested role and exactly the profile rows that role calls for; a created row carries the new id. */
  lemma PatchProfileRows(db: Db, session: Option<UserId>, body: Option<Json>, newProfileId: ProfileId)
    requires PatchStatus(db, session, body) == 200
    ensures var u, r, db' := Str(Field(body.value, "userId")), RequestedRole(body.value).value, PatchDb(db, session, body, newProfileId);
      && u in db'.users && db'.users[u].role == r
      && (u in db'.attorneys <==> r == AttorneyRole)
      && (u in db'.internalStaff <==> r == InternalStaffRole)
      && (r == AttorneyRole ==> db'.attorneys[u] == if u in db.attorneys then db.attorneys[u] else newProfileId)
      && (r == InternalStaffRole ==> db'.internalStaff[u] == if u in db.internalStaff then db.internalStaff[u] else newProfileId)
  {
  }

  /** No other user, profile row, client row, case or message is touched. */
  lemma PatchOthersUntouched(db: Db, session: Option<UserId>, body: Option<Json>, newProfileId: ProfileId, other: UserId)
    requires PatchStatus(db, session, body) == 200
    requires other != Str(Field(body.value, "userId"))
    ensures var db' := PatchDb(db, session, body, newProfileId);
      && (other in db'.users <==> other in db.users)
      && (other in db.users ==> db'.users[other] == db.users[other])
      && (other in db'.attorneys <==> other in db.attorneys)
      && (other in db.attorneys ==> db'.attorneys[other] == db.attorneys[other])
      && (other in db'.internalStaff <==> other in db.internalStaff)
      && (other in db.internalStaff ==> db'.internalStaff[other] == db.internalStaff[other])
      && db'.users.Keys == db.users.Keys
      && db'.clients == db.clients && db'.cases == db.cases && db'.messages == db.messages
  {
  }

  /** An administrator cannot change its own role, so it keeps its access whatever it sends. */
  lemma PatchKeepsCallerAdmin(db: Db, session: Option<UserId>, body: Option<Json>, newProfileId: ProfileId)
    requires session.Some? && HasStaffAccess(db.users, session.value)
    ensures HasStaffAccess(PatchDb(db, session, body, newProfileId).users, session.value)
  {
  }

  /** Sending the same change again returns the same status and changes nothing more, whatever id the database would give a new row. */
  lemma PatchIdempotent(db: Db, session: Option<UserId>, body: Option<Json>, id1: ProfileId, id2: ProfileId)
    ensures var db1 := PatchDb(db, session, body, id1);
      PatchStatus(db1, session, body) == PatchStatus(db, session, body) && PatchDb(db1, session, body, id2) == db1
  {
    if PatchStatus(db, session, body) == 200 {
      var db1 := PatchDb(db, session, body, id1);
      PatchKeepsCallerAdmin(db, session, body, id1);
      PatchProfileRows(db, session, body, id1);
      var u, r := Str(Field(body.value, "userId")), RequestedRole(body.value).value;
      assert PatchStatus(db1, session, body) == 200;
      var db2 := PatchDb(db1, session, body, id2);
      assert db2.users == db1.users;
      match r
      case AttorneyRole =>
        assert db2.internalStaff == db1.internalStaff;
      case InternalStaffRole =>
        assert db2.attorneys == db1.attorneys;
      case _ =>
        assert db2.internalStaff == db1.internalStaff;
        assert db2.attorneys == db1.attorneys;
    }
  }

  /** The role change keeps the database's foreign keys. */
  lemma PatchKeepsValid(db: Db, session: Option<UserId>, body: Option<Json>, newProfileId: ProfileId)
    requires Valid(db)
    ensures Valid(PatchDb(db, session, body, newProfileId))
  {
  }

  // ---------------------------------------------------------------- POST

  /** Some user already has this (normalised) address. */
  predicate EmailTaken(users: map<UserId, User>, email: string) {
    exists u | u in users :: users[u].email == email
  }

  /** What the body checks of staff creation conclude: a status, or the fields the rest of the route uses. */
  datatype CreateRequest =
    | BodyRejected(status: int)
    | BodyAccepted(nameField: Option<Json>, email: string, role: Role)

  /** The checks on the body alone: all four fields present, a valid role, a string address. */
  function ReadCreateBody(body: Json): CreateRequest {
    if body == JNull then BodyRejected(500)         // destructuring null throws
    else
      var email := Field(body, "email");
      if !Truthy(Field(body, "name")) || !Truthy(email) || !Truthy(Field(body, "password")) || !Truthy(Field(body, "role")) then BodyRejected(400)
      else if RequestedRole(body).None? then BodyRejected(400)
      else if !IsString(email) then BodyRejected(500)  // `email.trim` is not a function
      else BodyAccepted(Field(body, "name"), Str(email), RequestedRole(body).value)
  }

  /**
   * The status of staff creation, in the order the route checks. `signUp` is
   * the id of the user the auth library created, `None` when it throws or
   * returns no user.
   */
  function PostStatus(db: Db, session: Option<UserId>, body: Option<Json>, signUp: Option<UserId>): int {
    if session.None? then 401
    else if !HasStaffAccess(db.users, session.value) then 403
    else if body.None? then 400
    else
      match ReadCreateBody(body.value)
      case BodyRejected(status) => status
      case BodyAccepted(name, email, _) =>
        if EmailTaken(db.users, NormalizeEmail(email)) then 400
        else if !IsString(name) then 500           // `name.trim` is not a function
        else if signUp.None? then 500
        else 201
  }

  /** The profile row a new user of the given role receives. */
  function AddProfile(db: Db, userId: UserId, role: Role, newProfileId: ProfileId, customerNumber: string): Db {
    match role
    case AttorneyRole => db.(attorneys := db.attorneys[userId := newProfileId])
    case InternalStaffRole => db.(internalStaff := db.internalStaff[userId := newProfileId])
    case ClientRole =>
      if FindClient(db.clients, userId).Some? then db
      else db.(clients := db.clients + [ClientRow(userId, customerNumber)])
    case AdminRole => db
  }

  /** The store with the created user: the trimmed name, the normalised address and the requested role. */
  function WithNewUser(db: Db, userId: UserId, req: CreateRequest): Db
    requires req.BodyAccepted? && IsString(req.nameField)
  {
    db.(users := db.users[userId := User(Trim(Str(req.nameField)), NormalizeEmail(req.email), req.role)])
  }

  /**
   * The store after staff creation: the new user plus its profile row. A
   * Client row gets `customerNumber`, which the route takes from
   * `generateCustomerNumber`.
   */
  function PostDb(db: Db, session: Option<UserId>, body: Option<Json>, signUp: Option<UserId>, newProfileId: ProfileId, customerNumber: string): Db {
    if PostStatus(db, session, body, signUp) != 201 then db
    else
      var req := ReadCreateBody(body.value);
      AddProfile(WithNewUser(db, signUp.value, req), signUp.value, req.role, newProfileId, customerNumber)
  }

  /** What a successful creation implies about the request, and the store it builds. */
  lemma PostAccepted(db: Db, session: Option<UserId>, body: Option<Json>, signUp: Option<UserId>, newProfileId: ProfileId, customerNumber: string)
    requires PostStatus(db, session, body, signUp) == 201
    ensures session.Some? && HasStaffAccess(db.users, session.value) && body.Some? && signUp.Some?
    ensures var req := ReadCreateBody(body.value);
      && req.BodyAccepted? && IsString(req.nameField)
      && !EmailTaken(db.users, NormalizeEmail(req.email))
      && PostDb(db, session, body, signUp, newProfileId, customerNumber)
         == AddProfile(WithNewUser(db, signUp.value, req), signUp.value, req.role, newProfileId, customerNumber)
  {
  }

  /** The rows `AddProfile` adds, for a user without a Client row. */
  lemma AddProfileRows(db: Db, userId: UserId, role: Role, newProfileId: ProfileId, customerNumber: string)
    requires FindClient(db.clients, userId).None?
    ensures var db' := AddProfile(db, userId, role, newProfileId, customerNumber);
      && db'.users == db.users && db'.cases == db.cases && db'.messages == db.messages
      && db'.attorneys == (if role == AttorneyRole then db.attorneys[userId := newProfileId] else db.attorneys)
      && db'.internalStaff == (if role == InternalStaffRole then db.internalStaff[userId := newProfileId] else db.internalStaff)
      && db'.clients == (if role == ClientRole then db.clients + [ClientRow(userId, customerNumber)] else db.clients)
  {
  }

  /** A user the database does not know has no Client row. */
  lemma NoClientRowForNewUser(db: Db, userId: UserId)
    requires Valid(db) && userId !in db.users
    ensures FindClient(db.clients, userId).None?
  {
  }

  /**
   * `POST /api/admin/staff`. The database holds its keys, and the auth
   * library hands out an id no user has yet.
   */
  method PostStaff(store: Store, session: Option<UserId>, body: Option<Json>, signUp: Option<UserId>, newProfileId: ProfileId)
    returns (status: int)
    requires Valid(store.Snapshot())
    requires signUp.Some? ==> signUp.value !in store.users
    modifies store
    ensures status == PostStatus(old(store.Snapshot()), session, body, signUp)
    ensures store.Snapshot() == PostDb(old(store.Snapshot()), session, body, signUp, newProfileId, CustomerNumberFor(CustomerNumbers(old(store.clients))))
  {
    ghost var db0 := store.Snapshot();
    ghost var nextNumber := CustomerNumberFor(CustomerNumbers(db0.clients));
    if session.None? {
      return 401;
    }
    if !(session.value in store.users && store.users[session.value].role == AdminRole) {
      return 403;
    }
    if body.None? {
      return 400;
    }
    var req := ReadCreateBody(body.value);
    if req.BodyRejected? {
      return req.status;
    }
    var normalizedEmail := NormalizeEmail(req.email);
    if EmailTaken(store.users, normalizedEmail) {
      return 400;
    }
    if !IsString(req.nameField) {
      return 500;
    }
    if signUp.None? {
      return 500;
    }
    var newUserId := signUp.value;
    assert PostStatus(db0, session, body, signUp) == 201;
    PostAccepted(db0, session, body, signUp, newProfileId, nextNumber);
    ghost var withUser := WithNewUser(db0, newUserId, req);
    store.users := store.users[newUserId := User(Trim(Str(req.nameField)), normalizedEmail, req.role)];
    assert store.Snapshot() == withUser;
    match req.role {
      case AttorneyRole =>
        store.attorneys := store.attorneys[newUserId := newProfileId];
      case InternalStaffRole =>
        store.internalStaff := store.internalStaff[newUserId := newProfileId];
      case ClientRole =>
        var existingClient := FindClient(store.clients, newUserId);
        if existingClient.None? {
          var customerNumber := store.GenerateCustomerNumber();
          store.clients := store.clients + [ClientRow(newUserId, customerNumber)];
        }
      case AdminRole =>
    }
    status := 201;
  }

  /** The body checks in the route's order: null, missing fields, role outside the four, non-string address. */
  lemma ReadCreateBodyOrder(body: Json)
    ensures body == JNull ==> ReadCreateBody(body) == BodyRejected(500)
    ensures body != JNull && !Truthy(Field(body, "email")) ==> ReadCreateBody(body) == BodyRejected(400)
    ensures body != JNull && !Truthy(Field(body, "password")) ==> ReadCreateBody(body) == BodyRejected(400)
    ensures ReadCreateBody(body).BodyAccepted? ==>
      && Field(body, "email") == Some(JString(ReadCreateBody(body).email))
      && ReadCreateBody(body).email != []
      && Truthy(Field(body, "password"))
      && Field(body, "role") == Some(JString(RoleKey(ReadCreateBody(body).role)))
  {
  }

  /** A created user carries the trimmed name and the trimmed, lower-cased address, no earlier user has that address, and the user has the requested role. */
  lemma PostNormalizesEmail(db: Db, session: Option<UserId>, body: Option<Json>, signUp: Option<UserId>, newProfileId: ProfileId, customerNumber: string)
    requires PostStatus(db, session, body, signUp) == 201
    ensures signUp.Some? && body.Some?
    ensures signUp.Some? && body.Some? &&
      var db', u, req := PostDb(db, session, body, signUp, newProfileId, customerNumber), signUp.value, ReadCreateBody(body.value);
      && req.BodyAccepted?
      && u in db'.users
      && db'.users[u].email == ToLower(Trim(req.email))
      && db'.users[u].name == Trim(Str(req.nameField))
      && db'.users[u].role == req.role
      && forall v | v in db.users :: db.users[v].email != ToLower(Trim(req.email))
  {
    PostAccepted(db, session, body, signUp, newProfileId, customerNumber);
    var req := ReadCreateBody(body.value);
    var withUser := WithNewUser(db, signUp.value, req);
    assert AddProfile(withUser, signUp.value, req.role, newProfileId, customerNumber).users == withUser.users;
  }

  /** An address some user already has (after trimming and lower-casing) is refused with 400 and nothing changes. */
  lemma PostRejectsTakenEmail(db: Db, session: Option<UserId>, body: Option<Json>, signUp: Option<UserId>, newProfileId: ProfileId, customerNumber: string, holder: UserId)
    requires session.Some? && HasStaffAccess(db.users, session.value)
    requires body.Some? && ReadCreateBody(body.value).BodyAccepted?
    requires holder in db.users && db.users[holder].email == NormalizeEmail(ReadCreateBody(body.value).email)
    ensures PostStatus(db, session, body, signUp) == 400
    ensures PostDb(db, session, body, signUp, newProfileId, customerNumber) == db
  {
  }

  /** The profile rows of a new user: an Attorney row for ATTORNEY, an InternalStaff row for INTERNAL_STAFF, a Client row with the given customer number for CLIENT, none for ADMIN. */
  lemma PostProfileRows(db: Db, session: Option<UserId>, body: Option<Json>, signUp: Option<UserId>, newProfileId: ProfileId, customerNumber: string)
    requires Valid(db)
    requires signUp.Some? ==> signUp.value !in db.users
    requires PostStatus(db, session, body, signUp) == 201
    ensures signUp.Some? && body.Some? && ReadCreateBody(body.value).BodyAccepted? &&
      var db', u, r := PostDb(db, session, body, signUp, newProfileId, customerNumber), signUp.value, ReadCreateBody(body.value).role;
      && (u in db'.attorneys <==> r == AttorneyRole)
      && (u in db'.internalStaff <==> r == InternalStaffRole)
      && (r == AttorneyRole ==> db'.attorneys[u] == newProfileId)
      && (r == InternalStaffRole ==> db'.internalStaff[u] == newProfileId)
      && (r == ClientRole ==> db'.clients == db.clients + [ClientRow(u, customerNumber)])
      && (r != ClientRole ==> db'.clients == db.clients)
  {
    PostAccepted(db, session, body, signUp, newProfileId, customerNumber);
    var u, req := signUp.value, ReadCreateBody(body.value);
    var withUser := WithNewUser(db, u, req);
    NoClientRowForNewUser(db, u);
    AddProfileRows(withUser, u, req.role, newProfileId, customerNumber);
    assert u !in db.attorneys && u !in db.internalStaff;
  }

  /** Staff creation keeps the database's keys and leaves every existing user and its rows as they were. */
  lemma PostKeepsOthers(db: Db, session: Option<UserId>, body: Option<Json>, signUp: Option<UserId>, newProfileId: ProfileId, customerNumber: string)
    requires Valid(db)
    requires signUp.Some? ==> signUp.value !in db.users
    ensures var db' := PostDb(db, session, body, signUp, newProfileId, customerNumber);
      && Valid(db')
      && (forall v | v in db.users :: v in db'.users && db'.users[v] == db.users[v])
      && (forall v | v in db.attorneys :: v in db'.attorneys && db'.attorneys[v] == db.attorneys[v])
      && (forall v | v in db.internalStaff :: v in db'.internalStaff && db'.internalStaff[v] == db.internalStaff[v])
      && db.clients <= db'.clients
      && db'.cases == db.cases && db'.messages == db.messages
  {
    if PostStatus(db, session, body, signUp) == 201 {
      PostAccepted(db, session, body, signUp, newProfileId, customerNumber);
      var u, req := signUp.value, ReadCreateBody(body.value);
      var withUser := WithNewUser(db, u, req);
      NewUserKeepsOthers(db, u, withUser.users[u], req.role, newProfileId, customerNumber);
    }
  }

  /** Adding a new user and its profile row keeps the store valid and every existing row as it was. */
  lemma NewUserKeepsOthers(db: Db, u: UserId, user: User, role: Role, newProfileId: ProfileId, customerNumber: string)
    requires Valid(db) && u !in db.users
    ensures var db' := AddProfile(db.(users := db.users[u := user]), u, role, newProfileId, customerNumber);
      && Valid(db')
      && (forall v | v in db.users :: v in db'.users && db'.users[v] == db.users[v])
      && (forall v | v in db.attorneys :: v in db'.attorneys && db'.attorneys[v] == db.attorneys[v])
      && (forall v | v in db.internalStaff :: v in db'.internalStaff && db'.internalStaff[v] == db.internalStaff[v])
      && db.clients <= db'.clients
      && db'.cases == db.cases && db'.messages == db.messages
  {
    var withUser := db.(users := db.users[u := user]);
    NoClientRowForNewUser(db, u);
    AddProfileRows(withUser, u, role, newProfileId, customerNumber);
    var db' := AddProfile(withUser, u, role, newProfileId, customerNumber);
    assert u !in db.attorneys && u !in db.internalStaff;
    assert forall i | 0 <= i < |db'.clients| :: db'.clients[i].userId in db'.users by {
      forall i | 0 <= i < |db'.clients| ensures db'.clients[i].userId in db'.users {
        if i < |db.clients| { assert db'.clients[i] == db.clients[i]; }
      }
    }
  }
}
