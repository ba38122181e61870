/** The user accounts of the Flask server: create with defaults, the unique
    e-mail constraint, an update restricted to four columns, the status toggle,
    login gating and password change. Passwords are compared as plain text, as
    the server does. */
module FlaskUsers {
  import opened Common

  /** A row of the `users` table. `role` and `status` are nullable columns. */
  datatype User = User(id: int, name: string, email: string, password: string,
                       role: Option<string>, status: Option<string>)

  datatype UserStore = UserStore(users: map<int, User>, nextId: int)

  /** Rows are keyed by id below the AUTOINCREMENT counter and no two rows share
      an e-mail address (the UNIQUE constraint). */
  predicate Valid(st: UserStore) {
    && (forall id :: id in st.users ==> st.users[id].id == id && 0 < id < st.nextId)
    && (forall a, b :: a in st.users && b in st.users && st.users[a].email == st.users[b].email ==> a == b)
    && st.nextId > 0
  }

  /** Some row already uses `email`. */
  predicate EmailInUse(st: UserStore, email: string) {
    exists id :: id in st.users && st.users[id].email == email
  }

  /** Some row other than `except` already uses `email`. */
  predicate EmailTaken(st: UserStore, email: string, except: int) {
    exists id :: id in st.users && id != except && st.users[id].email == email
  }

  // ---------------------------------------------------------------------------
  // POST /api/users
  // ---------------------------------------------------------------------------

  /** The JSON body of a create or update request. */
  datatype UserRequest = UserRequest(name: Field, email: Field, password: Field, role: Field, status: Field)

  datatype UserOutcome = UserOutcome(store: UserStore, status: Status, user: Option<User>)

  predicate AcceptsCreateUser(body: Option<UserRequest>) {
    body.Some? && body.value.name.Truthy() && body.value.email.Truthy() && body.value.password.Truthy()
  }

  /** POST /api/users. Name, e-mail and password must be non-empty (400). A
      missing role is 'security' and a missing status 'Active'; an explicit null
      is stored as NULL. An e-mail already in use violates the UNIQUE
      constraint (500). */
  function CreateUser(st: UserStore, body: Option<UserRequest>): (r: UserOutcome)
    ensures !AcceptsCreateUser(body) ==> r == UserOutcome(st, BadRequest, None)
    ensures AcceptsCreateUser(body) && EmailInUse(st, body.value.email.s) ==>
      r == UserOutcome(st, ServerError, None)
    ensures r.status == Created <==> AcceptsCreateUser(body) && !EmailInUse(st, body.value.email.s)
    ensures r.status == Created ==>
      && r.user.Some? && r.user.value.id in r.store.users
      && r.store.users[r.user.value.id] == r.user.value
      && r.user.value.email == body.value.email.s
      && (body.value.role.Absent? ==> r.user.value.role == Some("security"))
      && (body.value.status.Absent? ==> r.user.value.status == Some("Active"))
    ensures r.status == Created && Valid(st) ==>
      && r.user.value.id !in st.users
      && r.store.users.Keys == st.users.Keys + {r.user.value.id}
      && (forall id :: id in st.users ==> r.store.users[id] == st.users[id])
  {
    if !AcceptsCreateUser(body) then UserOutcome(st, BadRequest, None)
    else
      var req := body.value;
      if EmailInUse(st, req.email.s) then UserOutcome(st, ServerError, None)
      else
        var u := User(st.nextId, req.name.s, req.email.s, req.password.s,
                      req.role.GetOr("security"), req.status.GetOr("Active"));
        UserOutcome(UserStore(st.users[st.nextId := u], st.nextId + 1), Created, Some(u))
  }

  // ---------------------------------------------------------------------------
  // PUT /api/users/{id}
  // ---------------------------------------------------------------------------

  /** The body names at least one of the four columns the endpoint updates. */
  predicate HasUpdatableField(body: Option<UserRequest>) {
    body.Some? && (body.value.name.Present() || body.value.email.Present()
                   || body.value.role.Present() || body.value.status.Present())
  }

  /** A present key overrides the column, null included; an absent key keeps it. */
  function Override(f: Field, current: Option<string>): Option<string> {
    if f.Present() then f.Value() else current
  }

  /** The UPDATE violates a constraint: NULL into a NOT NULL column, or an
      e-mail that another row already has. */
  predicate UpdateViolates(st: UserStore, id: int, req: UserRequest) {
    || req.name.Null? || req.email.Null?
    || (req.email.Str? && EmailTaken(st, req.email.s, id))
  }

  /** PUT /api/users/{id}. Only name, email, role and status are written; any
      other key, the password included, is ignored. No such column in the body
      answers 400, no such row 404, a constraint violation 500. */
  function UpdateUser(st: UserStore, id: int, body: Option<UserRequest>): (r: UserOutcome)
    ensures r.status == BadRequest <==> !HasUpdatableField(body)
    ensures r.status == NotFound <==> HasUpdatableField(body) && id !in st.users
    ensures r.status == ServerError <==>
      HasUpdatableField(body) && id in st.users && UpdateViolates(st, id, body.value)
    ensures r.status != Ok ==> r.store == st
    ensures r.status == Ok ==>
      && id in st.users && r.store.users.Keys == st.users.Keys && r.store.nextId == st.nextId
      && r.store.users[id].password == st.users[id].password
      && (body.value.name.Str? ==> r.store.users[id].name == body.value.name.s)
      && (body.value.email.Str? ==> r.store.users[id].email == body.value.email.s)
      && r.store.users[id].id == st.users[id].id
      && (body.value.name.Absent? ==> r.store.users[id].name == st.users[id].name)
      && (body.value.email.Absent? ==> r.store.users[id].email == st.users[id].email)
      && (body.value.role.Present() ==> r.store.users[id].role == body.value.role.Value())
      && (body.value.role.Absent? ==> r.store.users[id].role == st.users[id].role)
      && (body.value.status.Present() ==> r.store.users[id].status == body.value.status.Value())
      && (body.value.status.Absent? ==> r.store.users[id].status == st.users[id].status)
      && (forall k :: k in st.users && k != id ==> r.store.users[k] == st.users[k])
    ensures r.status in {Ok, BadRequest, NotFound, ServerError}
    ensures r.user.None?
  {
    if !HasUpdatableField(body) then UserOutcome(st, BadRequest, None)
    else if id !in st.users then UserOutcome(st, NotFound, None)
    else if UpdateViolates(st, id, body.value) then UserOutcome(st, ServerError, None)
    else
      var req := body.value;
      var u := st.users[id];
      var u' := u.(name := if req.name.Str? then req.name.s else u.name,
                   email := if req.email.Str? then req.email.s else u.email,
                   role := Override(req.role, u.role),
                   status := Override(req.status, u.status));
      UserOutcome(st.(users := st.users[id := u']), Ok, None)
  }

  // ---------------------------------------------------------------------------
  // POST /api/users/{id}/toggle-status
  // ---------------------------------------------------------------------------

  /** "Active" becomes "Inactive"; anything else, NULL included, becomes "Active". */
  function Toggled(status: Option<string>): (r: Option<string>)
    ensures r == Some("Inactive") <==> status == Some("Active")
    ensures r != Some("Inactive") ==> r == Some("Active")
  {
    if status == Some("Active") then Some("Inactive") else Some("Active")
  }

  function ToggleUserStatus(st: UserStore, id: int): (r: UserOutcome)
    ensures r.status == Ok <==> id in st.users
    ensures r.status != Ok ==> r == UserOutcome(st, NotFound, None)
    ensures r.status == Ok ==>
      && r.store.users == st.users[id := st.users[id].(status := Toggled(st.users[id].status))]
      && r.store.nextId == st.nextId
  {
    if id !in st.users then UserOutcome(st, NotFound, None)
    else
      var u := st.users[id];
      UserOutcome(st.(users := st.users[id := u.(status := Toggled(u.status))]), Ok, Some(u.(status := Toggled(u.status))))
  }

  /** Toggling twice restores a status that was "Active" or "Inactive" and
      changes nothing else; a NULL or any other status becomes "Active" and
      then "Inactive", so it is not restored. */
  lemma ToggleTwice(st: UserStore, id: int)
    requires id in st.users
    ensures var twice := ToggleUserStatus(ToggleUserStatus(st, id).store, id).store;
      && (st.users[id].status in {Some("Active"), Some("Inactive")} <==> twice == st)
      && (st.users[id].status !in {Some("Active"), Some("Inactive")} ==>
            twice.users[id].status == Some("Inactive")
            && ToggleUserStatus(st, id).store.users[id].status == Some("Active"))
  {
    var once := ToggleUserStatus(st, id).store;
    var twice := ToggleUserStatus(once, id).store;
    assert once.users[id].status == Toggled(st.users[id].status);
    if st.users[id].status in {Some("Active"), Some("Inactive")} {
      assert st.users[id].(status := Toggled(Toggled(st.users[id].status))) == st.users[id];
      assert once.users[id := once.users[id].(status := Toggled(once.users[id].status))] == st.users;
    } else {
      assert twice.users[id].status != st.users[id].status;
    }
  }

  // ---------------------------------------------------------------------------
  // POST /api/login and POST /api/change-password
  // ---------------------------------------------------------------------------

  datatype Credentials = Credentials(email: Field, password: Field)

  /** The row `SELECT ... WHERE email = ? AND password = ?` finds. */
  predicate MatchesCredentials(u: User, email: string, password: string) {
    u.email == email && u.password == password
  }

  /** The id of the row with `email`; unique because e-mails are. */
  function FindByEmail(st: UserStore, email: string): (r: Option<int>)
    requires Valid(st)
    ensures r.Some? <==> exists id :: id in st.users && st.users[id].email == email
    ensures r.Some? ==> r.value in st.users && st.users[r.value].email == email
  {
    if exists id :: id in st.users && st.users[id].email == email then
      var id :| id in st.users && st.users[id].email == email;
      Some(id)
    else None
  }

  /** POST /api/login: 400 without a non-empty e-mail and password, 401 when
      no row has both, 403 when that row's status is not "Active", else 200
      with the user. */
  function Login(st: UserStore, body: Option<Credentials>): (r: UserOutcome)
    requires Valid(st)
    ensures r.store == st
    ensures r.status in {Ok, BadRequest, Unauthorized, Forbidden}
    ensures r.status == BadRequest <==> !(body.Some? && body.value.email.Truthy() && body.value.password.Truthy())
    ensures r.status == Unauthorized <==>
      && body.Some? && body.value.email.Truthy() && body.value.password.Truthy()
      && !exists id :: id in st.users && MatchesCredentials(st.users[id], body.value.email.s, body.value.password.s)
    ensures r.status in {Ok, Forbidden} ==>
      && r.user.Some? && r.user.value.id in st.users && st.users[r.user.value.id] == r.user.value
      && MatchesCredentials(r.user.value, body.value.email.s, body.value.password.s)
      && (r.status == Ok <==> r.user.value.status == Some("Active"))
    ensures r.status !in {Ok, Forbidden} ==> r.user.None?
  {
    if !(body.Some? && body.value.email.Truthy() && body.value.password.Truthy()) then
      UserOutcome(st, BadRequest, None)
    else
      var email, password := body.value.email.s, body.value.password.s;
      var found := FindByEmail(st, email);
      if found.None? || st.users[found.value].password != password then
        UserOutcome(st, Unauthorized, None)
      else if st.users[found.value].status != Some("Active") then
        UserOutcome(st, Forbidden, Some(st.users[found.value]))
      else
        UserOutcome(st, Ok, Some(st.users[found.value]))
  }

  /** The body of a password change; `userId` is None when missing or null. */
  datatype PasswordChange = PasswordChange(userId: Option<int>, oldPassword: Field, newPassword: Field)

  /** All three keys are present and truthy; Python treats a user id of 0 as missing. */
  predicate AcceptsPasswordChange(req: PasswordChange) {
    && req.userId.Some? && req.userId.value != 0
    && req.oldPassword.Truthy() && req.newPassword.Truthy()
  }

  /** POST /api/change-password: 400 on a missing field, 404 for an unknown
      user, 401 when the old password is wrong; otherwise only that user's
      password changes. */
  function ChangePassword(st: UserStore, req: PasswordChange): (r: UserOutcome)
    ensures r.status == BadRequest <==> !AcceptsPasswordChange(req)
    ensures r.status == NotFound <==> AcceptsPasswordChange(req) && req.userId.value !in st.users
    ensures r.status == Unauthorized <==>
      AcceptsPasswordChange(req) && req.userId.value in st.users
      && st.users[req.userId.value].password != req.oldPassword.s
    ensures r.status != Ok ==> r.store == st
    ensures r.status == Ok ==>
      r.store.users == st.users[req.userId.value := st.users[req.userId.value].(password := req.newPassword.s)]
      && r.store.nextId == st.nextId
    ensures r.status in {Ok, BadRequest, NotFound, Unauthorized}
    ensures r.user.None?
  {
    if !AcceptsPasswordChange(req) then UserOutcome(st, BadRequest, None)
    else
      var id := req.userId.value;
      if id !in st.users then UserOutcome(st, NotFound, None)
      else if st.users[id].password != req.oldPassword.s then UserOutcome(st, Unauthorized, None)
      else UserOutcome(st.(users := st.users[id := st.users[id].(password := req.newPassword.s)]), Ok, None)
  }

  // ---------------------------------------------------------------------------
  // Properties relating several requests
  // ---------------------------------------------------------------------------

  /** Creating a user keeps the key and the UNIQUE e-mail invariant. */
  lemma CreateUserPreservesValid(st: UserStore, body: Option<UserRequest>)
    requires Valid(st)
    ensures Valid(CreateUser(st, body).store)
  {
  }

  /** Updating a user keeps the key and the UNIQUE e-mail invariant. */
  lemma UpdateUserPreservesValid(st: UserStore, id: int, body: Option<UserRequest>)
    requires Valid(st)
    ensures Valid(UpdateUser(st, id, body).store)
  {
  }

  /** Toggling a status and changing a password keep the table invariant. */
  lemma ToggleAndPasswordPreserveValid(st: UserStore, id: int, req: PasswordChange)
    requires Valid(st)
    ensures Valid(ToggleUserStatus(st, id).store)
    ensures Valid(ChangePassword(st, req).store)
  {
  }

  /** The update endpoint never looks at a password: bodies that differ only
      in it give the same answer and the same table. */
  lemma UpdateIgnoresPassword(st: UserStore, id: int, req: UserRequest, pw: Field)
    ensures UpdateUser(st, id, Some(req)) == UpdateUser(st, id, Some(req.(password := pw)))
  {
  }

  /** A wrong old password changes nothing, and a successful change makes the
      new password the one login accepts, for an active account. */
  lemma ChangePasswordThenLogin(st: UserStore, req: PasswordChange)
    requires Valid(st) && AcceptsPasswordChange(req)
    requires req.userId.value in st.users
    ensures var r := ChangePassword(st, req);
      && (st.users[req.userId.value].password != req.oldPassword.s ==> r.store == st)
      && (r.status == Ok ==>
            var u := r.store.users[req.userId.value];
            && Valid(r.store)
            && (u.email != "" ==>
                  Login(r.store, Some(Credentials(Str(u.email), req.newPassword))).status
                  == (if u.status == Some("Active") then Ok else Forbidden))
            && (u.email != "" && req.oldPassword.s != req.newPassword.s ==>
                  Login(r.store, Some(Credentials(Str(u.email), req.oldPassword))).status == Unauthorized))
  {
    var r := ChangePassword(st, req);
    if r.status == Ok {
      var pid := req.userId.value;
      ToggleAndPasswordPreserveValid(st, pid, req);
      var u := r.store.users[pid];
      assert pid in r.store.users && MatchesCredentials(r.store.users[pid], u.email, req.newPassword.s);
      if u.email != "" {
        var l := Login(r.store, Some(Credentials(Str(u.email), req.newPassword)));
        assert l.status in {Ok, Forbidden};
        assert r.store.users[l.user.value.id].email == r.store.users[pid].email;
      }
    }
  }
}
