/** User administration over the users table (backend/auth_routes.py).
    Password hashing, hash verification and token signing are parameters:
    `hash` stands for bcrypt hashing, `verify(password, hash)` for its check,
    `token` for the signed access token of a user. The authenticated caller
    is given as the users-table row the token resolved to. */
module AuthRoutes {
  import opened Common
  import opened Records
  import opened Schemas
  import opened Crud

  const AdminRole := "admin"
  const OperatorRole := "operator"

  datatype LoginRequest = LoginRequest(username: string, password: string)

  datatype TokenResponse = TokenResponse(accessToken: string, tokenType: string, username: string, role: string)

  /** `PasswordChangeRequest`: the new password has at least six characters. */
  datatype PasswordChangeRequest = PasswordChangeRequest(currentPassword: string, newPassword: string)

  const MinPasswordLength := 6

  predicate UniqueNames(users: seq<User>) {
    forall i, j :: 0 <= i < j < |users| ==> users[i].username != users[j].username
  }

  function Out(u: User): UserOut {
    UserOut(u.id, u.username, u.role)
  }

  /** `login`: the token of the user with that name when the password
      verifies against the stored hash; 401 otherwise. */
  function Login(users: seq<User>, req: LoginRequest, verify: (string, string) -> bool, token: User -> string): (r: Result<TokenResponse>)
    ensures r.Ok? ==> exists u :: u in users && u.username == req.username && verify(req.password, u.passwordHash)
                                   && r.value == TokenResponse(token(u), "bearer", u.username, u.role)
    ensures r.Err? ==> r.error.status == Unauthorized
    ensures r.Err? && UniqueNames(users) ==>
      forall u :: u in users && u.username == req.username ==> !verify(req.password, u.passwordHash)
  {
    match FindUserByName(users, req.username)
    case None => Err(HttpError(Unauthorized, "Invalid username or password"))
    case Some(u) =>
      if !verify(req.password, u.passwordHash) then
        Err(HttpError(Unauthorized, "Invalid username or password"))
      else
        Ok(TokenResponse(token(u), "bearer", u.username, u.role))
  }

  /** A user whose password verifies can always log in. */
  lemma {:induction false} LoginSucceeds(users: seq<User>, u: User, password: string,
                                        verify: (string, string) -> bool, token: User -> string)
    requires UniqueNames(users) && u in users && verify(password, u.passwordHash)
    ensures Login(users, LoginRequest(u.username, password), verify, token)
         == Ok(TokenResponse(token(u), "bearer", u.username, u.role))
  {
    var found := FindUserByName(users, u.username);
    var i :| 0 <= i < |users| && users[i] == u;
    var j :| 0 <= j < |users| && users[j] == found.value;
    assert i == j;
  }

  /** `require_admin`: 403 unless the caller's role is admin. */
  function RequireAdmin(current: User): (r: Result<User>)
    ensures r.Ok? <==> current.role == AdminRole
    ensures r.Ok? ==> r.value == current
    ensures r.Err? ==> r.error.status == Forbidden
  {
    if current.role != AdminRole then Err(HttpError(Forbidden, "Admin access required")) else Ok(current)
  }

  /** `list_users`: every row, in table order, for an admin. */
  function ListUsers(users: seq<User>, current: User): (r: Result<seq<UserOut>>)
    ensures r.Ok? <==> current.role == AdminRole
    ensures r.Ok? ==> |r.value| == |users| && forall i :: 0 <= i < |users| ==> r.value[i] == Out(users[i])
    ensures r.Err? ==> r.error.status == Forbidden
  {
    if RequireAdmin(current).Err? then Err(RequireAdmin(current).error)
    else Ok(seq(|users|, i requires 0 <= i < |users| => Out(users[i])))
  }

  /** The outcome of `create_user` before anything is written: 403 for a
      caller who is not an admin, 422 for a body that fails validation, 400
      for a role other than admin or operator, 400 for a name already taken;
      otherwise the validated user. */
  function CreateCheck(users: seq<User>, current: User, body: UserCreateBody): (r: Result<UserCreate>)
    ensures r.Err? ==> r.error.status in {Forbidden, Unprocessable, BadRequest}
    ensures r.Ok? <==>
      && current.role == AdminRole
      && CheckUserCreate(body).Ok?
      && CheckUserCreate(body).value.role in {AdminRole, OperatorRole}
      && forall u :: u in users ==> u.username != body.username
    ensures r.Ok? ==> r.value == CheckUserCreate(body).value
    ensures current.role != AdminRole ==> r.error.status == Forbidden
    ensures current.role == AdminRole && CheckUserCreate(body).Err? ==> r.error.status == Unprocessable
  {
    if current.role != AdminRole then Err(RequireAdmin(current).error)
    else match CheckUserCreate(body)
      case Err(e) => Err(e)
      case Ok(p) =>
        if p.role != AdminRole && p.role != OperatorRole then
          Err(HttpError(BadRequest, "Role must be 'admin' or 'operator'"))
        else if FindUserByName(users, p.username).Some? then
          Err(HttpError(BadRequest, "Username already exists"))
        else
          Ok(p)
  }

  /** The outcome of `delete_user` before anything is written: 403 for a
      caller who is not an admin, 400 for the caller's own id, 404 for an
      unknown id, and 500 when a sent message still refers to the user (the
      foreign key on sent_by_user_id makes the commit fail). */
  function DeleteCheck(users: seq<User>, messages: seq<DriverMessage>, current: User, userId: int): (r: Option<HttpError>)
    ensures r.None? <==>
      && current.role == AdminRole && userId != current.id && HasUser(users, userId)
      && forall m :: m in messages ==> m.sentByUserId != userId
    ensures current.role != AdminRole ==> r == Some(HttpError(Forbidden, "Admin access required"))
    ensures current.role == AdminRole && userId == current.id ==> r.value.status == BadRequest
    ensures current.role == AdminRole && userId != current.id && !HasUser(users, userId) ==> r.value.status == NotFound
  {
    if current.role != AdminRole then Some(RequireAdmin(current).error)
    else if userId == current.id then Some(HttpError(BadRequest, "Cannot delete your own account"))
    else if UserIndex(users, userId).None? then Some(HttpError(NotFound, "User not found"))
    else if exists m :: m in messages && m.sentByUserId == userId then
      Some(HttpError(InternalError, "Internal Server Error"))
    else None
  }

  /** The unique columns of the users table and its serial. */
  predicate UsersOk(users: seq<User>, userSeq: int) {
    && (forall i, j :: 0 <= i < j < |users| ==> users[i].username != users[j].username)
    && (forall u :: u in users ==> u.id < userSeq)
    && (forall i, j :: 0 <= i < j < |users| ==> users[i].id != users[j].id)
  }

  /** The table without its k-th row. */
  function RemoveAt(users: seq<User>, k: nat): (r: seq<User>)
    requires k < |users|
    ensures |r| == |users| - 1
    ensures forall i :: 0 <= i < |r| ==> r[i] == if i < k then users[i] else users[i + 1]
  {
    users[..k] + users[k + 1..]
  }

  /** Deleting a row keeps the table well formed and removes exactly the
      user with that row's id. */
  lemma RemoveAtOk(users: seq<User>, userSeq: int, k: nat)
    requires k < |users| && UsersOk(users, userSeq)
    ensures UsersOk(RemoveAt(users, k), userSeq)
    ensures forall u :: u in RemoveAt(users, k) <==> u in users && u.id != users[k].id
  {
    var r := RemoveAt(users, k);
    forall i, j | 0 <= i < j < |r| ensures r[i].username != r[j].username && r[i].id != r[j].id {
      var a := if i < k then i else i + 1;
      var b := if j < k then j else j + 1;
      assert r[i] == users[a] && r[j] == users[b] && a < b;
    }
    RemoveAtMembers(users, userSeq, k);
  }

  lemma RemoveAtMembers(users: seq<User>, userSeq: int, k: nat)
    requires k < |users| && UsersOk(users, userSeq)
    ensures forall u :: u in RemoveAt(users, k) <==> u in users && u.id != users[k].id
  {
    var r := RemoveAt(users, k);
    forall u ensures u in r <==> u in users && u.id != users[k].id {
      if u in r {
        var i :| 0 <= i < |r| && r[i] == u;
        var a := if i < k then i else i + 1;
        assert users[a] == u && a != k;
        if a < k { assert users[a].id != users[k].id; } else { assert users[k].id != users[a].id; }
      }
      if u in users && u.id != users[k].id {
        var a :| 0 <= a < |users| && users[a] == u;
        assert a != k;
        var i := if a < k then a else a - 1;
        assert r[i] == u;
      }
    }
  }

  /** Appending a row with a new name and the next id keeps the table well
      formed. */
  lemma AppendOk(users: seq<User>, userSeq: int, u: User)
    requires UsersOk(users, userSeq) && u.id == userSeq
    requires forall v :: v in users ==> v.username != u.username
    ensures UsersOk(users + [u], userSeq + 1)
    ensures forall v :: v in users ==> v in users + [u]
  {
    var r := users + [u];
    forall i, j | 0 <= i < j < |r| ensures r[i].username != r[j].username && r[i].id != r[j].id {
      if j == |users| {
        assert r[i] in users;
      } else {
        assert r[i] == users[i] && r[j] == users[j];
      }
    }
  }

  /** The table after the user with that id gets a new hash: every other
      column and every other row is kept. */
  function WithHash(users: seq<User>, id: int, h: string): (r: seq<User>)
    ensures |r| == |users|
    ensures forall i :: 0 <= i < |users| ==>
      && r[i].id == users[i].id && r[i].username == users[i].username && r[i].role == users[i].role
      && r[i].passwordHash == (if users[i].id == id then h else users[i].passwordHash)
  {
    seq(|users|, i requires 0 <= i < |users| =>
      if users[i].id == id then users[i].(passwordHash := h) else users[i])
  }

  /** A new hash keeps the table well formed and every user id. */
  lemma WithHashOk(users: seq<User>, userSeq: int, id: int, h: string)
    requires UsersOk(users, userSeq)
    ensures UsersOk(WithHash(users, id, h), userSeq)
    ensures forall u :: u in users ==> HasUser(WithHash(users, id, h), u.id)
  {
    var r := WithHash(users, id, h);
    forall u | u in r ensures u.id < userSeq {
      var k :| 0 <= k < |r| && r[k] == u;
      assert users[k] in users;
    }
    forall u | u in users ensures HasUser(r, u.id) {
      var k :| 0 <= k < |users| && users[k] == u;
      assert r[k] in r;
    }
  }

  /** The outcome of `change_password` before anything is written: 422 for a
      new password under six characters, 401 when the current password does
      not verify against the caller's hash. */
  function ChangeCheck(current: User, req: PasswordChangeRequest, verify: (string, string) -> bool): (r: Option<HttpError>)
    ensures r.None? <==> |req.newPassword| >= MinPasswordLength && verify(req.currentPassword, current.passwordHash)
    ensures |req.newPassword| < MinPasswordLength ==> r.value.status == Unprocessable
    ensures |req.newPassword| >= MinPasswordLength && !verify(req.currentPassword, current.passwordHash) ==>
      r.value.status == Unauthorized
  {
    if |req.newPassword| < MinPasswordLength then
      Some(HttpError(Unprocessable, "new_password should have at least 6 characters"))
    else if !verify(req.currentPassword, current.passwordHash) then
      Some(HttpError(Unauthorized, "Current password is incorrect"))
    else None
  }

  /** Messages keep their sender when every user id survives. */
  lemma SendersKept(messages: seq<DriverMessage>, buses: seq<Bus>, alerts: seq<Alert>, before: seq<User>, after: seq<User>)
    requires forall m :: m in messages ==> MessageRefsOk(m, buses, alerts, before)
    requires forall u :: u in before ==> HasUser(after, u.id)
    ensures forall m :: m in messages ==> MessageRefsOk(m, buses, alerts, after)
  {
    forall m | m in messages ensures MessageRefsOk(m, buses, alerts, after) {
      var v :| v in before && v.id == m.sentByUserId;
      assert HasUser(after, v.id);
    }
  }

  /** Messages keep their sender when only a user nobody's message names
      goes. */
  lemma SendersKeptWithout(messages: seq<DriverMessage>, buses: seq<Bus>, alerts: seq<Alert>,
                           before: seq<User>, after: seq<User>, gone: int)
    requires forall m :: m in messages ==> MessageRefsOk(m, buses, alerts, before)
    requires forall m :: m in messages ==> m.sentByUserId != gone
    requires forall u :: u in before && u.id != gone ==> u in after
    ensures forall m :: m in messages ==> MessageRefsOk(m, buses, alerts, after)
  {
    forall m | m in messages ensures MessageRefsOk(m, buses, alerts, after) {
      var v :| v in before && v.id == m.sentByUserId;
      assert v in after;
    }
  }

  /** The users `bootstrap_default_users` creates, in order. */
  const DefaultUsers: seq<(string, string, string)> := [("admin", "admin123", AdminRole), ("operator1", "operator123", OperatorRole)]

  /** The rows the bootstrap loop has written after its first k steps on an
      empty table. */
  function BootRows(k: nat, first: int, hash: string -> string): (r: seq<User>)
    requires k <= |DefaultUsers|
    ensures |r| == k
    ensures forall i :: 0 <= i < k ==>
      r[i] == User(first + i, DefaultUsers[i].0, hash(DefaultUsers[i].1), DefaultUsers[i].2)
  {
    seq(k, i requires 0 <= i < k => User(first + i, DefaultUsers[i].0, hash(DefaultUsers[i].1), DefaultUsers[i].2))
  }

  /** The two default users differ in name and in role. */
  lemma BootstrapUsers(first: int, hash: string -> string)
    ensures var r := BootRows(2, first, hash);
      && r[0].username == "admin" && r[0].role == AdminRole && r[0].id == first
      && r[1].username == "operator1" && r[1].role == OperatorRole && r[1].id == first + 1
      && r[0].username != r[1].username
  {
    var r := BootRows(2, first, hash);
    assert r[0].username[0] == 'a' && r[1].username[0] == 'o';
  }

  /** The writing routes. Each reads and writes the users table of an open
      session; an error leaves the table as it was. */
  class Routes {
    const store: Store

    constructor (s: Store)
      ensures store == s
    {
      store := s;
    }

    /** `create_user`: on success exactly one row is appended, with the next
        id, the name and role given and the hash of the password; the
        response is that row. */
    method CreateUser(current: User, body: UserCreateBody, hash: string -> string) returns (r: Result<UserOut>)
      requires store.Valid()
      modifies store`users, store`userSeq
      ensures store.Valid()
      ensures var check := CreateCheck(old(store.users), current, body);
        && (check.Err? ==> r == Err(check.error) && store.users == old(store.users) && store.userSeq == old(store.userSeq))
        && (check.Ok? ==>
              var u := User(old(store.userSeq), check.value.username, hash(check.value.password), check.value.role);
              && store.users == old(store.users) + [u]
              && store.userSeq == old(store.userSeq) + 1
              && r == Ok(Out(u)))
    {
      var check := CreateCheck(store.users, current, body);
      if check.Err? {
        return Err(check.error);
      }
      var u := AddUser(check.value.username, check.value.password, check.value.role, hash);
      r := Ok(Out(u));
    }

    /** `db.add(User(...))` and commit: the row with the next id, the name and
        role and the hash of the password goes last. */
    method AddUser(username: string, password: string, role: string, hash: string -> string) returns (u: User)
      requires store.Valid()
      requires forall v :: v in store.users ==> v.username != username
      modifies store`users, store`userSeq
      ensures store.Valid()
      ensures u == User(old(store.userSeq), username, hash(password), role)
      ensures store.users == old(store.users) + [u] && store.userSeq == old(store.userSeq) + 1
    {
      u := User(store.userSeq, username, hash(password), role);
      ghost var users0 := store.users;
      AppendOk(users0, store.userSeq, u);
      store.users := store.users + [u];
      store.userSeq := store.userSeq + 1;
      SendersKept(store.messages, store.buses, store.alerts, users0, store.users);
    }

    /** `delete_user`: on success only the row of that id goes. */
    method DeleteUser(current: User, userId: int) returns (r: Result<string>)
      requires store.Valid()
      modifies store`users
      ensures store.Valid()
      ensures var check := DeleteCheck(old(store.users), store.messages, current, userId);
        && (check.Some? ==> r == Err(check.value) && store.users == old(store.users))
        && (check.None? ==>
              && r == Ok("User deleted")
              && store.users == RemoveAt(old(store.users), UserIndex(old(store.users), userId).value)
              && forall u :: u in store.users <==> u in old(store.users) && u.id != userId)
    {
      var check := DeleteCheck(store.users, store.messages, current, userId);
      if check.Some? {
        return Err(check.value);
      }
      var k := UserIndex(store.users, userId).value;
      ghost var users0 := store.users;
      RemoveAtOk(users0, store.userSeq, k);
      store.users := RemoveAt(store.users, k);
      SendersKeptWithout(store.messages, store.buses, store.alerts, users0, store.users, userId);
      r := Ok("User deleted");
    }

    /** `change_password`: on success the caller's row, and no other row or
        column, takes the hash of the new password. */
    method ChangePassword(current: User, req: PasswordChangeRequest, verify: (string, string) -> bool,
                          hash: string -> string) returns (r: Result<string>)
      requires store.Valid() && current in store.users
      modifies store`users
      ensures store.Valid()
      ensures var check := ChangeCheck(current, req, verify);
        && (check.Some? ==> r == Err(check.value) && store.users == old(store.users))
        && (check.None? ==>
              && r == Ok("Password changed successfully")
              && store.users == WithHash(old(store.users), current.id, hash(req.newPassword)))
    {
      var check := ChangeCheck(current, req, verify);
      if check.Some? {
        return Err(check.value);
      }
      ghost var users0 := store.users;
      WithHashOk(users0, store.userSeq, current.id, hash(req.newPassword));
      store.users := WithHash(store.users, current.id, hash(req.newPassword));
      SendersKept(store.messages, store.buses, store.alerts, users0, store.users);
      r := Ok("Password changed successfully");
    }

    /** `bootstrap_default_users`: a table with any row is left alone; an
        empty table receives admin (role admin) and operator1 (role operator),
        in that order, with the next two ids. */
    method BootstrapDefaultUsers(hash: string -> string)
      requires store.Valid()
      modifies store`users, store`userSeq
      ensures store.Valid()
      ensures old(store.users) != [] ==> store.users == old(store.users) && store.userSeq == old(store.userSeq)
      ensures old(store.users) == [] ==>
        && store.users == BootRows(2, old(store.userSeq), hash)
        && store.userSeq == old(store.userSeq) + 2
    {
      if |store.users| > 0 {
        return;
      }
      ghost var first := store.userSeq;
      BootstrapUsers(first, hash);
      for k := 0 to |DefaultUsers|
        invariant store.users == BootRows(k, first, hash) && store.userSeq == first + k
        invariant store.Valid()
      {
        var (username, password, role) := DefaultUsers[k];
        assert forall u :: u in store.users ==> u.username != username;
        if FindUserByName(store.users, username).None? {
          var u := AddUser(username, password, role, hash);
        } else {
          assert false;
        }
      }
    }
  }
}
