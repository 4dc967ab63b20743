/**
 * The session handlers: login, token verification and logout. `checkPassword`
 * stands for `bcrypt.compare(password, hash)` and `sign` for `jwt.sign` with
 * the server's secret and expiry; both are parameters of the model.
 */
module AuthController {
  import opened Wrappers
  import opened Seqs
  import opened Store
  import AuthMiddleware

  const CredentialsRequired := "Usuario y contraseña son requeridos."
  const InvalidCredentials := "Credenciales inválidas."
  const AccountDisabled := "Usuario desactivado. Contacte al administrador."

  /** The `user` object the auth handlers answer with. */
  datatype Account = Account(id: int, username: string, role: string)

  /** The `data` of a successful login. */
  datatype Session = Session(token: string, user: Account)

  /** `WHERE username = $1`: an exact, case-sensitive match. */
  function UsernameIs(name: string): User -> bool {
    (u: User) => u.username == name
  }

  /** The JWT payload of a login: the stored row's id, username, role and active flag. */
  function TokenClaims(u: User): (c: Claims)
    ensures c.id == u.id && c.username == u.username && c.role == u.role && c.active == u.active
  {
    Claims(u.id, u.username, u.role, u.active)
  }

  /**
   * The checks of login, in the source's order: both fields present, a row
   * with that username, the row active, the password matching its hash.
   * On success the data is the matching row.
   */
  function LoginDecision(us: seq<User>, username: Option<string>, password: Option<string>,
                         checkPassword: (string, string) -> bool): (r: Reply<User>)
    ensures (username.None? || username.value == "" || password.None? || password.value == "") ==>
      r == Reply(BadRequest, CredentialsRequired, None)
    ensures r.status == Ok ==>
      && username.Some? && password.Some? && username.value != "" && password.value != ""
      && r.data.Some? && r.data.value in us && r.data.value.username == username.value
      && r.data.value.active && checkPassword(password.value, r.data.value.passwordHash)
    ensures r.status != Ok ==>
      r in {Reply(BadRequest, CredentialsRequired, None), Reply(Unauthorized, InvalidCredentials, None),
            Reply(Forbidden, AccountDisabled, None)}
    ensures (&& username.Some? && username.value != "" && password.Some? && password.value != ""
             && !UsernameTaken(us, username.value, None)) ==>
      r == Reply(Unauthorized, InvalidCredentials, None)
  {
    if username.None? || username.value == "" || password.None? || password.value == "" then
      Reply(BadRequest, CredentialsRequired, None)
    else
      match IndexWhere(us, UsernameIs(username.value))
      case None => Reply(Unauthorized, InvalidCredentials, None)
      case Some(k) =>
        if !us[k].active then Reply(Forbidden, AccountDisabled, None)
        else if !checkPassword(password.value, us[k].passwordHash) then Reply(Unauthorized, InvalidCredentials, None)
        else Reply(Ok, "", Some(us[k]))
  }

  /**
   * A password that does not match an active account and a username that
   * does not exist get the same answer, so a client cannot tell them apart.
   */
  lemma UnknownUserLikeWrongPassword(us: seq<User>, next: int, absent: string, k: int, password: string,
                                     checkPassword: (string, string) -> bool)
    requires UsersOk(us, next) && 0 <= k < |us|
    requires absent != "" && us[k].username != "" && password != ""
    requires !UsernameTaken(us, absent, None)
    requires us[k].active && !checkPassword(password, us[k].passwordHash)
    ensures LoginDecision(us, Some(absent), Some(password), checkPassword)
         == LoginDecision(us, Some(us[k].username), Some(password), checkPassword)
         == Reply(Unauthorized, InvalidCredentials, None)
  {
    UniqueUsername(us, next, k);
    StoredUsernameFound(us, k);
  }

  /** A disabled account is refused with 403 whatever the password, so it is never compared. */
  lemma DisabledIgnoresPassword(us: seq<User>, next: int, k: int, p1: string, p2: string,
                                checkPassword: (string, string) -> bool)
    requires UsersOk(us, next) && 0 <= k < |us|
    requires us[k].username != "" && p1 != "" && p2 != "" && !us[k].active
    ensures LoginDecision(us, Some(us[k].username), Some(p1), checkPassword)
         == LoginDecision(us, Some(us[k].username), Some(p2), checkPassword)
         == Reply(Forbidden, AccountDisabled, None)
  {
    UniqueUsername(us, next, k);
    StoredUsernameFound(us, k);
  }

  /** An active account with the right password logs in as itself. */
  lemma RightPasswordLogsIn(us: seq<User>, next: int, k: int, password: string,
                            checkPassword: (string, string) -> bool)
    requires UsersOk(us, next) && 0 <= k < |us|
    requires us[k].username != "" && password != "" && us[k].active
    requires checkPassword(password, us[k].passwordHash)
    ensures LoginDecision(us, Some(us[k].username), Some(password), checkPassword) == Reply(Ok, "", Some(us[k]))
  {
    UniqueUsername(us, next, k);
    StoredUsernameFound(us, k);
  }

  /** A username no other row holds is found at its own row. */
  lemma {:induction false} StoredUsernameFound(us: seq<User>, k: int)
    requires 0 <= k < |us|
    requires forall i :: 0 <= i < |us| && i != k ==> us[i].username != us[k].username
    ensures IndexWhere(us, UsernameIs(us[k].username)) == Some(k)
  {
    if k > 0 {
      assert us[0].username != us[k].username;
      StoredUsernameFound(us[1..], k - 1);
    }
  }

  /** In a valid table, each row's username is its own. */
  lemma UniqueUsername(us: seq<User>, next: int, k: int)
    requires UsersOk(us, next) && 0 <= k < |us|
    ensures forall i :: 0 <= i < |us| && i != k ==> us[i].username != us[k].username
  {
    forall i | 0 <= i < |us| && i != k ensures us[i].username != us[k].username {
      if i < k {
        assert us[i].username != us[k].username;
      } else {
        assert us[k].username != us[i].username;
      }
    }
  }

  /** POST /auth/login. */
  method Login(db: Database, username: Option<string>, password: Option<string>, ip: string,
               checkPassword: (string, string) -> bool, sign: Claims -> string) returns (r: Reply<Session>)
    requires db.Valid()
    modifies db
    ensures db.Valid()
    ensures var d := LoginDecision(old(db.users), username, password, checkPassword);
      && (d.status != Ok ==> r == Reply(d.status, d.message, None) && unchanged(db))
      && (d.status == Ok ==>
            var u := d.data.value;
            && r == Reply(Ok, "Login exitoso", Some(Session(sign(TokenClaims(u)), Account(u.id, u.username, u.role))))
            && db.log == old(db.log) + [LogEntry(u.id, LoginAction, "Usuario inició sesión", Some(ip))]
            && db.users == old(db.users) && db.brands == old(db.brands) && db.models == old(db.models)
            && db.uploads == old(db.uploads) && db.nextUserId == old(db.nextUserId)
            && db.nextBrandId == old(db.nextBrandId) && db.nextModelId == old(db.nextModelId))
  {
    var d := LoginDecision(db.users, username, password, checkPassword);
    if d.status != Ok {
      return Reply(d.status, d.message, None);
    }
    var u := d.data.value;
    var token := sign(TokenClaims(u));
    db.Record(LogEntry(u.id, LoginAction, "Usuario inició sesión", Some(ip)));
    r := Reply(Ok, "Login exitoso", Some(Session(token, Account(u.id, u.username, u.role))));
  }

  /** GET /auth/verify: the stored row of the token's user, which may have changed since the login. */
  function VerifyToken(db: Database, claims: Claims): (r: Reply<Account>)
    reads db
    ensures r.status == NotFound <==> !HasUser(db.users, claims.id)
    ensures r.status == NotFound ==> r == Reply(NotFound, "Usuario no encontrado.", None)
    ensures r.status == Forbidden ==> r == Reply(Forbidden, "Usuario desactivado.", None)
    ensures r.status == Ok ==>
      exists u :: u in db.users && u.id == claims.id && u.active && r.data == Some(Account(u.id, u.username, u.role))
    ensures r.status == Forbidden ==> exists u :: u in db.users && u.id == claims.id && !u.active
    ensures r.status in {Ok, NotFound, Forbidden}
  {
    match IndexWhere(db.users, UserIdIs(claims.id))
    case None => Reply(NotFound, "Usuario no encontrado.", None)
    case Some(k) =>
      var u := db.users[k];
      if !u.active then Reply(Forbidden, "Usuario desactivado.", None)
      else Reply(Ok, "", Some(Account(u.id, u.username, u.role)))
  }

  /**
   * In a valid store ids are unique, so verify answers for a stored user's
   * claims with that row: its username and role when it is active, 403 when not.
   */
  lemma VerifyStoredUser(db: Database, k: int, claims: Claims)
    requires UsersOk(db.users, db.nextUserId) && 0 <= k < |db.users| && claims.id == db.users[k].id
    ensures var u := db.users[k];
      && (u.active ==> VerifyToken(db, claims) == Reply(Ok, "", Some(Account(u.id, u.username, u.role))))
      && (!u.active ==> VerifyToken(db, claims) == Reply(Forbidden, "Usuario desactivado.", None))
  {
    forall j | 0 <= j < k ensures !UserIdIs(claims.id)(db.users[j]) {
      assert db.users[j].id != db.users[k].id;
    }
    FirstWhere(db.users, UserIdIs(claims.id), k);
  }

  /** The token a login issues verifies, while nothing has changed, as the account that logged in. */
  lemma LoginThenVerify(db: Database, username: Option<string>, password: Option<string>,
                        checkPassword: (string, string) -> bool)
    requires UsersOk(db.users, db.nextUserId)
    requires LoginDecision(db.users, username, password, checkPassword).status == Ok
    ensures var u := LoginDecision(db.users, username, password, checkPassword).data.value;
      VerifyToken(db, TokenClaims(u)) == Reply(Ok, "", Some(Account(u.id, u.username, u.role)))
  {
    var u := LoginDecision(db.users, username, password, checkPassword).data.value;
    var k :| 0 <= k < |db.users| && db.users[k] == u;
    VerifyStoredUser(db, k, TokenClaims(u));
  }

  /**
   * The middleware reads only the token, never the store: a token issued
   * before its user was disabled still passes `authenticate`, and only the
   * handler that looks the row up (here verify) refuses it.
   */
  lemma StaleTokenPassesMiddleware(db: Database, header: Option<string>, verify: string -> Option<Claims>,
                                   claims: Claims, k: int)
    requires AuthMiddleware.HeaderClaims(header, verify) == Some(claims) && claims.active
    requires 0 <= k < |db.users| && db.users[k].id == claims.id && !db.users[k].active
    requires forall i :: 0 <= i < |db.users| && i != k ==> db.users[i].id != claims.id
    ensures AuthMiddleware.Run(AuthMiddleware.Authenticate, header, verify, None) == AuthMiddleware.Pass(Some(claims))
    ensures VerifyToken(db, claims) == Reply(Forbidden, "Usuario desactivado.", None)
  {
    AuthMiddleware.AuthenticateDecides(header, verify);
    assert IndexWhere(db.users, UserIdIs(claims.id)) == Some(k);
  }

  /** POST /auth/logout: one LOGOUT entry for the caller, and success. */
  method Logout(db: Database, actor: Claims, ip: string) returns (r: Reply<()>)
    requires db.Valid()
    modifies db
    ensures db.Valid()
    ensures r == Reply(Ok, "Logout exitoso", None)
    ensures db.log == old(db.log) + [LogEntry(actor.id, LogoutAction, "Usuario cerró sesión", Some(ip))]
    ensures db.users == old(db.users) && db.brands == old(db.brands) && db.models == old(db.models)
    ensures db.uploads == old(db.uploads) && db.nextUserId == old(db.nextUserId)
    ensures db.nextBrandId == old(db.nextBrandId) && db.nextModelId == old(db.nextModelId)
  {
    db.Record(LogEntry(actor.id, LogoutAction, "Usuario cerró sesión", Some(ip)));
    r := Reply(Ok, "Logout exitoso", None);
  }
}
