/**
 * The user administration handlers: list, look up, create, partial update
 * and delete. Each write runs its checks in the source's order and touches
 * the store only when all of them pass. Passwords reach the store only
 * through `hash`, which stands for bcrypt.
 */
module UsersController {
  import opened Wrappers
  import opened Text
  import opened Seqs
  import opened Store

  const UserNotFound := "Usuario no encontrado."
  const UsernameExists := "El nombre de usuario ya existe."
  const PasswordTooShort := "La contraseña debe tener al menos 6 caracteres."
  const AdminExists := "Ya existe un administrador en el sistema."

  /** The least password length the handlers accept. */
  const MinPasswordLength := 6

  /**
   * The fields of an update body; `None` where the client left one out, and
   * `role` is `Some(None)` for an explicit `null`.
   */
  datatype UserFields = UserFields(
    username: Option<string>,
    password: Option<string>,
    role: Option<Option<string>>,
    active: Option<bool>)

  /** GET /users: every user without the hash. */
  function GetAllUsers(db: Database): (r: Reply<seq<Profile>>)
    reads db
    ensures r.status == Ok && r.data.Some? && |r.data.value| == |db.users|
    ensures forall p :: p in r.data.value <==> exists u :: u in db.users && u.View() == p
  {
    var ps := seq(|db.users|, i requires 0 <= i < |db.users| reads db => db.users[i].View());
    assert forall p :: p in ps <==> exists u :: u in db.users && u.View() == p by {
      forall p ensures p in ps <==> exists u :: u in db.users && u.View() == p {
        if u :| u in db.users && u.View() == p {
          var i :| 0 <= i < |db.users| && db.users[i] == u;
          assert ps[i] == p;
        }
      }
    }
    Reply(Ok, "", Some(ps))
  }

  /** GET /users/:id. */
  function GetUserById(db: Database, id: int): (r: Reply<Profile>)
    reads db
    ensures r.status == NotFound <==> !HasUser(db.users, id)
    ensures r.status == Ok || r == Reply(NotFound, UserNotFound, None)
    ensures r.status == Ok ==> exists u :: u in db.users && u.id == id && r.data == Some(u.View())
  {
    match IndexWhere(db.users, UserIdIs(id))
    case None => Reply(NotFound, UserNotFound, None)
    case Some(k) => Reply(Ok, "", Some(db.users[k].View()))
  }

  /** `!username || !password || !role`. */
  predicate MissingField(username: Option<string>, password: Option<string>, role: Option<string>) {
    username.None? || username.value == "" || password.None? || password.value == ""
    || role.None? || role.value == ""
  }

  /** POST /users; `hash` stands for `bcrypt.hash`. */
  method CreateUser(db: Database, actor: Claims, username: Option<string>, password: Option<string>,
                    role: Option<string>, hash: string -> string) returns (r: Reply<Profile>)
    requires db.Valid()
    modifies db
    ensures db.Valid()
    ensures MissingField(username, password, role) ==>
      r == Reply(BadRequest, "Todos los campos son requeridos.", None) && unchanged(db)
    ensures !MissingField(username, password, role) && !ValidRole(role.value) ==>
      r == Reply(BadRequest, "Rol inválido. Use \"admin\" o \"user\".", None) && unchanged(db)
    ensures (&& !MissingField(username, password, role) && ValidRole(role.value)
             && Utf16Length(password.value) < MinPasswordLength) ==>
      r == Reply(BadRequest, PasswordTooShort, None) && unchanged(db)
    ensures (&& !MissingField(username, password, role) && ValidRole(role.value)
             && Utf16Length(password.value) >= MinPasswordLength && UsernameTaken(old(db.users), username.value, None)) ==>
      r == Reply(Conflict, UsernameExists, None) && unchanged(db)
    ensures (&& !MissingField(username, password, role) && ValidRole(role.value)
             && Utf16Length(password.value) >= MinPasswordLength && !UsernameTaken(old(db.users), username.value, None)
             && role.value == AdminRole && AdminOtherThan(old(db.users), None)) ==>
      r == Reply(Conflict, AdminExists, None) && unchanged(db)
    ensures (&& !MissingField(username, password, role) && ValidRole(role.value)
             && Utf16Length(password.value) >= MinPasswordLength && !UsernameTaken(old(db.users), username.value, None)
             && !(role.value == AdminRole && AdminOtherThan(old(db.users), None))) ==>
      var u := User(old(db.nextUserId), username.value, hash(password.value), role.value, true);
      && r == Reply(Created, "Usuario creado exitosamente", Some(u.View()))
      && db.users == old(db.users) + [u] && db.nextUserId == old(db.nextUserId) + 1
      && db.log == old(db.log) + [LogEntry(actor.id, CreateUserAction,
                                           "Creó usuario: " + username.value + " (" + role.value + ")", None)]
      && db.brands == old(db.brands) && db.models == old(db.models) && db.uploads == old(db.uploads)
      && db.nextBrandId == old(db.nextBrandId) && db.nextModelId == old(db.nextModelId)
  {
    if MissingField(username, password, role) {
      return Reply(BadRequest, "Todos los campos son requeridos.", None);
    }
    if !ValidRole(role.value) {
      return Reply(BadRequest, "Rol inválido. Use \"admin\" o \"user\".", None);
    }
    if Utf16Length(password.value) < MinPasswordLength {
      return Reply(BadRequest, PasswordTooShort, None);
    }
    if UsernameTaken(db.users, username.value, None) {
      return Reply(Conflict, UsernameExists, None);
    }
    if role.value == AdminRole && AdminOtherThan(db.users, None) {
      return Reply(Conflict, AdminExists, None);
    }
    var u := User(db.nextUserId, username.value, hash(password.value), role.value, true);
    db.AddUser(u);
    db.Record(LogEntry(actor.id, CreateUserAction, "Creó usuario: " + username.value + " (" + role.value + ")", None));
    r := Reply(Created, "Usuario creado exitosamente", Some(u.View()));
  }

  /** The username check of updateUser: a supplied name that another user holds. */
  predicate UsernameClash(us: seq<User>, id: int, f: UserFields) {
    f.username.Some? && UsernameTaken(us, f.username.value, Some(id))
  }

  /** A non-empty password under the minimum; the empty password means "keep the old one". */
  predicate ShortPassword(f: UserFields) {
    f.password.Some? && f.password.value != "" && Utf16Length(f.password.value) < MinPasswordLength
  }

  /**
   * The minimum counts UTF-16 code units, as `password.length` does: three
   * characters beyond the Basic Multilingual Plane are six units and pass.
   */
  lemma {:induction false} AstralPasswordIsLongEnough()
    ensures Utf16Length("\U{1F600}\U{1F600}\U{1F600}") == 6
    ensures !ShortPassword(UserFields(None, Some("\U{1F600}\U{1F600}\U{1F600}"), None, None))
  {
    var s := "\U{1F600}\U{1F600}\U{1F600}";
    assert s[1..][1..][1..] == "";
  }

  /** A supplied role that `['admin', 'user'].includes` rejects, an explicit `null` among them. */
  predicate BadRole(f: UserFields) {
    f.role.Some? && (f.role.value.None? || !ValidRole(f.role.value.value))
  }

  predicate IsAdmin(us: seq<User>, id: int) {
    exists u :: u in us && u.id == id && u.role == AdminRole
  }

  /** Promoting a user who is not the admin while another user is. */
  predicate PromotionClash(us: seq<User>, id: int, f: UserFields) {
    f.role == Some(Some(AdminRole)) && !IsAdmin(us, id) && AdminOtherThan(us, Some(id))
  }

  /**
   * The row updateUser writes: supplied fields replace stored ones; an empty
   * password keeps the hash. An explicit `null` role never gets here (BadRole
   * refuses it first), so it keeps the stored role.
   */
  function PatchedUser(u: User, f: UserFields, hash: string -> string): (r: User)
    ensures r.id == u.id
    ensures r.username == f.username.GetOr(u.username)
    ensures r.passwordHash == if f.password.Some? && f.password.value != "" then hash(f.password.value) else u.passwordHash
    ensures r.role == if f.role.Some? && f.role.value.Some? then f.role.value.value else u.role
    ensures r.active == f.active.GetOr(u.active)
  {
    User(u.id, f.username.GetOr(u.username),
         if f.password.Some? && f.password.value != "" then hash(f.password.value) else u.passwordHash,
         if f.role.Some? && f.role.value.Some? then f.role.value.value else u.role, f.active.GetOr(u.active))
  }

  /** The `SET` list of updateUser, built one supplied field at a time. */
  method PendingUser(u: User, f: UserFields, hash: string -> string) returns (row: User)
    ensures row == PatchedUser(u, f, hash)
  {
    row := u;
    if f.username.Some? {
      row := row.(username := f.username.value);
    }
    if f.password.Some? && |f.password.value| > 0 {
      row := row.(passwordHash := hash(f.password.value));
    }
    if f.role.Some? && f.role.value.Some? {
      row := row.(role := f.role.value.value);
    }
    if f.active.Some? {
      row := row.(active := f.active.value);
    }
  }

  /** PUT /users/:id. */
  method UpdateUser(db: Database, actor: Claims, id: int, f: UserFields, hash: string -> string)
    returns (r: Reply<Profile>)
    requires db.Valid()
    modifies db
    ensures db.Valid()
    ensures !HasUser(old(db.users), id) ==> r == Reply(NotFound, UserNotFound, None) && unchanged(db)
    ensures HasUser(old(db.users), id) && UsernameClash(old(db.users), id, f) ==>
      r == Reply(Conflict, UsernameExists, None) && unchanged(db)
    ensures (&& HasUser(old(db.users), id) && !UsernameClash(old(db.users), id, f) && ShortPassword(f)) ==>
      r == Reply(BadRequest, PasswordTooShort, None) && unchanged(db)
    ensures (&& HasUser(old(db.users), id) && !UsernameClash(old(db.users), id, f) && !ShortPassword(f)
             && BadRole(f)) ==>
      r == Reply(BadRequest, "Rol inválido.", None) && unchanged(db)
    ensures (&& HasUser(old(db.users), id) && !UsernameClash(old(db.users), id, f) && !ShortPassword(f)
             && !BadRole(f) && PromotionClash(old(db.users), id, f)) ==>
      r == Reply(Conflict, AdminExists, None) && unchanged(db)
    ensures (&& HasUser(old(db.users), id) && !UsernameClash(old(db.users), id, f) && !ShortPassword(f)
             && !BadRole(f) && !PromotionClash(old(db.users), id, f)) ==>
      var k := IndexWhere(old(db.users), UserIdIs(id)).value;
      var row := PatchedUser(old(db.users)[k], f, hash);
      && r == Reply(Ok, "Usuario actualizado exitosamente", Some(row.View()))
      && db.users == old(db.users)[k := row]
      && db.log == old(db.log) + [LogEntry(actor.id, UpdateUserAction, "Actualizó usuario ID: " + IntText(id), None)]
      && db.brands == old(db.brands) && db.models == old(db.models) && db.uploads == old(db.uploads)
      && db.nextUserId == old(db.nextUserId) && db.nextBrandId == old(db.nextBrandId)
      && db.nextModelId == old(db.nextModelId)
  {
    var found := IndexWhere(db.users, UserIdIs(id));
    if found.None? {
      return Reply(NotFound, UserNotFound, None);
    }
    var k := found.value;
    if UsernameClash(db.users, id, f) {
      return Reply(Conflict, UsernameExists, None);
    }
    if ShortPassword(f) {
      return Reply(BadRequest, PasswordTooShort, None);
    }
    if BadRole(f) {
      return Reply(BadRequest, "Rol inválido.", None);
    }
    assert IsAdmin(db.users, id) <==> db.users[k].role == AdminRole;
    if f.role == Some(Some(AdminRole)) && db.users[k].role != AdminRole && AdminOtherThan(db.users, Some(id)) {
      return Reply(Conflict, AdminExists, None);
    }
    var row := PendingUser(db.users[k], f, hash);
    OwnRowFree(db.users, db.nextUserId, k);
    db.SetUser(k, row);
    db.Record(LogEntry(actor.id, UpdateUserAction, "Actualizó usuario ID: " + IntText(id), None));
    r := Reply(Ok, "Usuario actualizado exitosamente", Some(row.View()));
  }

  /** An update that leaves the password empty keeps the stored hash. */
  lemma EmptyPasswordKeepsHash(u: User, f: UserFields, hash: string -> string)
    requires f.password.None? || f.password == Some("")
    ensures PatchedUser(u, f, hash).passwordHash == u.passwordHash
  {
  }

  /** DELETE /users/:id: never the caller's own account, checked before the lookup. */
  method DeleteUser(db: Database, actor: Claims, id: int) returns (r: Reply<()>)
    requires db.Valid()
    modifies db
    ensures db.Valid()
    ensures id == actor.id ==> r == Reply(BadRequest, "No puedes eliminar tu propia cuenta.", None) && unchanged(db)
    ensures id != actor.id && !HasUser(old(db.users), id) ==> r == Reply(NotFound, UserNotFound, None) && unchanged(db)
    ensures id != actor.id && HasUser(old(db.users), id) ==>
      && r == Reply(Ok, "Usuario eliminado exitosamente", None)
      && db.users == Filter(old(db.users), OtherUser(id))
      && (exists u :: u in old(db.users) && u.id == id &&
            db.log == old(db.log) + [LogEntry(actor.id, DeleteUserAction,
                                              "Eliminó usuario: " + u.username + " (" + u.role + ")", None)])
      && db.brands == old(db.brands) && db.models == old(db.models) && db.uploads == old(db.uploads)
      && db.nextUserId == old(db.nextUserId) && db.nextBrandId == old(db.nextBrandId)
      && db.nextModelId == old(db.nextModelId)
  {
    if id == actor.id {
      return Reply(BadRequest, "No puedes eliminar tu propia cuenta.", None);
    }
    if !HasUser(db.users, id) {
      return Reply(NotFound, UserNotFound, None);
    }
    var u :| u in db.users && u.id == id;
    db.RemoveUser(id);
    db.Record(LogEntry(actor.id, DeleteUserAction, "Eliminó usuario: " + u.username + " (" + u.role + ")", None));
    r := Reply(Ok, "Usuario eliminado exitosamente", None);
  }

  /** Deleting a user removes exactly the user with that id, and the caller's own account survives. */
  lemma DeleteUserRemovesOnlyIt(us: seq<User>, id: int, actor: Claims)
    requires id != actor.id
    ensures forall u :: u in Filter(us, OtherUser(id)) <==> u in us && u.id != id
    ensures forall u :: u in us && u.id == actor.id ==> u in Filter(us, OtherUser(id))
  {
  }
}
