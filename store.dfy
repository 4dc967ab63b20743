/**
 * The relational store behind the controllers, held in memory: the `users`,
 * `brands`, `models` and `activity_logs` tables, the `./uploads` directory,
 * and the SERIAL counters that hand out ids. A table is a sequence of rows
 * in insertion order; queries that promise an order sort explicitly.
 * Timestamps (`created_at`, `updated_at`) are not modelled.
 */
module Store {
  import opened Wrappers
  import opened Text
  import opened Seqs

  /** The HTTP statuses the handlers answer with. Store failures (500) are not modelled. */
  datatype Status = Ok | Created | BadRequest | Unauthorized | Forbidden | NotFound | Conflict {
    function Code(): int {
      match this
      case Ok => 200
      case Created => 201
      case BadRequest => 400
      case Unauthorized => 401
      case Forbidden => 403
      case NotFound => 404
      case Conflict => 409
    }
  }

  /** The `{success, message, data}` envelope; `success` is `status` being 200 or 201. */
  datatype Reply<T> = Reply(status: Status, message: string, data: Option<T>) {
    predicate Success() {
      status == Ok || status == Created
    }
  }

  /** What a verified token carries, and what the middleware puts in `req.user`. */
  datatype Claims = Claims(id: int, username: string, role: string, active: bool)

  datatype User = User(id: int, username: string, passwordHash: string, role: string, active: bool) {
    /** The columns the user queries return: everything but the hash. */
    function View(): Profile {
      Profile(id, username, role, active)
    }
  }

  datatype Profile = Profile(id: int, username: string, role: string, active: bool)

  datatype Brand = Brand(id: int, name: string)

  /**
   * A row of `models`. `imageUrl` and `possiblePasswords` are `None` where the
   * column holds NULL.
   */
  datatype Model = Model(
    id: int,
    brandId: int,
    name: string,
    imageUrl: Option<string>,
    resetInstructions: Option<string>,
    possiblePasswords: Option<string>)

  /** The `action` column of `activity_logs`. */
  datatype Action =
    | CreateUserAction | UpdateUserAction | DeleteUserAction
    | CreateBrandAction | UpdateBrandAction | DeleteBrandAction
    | CreateModelAction | UpdateModelAction | DeleteModelAction
    | UploadImageAction | DeleteImageAction
    | LoginAction | LogoutAction
  {
    function Tag(): string {
      match this
      case CreateUserAction => "CREATE_USER"
      case UpdateUserAction => "UPDATE_USER"
      case DeleteUserAction => "DELETE_USER"
      case CreateBrandAction => "CREATE_BRAND"
      case UpdateBrandAction => "UPDATE_BRAND"
      case DeleteBrandAction => "DELETE_BRAND"
      case CreateModelAction => "CREATE_MODEL"
      case UpdateModelAction => "UPDATE_MODEL"
      case DeleteModelAction => "DELETE_MODEL"
      case UploadImageAction => "UPLOAD_IMAGE"
      case DeleteImageAction => "DELETE_IMAGE"
      case LoginAction => "LOGIN"
      case LogoutAction => "LOGOUT"
    }
  }

  /** A row of `activity_logs`; `ip` is filled only by login and logout. */
  datatype LogEntry = LogEntry(userId: int, action: Action, details: string, ip: Option<string>)

  /** An entry of the upload directory: `fs.statSync` size and birth time. */
  datatype StoredFile = StoredFile(name: string, size: int, created: int)

  const AdminRole := "admin"
  const UserRole := "user"

  predicate ValidRole(role: string) {
    role == AdminRole || role == UserRole
  }

  /** At most one user holds the admin role. */
  predicate AtMostOneAdmin(us: seq<User>) {
    forall i, j :: 0 <= i < j < |us| ==> !(us[i].role == AdminRole && us[j].role == AdminRole)
  }

  predicate UsersOk(us: seq<User>, next: int) {
    && 1 <= next
    && (forall i :: 0 <= i < |us| ==> 1 <= us[i].id < next && ValidRole(us[i].role))
    && (forall i, j :: 0 <= i < j < |us| ==> us[i].id != us[j].id && us[i].username != us[j].username)
    && AtMostOneAdmin(us)
  }

  /** No two brands share a name ignoring case. */
  predicate BrandNamesUnique(bs: seq<Brand>) {
    forall i, j :: 0 <= i < j < |bs| ==> Lower(bs[i].name) != Lower(bs[j].name)
  }

  predicate BrandsOk(bs: seq<Brand>, next: int) {
    && 1 <= next
    && (forall i :: 0 <= i < |bs| ==> 1 <= bs[i].id < next)
    && (forall i, j :: 0 <= i < j < |bs| ==> bs[i].id != bs[j].id)
    && BrandNamesUnique(bs)
  }

  predicate HasBrand(bs: seq<Brand>, id: int) {
    exists b :: b in bs && b.id == id
  }

  /** Every model belongs to an existing brand (the foreign key). */
  predicate ModelsOk(ms: seq<Model>, bs: seq<Brand>, next: int) {
    && 1 <= next
    && (forall i :: 0 <= i < |ms| ==> 1 <= ms[i].id < next && HasBrand(bs, ms[i].brandId))
    && (forall i, j :: 0 <= i < j < |ms| ==> ms[i].id != ms[j].id)
  }

  /** No two models of one brand share a name ignoring case. */
  predicate ModelNamesUnique(ms: seq<Model>) {
    forall i, j :: 0 <= i < j < |ms| ==>
      !(ms[i].brandId == ms[j].brandId && Lower(ms[i].name) == Lower(ms[j].name))
  }

  predicate FilesOk(fs: seq<StoredFile>) {
    forall i, j :: 0 <= i < j < |fs| ==> fs[i].name != fs[j].name
  }

  /** `SELECT id FROM users WHERE username = $1` (exact match), optionally `AND id != except`. */
  predicate UsernameTaken(us: seq<User>, name: string, except: Option<int>) {
    exists i :: 0 <= i < |us| && us[i].username == name && Some(us[i].id) != except
  }

  /** `SELECT id FROM users WHERE role = 'admin'`, optionally `AND id != except`. */
  predicate AdminOtherThan(us: seq<User>, except: Option<int>) {
    exists i :: 0 <= i < |us| && us[i].role == AdminRole && Some(us[i].id) != except
  }

  /** `SELECT id FROM brands WHERE LOWER(name) = LOWER($1)`, optionally `AND id != except`. */
  predicate BrandNameTaken(bs: seq<Brand>, name: string, except: Option<int>) {
    exists i :: 0 <= i < |bs| && Lower(bs[i].name) == Lower(name) && Some(bs[i].id) != except
  }

  /** `SELECT id FROM models WHERE brand_id = $1 AND LOWER(name) = LOWER($2)`, optionally `AND id != except`. */
  predicate ModelNameTaken(ms: seq<Model>, brandId: int, name: string, except: Option<int>) {
    exists i :: 0 <= i < |ms| && ms[i].brandId == brandId && Lower(ms[i].name) == Lower(name)
      && Some(ms[i].id) != except
  }

  /** `!s || s.trim().length === 0` for an optional request field. */
  predicate Blank(s: Option<string>) {
    s.None? || Trim(s.value) == ""
  }

  predicate HasUser(us: seq<User>, id: int) {
    exists u :: u in us && u.id == id
  }

  predicate HasModel(ms: seq<Model>, id: int) {
    exists m :: m in ms && m.id == id
  }

  /**
   * The `WHERE id = $1` conditions of the lookups and the `WHERE` conditions
   * of the deletes, named so that every statement filters with the same predicate.
   */
  function UserIdIs(id: int): User -> bool {
    (u: User) => u.id == id
  }

  function BrandIdIs(id: int): Brand -> bool {
    (b: Brand) => b.id == id
  }

  function ModelIdIs(id: int): Model -> bool {
    (m: Model) => m.id == id
  }

  function OtherUser(id: int): User -> bool {
    (u: User) => u.id != id
  }

  function OtherBrand(id: int): Brand -> bool {
    (b: Brand) => b.id != id
  }

  function OtherModel(id: int): Model -> bool {
    (m: Model) => m.id != id
  }

  function OfBrand(id: int): Model -> bool {
    (m: Model) => m.brandId == id
  }

  function NotOfBrand(id: int): Model -> bool {
    (m: Model) => m.brandId != id
  }

  function OtherFile(name: string): StoredFile -> bool {
    (f: StoredFile) => f.name != name
  }

  /** Inserting a user that passed createUser's checks keeps the users table valid. */
  lemma AddUserOk(us: seq<User>, n: int, u: User)
    requires UsersOk(us, n) && u.id == n && ValidRole(u.role)
    requires !UsernameTaken(us, u.username, None)
    requires u.role == AdminRole ==> !AdminOtherThan(us, None)
    ensures UsersOk(us + [u], n + 1)
  {
    var nus := us + [u];
    forall i, j | 0 <= i < j < |nus| ensures nus[i].id != nus[j].id && nus[i].username != nus[j].username {
      if j == |us| {
        assert Some(us[i].id) != None;
      }
    }
    forall i, j | 0 <= i < j < |nus| ensures !(nus[i].role == AdminRole && nus[j].role == AdminRole) {
      if j == |us| {
        assert Some(us[i].id) != None;
      }
    }
  }

  /** A stored user's own username and admin role never clash with the rest of the table. */
  lemma OwnRowFree(us: seq<User>, n: int, k: int)
    requires UsersOk(us, n) && 0 <= k < |us|
    ensures !UsernameTaken(us, us[k].username, Some(us[k].id))
    ensures us[k].role == AdminRole ==> !AdminOtherThan(us, Some(us[k].id))
  {
    forall i | 0 <= i < |us| && Some(us[i].id) != Some(us[k].id)
      ensures us[i].username != us[k].username && !(us[i].role == AdminRole && us[k].role == AdminRole)
    {
      assert i != k;
    }
  }

  /** Rewriting a row with updateUser's checks passed keeps the users table valid. */
  lemma SetUserOk(us: seq<User>, n: int, k: int, u: User)
    requires UsersOk(us, n) && 0 <= k < |us| && u.id == us[k].id && ValidRole(u.role)
    requires !UsernameTaken(us, u.username, Some(u.id))
    requires u.role == AdminRole ==> !AdminOtherThan(us, Some(u.id))
    ensures UsersOk(us[k := u], n)
  {
    var nus := us[k := u];
    forall i, j | 0 <= i < j < |nus| ensures nus[i].id != nus[j].id && nus[i].username != nus[j].username {
      if i == k {
        assert Some(us[j].id) != Some(u.id);
      } else if j == k {
        assert Some(us[i].id) != Some(u.id);
      }
    }
    forall i, j | 0 <= i < j < |nus| ensures !(nus[i].role == AdminRole && nus[j].role == AdminRole) {
      if i == k {
        assert Some(us[j].id) != Some(u.id);
      } else if j == k {
        assert Some(us[i].id) != Some(u.id);
      }
    }
  }

  lemma RemoveUserOk(us: seq<User>, n: int, id: int)
    requires UsersOk(us, n)
    ensures UsersOk(Filter(us, OtherUser(id)), n)
  {
    var nus := Filter(us, OtherUser(id));
    FilterPairwise(us, OtherUser(id),
                   (a: User, c: User) => a.id != c.id && a.username != c.username
                                         && !(a.role == AdminRole && c.role == AdminRole));
    forall i | 0 <= i < |nus| ensures 1 <= nus[i].id < n && ValidRole(nus[i].role) {
      assert nus[i] in us;
    }
  }

  lemma AddBrandOk(bs: seq<Brand>, ms: seq<Model>, nb: int, nm: int, b: Brand)
    requires BrandsOk(bs, nb) && ModelsOk(ms, bs, nm)
    requires b.id == nb && !BrandNameTaken(bs, b.name, None)
    ensures BrandsOk(bs + [b], nb + 1) && ModelsOk(ms, bs + [b], nm)
  {
    forall i | 0 <= i < |ms| ensures HasBrand(bs + [b], ms[i].brandId) {
      assert HasBrand(bs, ms[i].brandId);
      var w :| w in bs && w.id == ms[i].brandId;
      assert w in bs + [b];
    }
  }

  lemma SetBrandOk(bs: seq<Brand>, ms: seq<Model>, nb: int, nm: int, k: int, b: Brand)
    requires BrandsOk(bs, nb) && ModelsOk(ms, bs, nm)
    requires 0 <= k < |bs| && b.id == bs[k].id && !BrandNameTaken(bs, b.name, Some(b.id))
    ensures BrandsOk(bs[k := b], nb) && ModelsOk(ms, bs[k := b], nm)
  {
    var nbs := bs[k := b];
    forall i | 0 <= i < |ms| ensures HasBrand(nbs, ms[i].brandId) {
      assert HasBrand(bs, ms[i].brandId);
      var w :| w in bs && w.id == ms[i].brandId;
      var j :| 0 <= j < |bs| && bs[j] == w;
      assert nbs[j] in nbs && nbs[j].id == w.id;
    }
    forall i, j | 0 <= i < j < |nbs| ensures Lower(nbs[i].name) != Lower(nbs[j].name) {
      if i == k {
        assert Some(bs[j].id) != Some(b.id);
      } else if j == k {
        assert Some(bs[i].id) != Some(b.id);
      }
    }
  }

  /** Deleting a brand together with its models (ON DELETE CASCADE) keeps both tables valid. */
  lemma RemoveBrandOk(bs: seq<Brand>, ms: seq<Model>, nb: int, nm: int, id: int)
    requires BrandsOk(bs, nb) && ModelsOk(ms, bs, nm)
    ensures var nbs := Filter(bs, OtherBrand(id));
      BrandsOk(nbs, nb) && ModelsOk(Filter(ms, NotOfBrand(id)), nbs, nm)
  {
    var nbs := Filter(bs, OtherBrand(id));
    var nms := Filter(ms, NotOfBrand(id));
    FilterPairwise(bs, OtherBrand(id),
                   (a: Brand, c: Brand) => a.id != c.id && Lower(a.name) != Lower(c.name));
    FilterPairwise(ms, NotOfBrand(id), (a: Model, c: Model) => a.id != c.id);
    forall i | 0 <= i < |nbs| ensures 1 <= nbs[i].id < nb {
      assert nbs[i] in bs;
    }
    forall i | 0 <= i < |nms| ensures 1 <= nms[i].id < nm && HasBrand(nbs, nms[i].brandId) {
      assert nms[i] in ms;
      var w :| w in bs && w.id == nms[i].brandId;
      assert NotOfBrand(id)(nms[i]) && OtherBrand(id)(w);
    }
  }

  lemma AddModelOk(ms: seq<Model>, bs: seq<Brand>, n: int, m: Model)
    requires ModelsOk(ms, bs, n) && m.id == n && HasBrand(bs, m.brandId)
    ensures ModelsOk(ms + [m], bs, n + 1)
  {
  }

  lemma SetModelOk(ms: seq<Model>, bs: seq<Brand>, n: int, k: int, m: Model)
    requires ModelsOk(ms, bs, n) && 0 <= k < |ms| && m.id == ms[k].id && HasBrand(bs, m.brandId)
    ensures ModelsOk(ms[k := m], bs, n)
  {
  }

  lemma RemoveModelOk(ms: seq<Model>, bs: seq<Brand>, n: int, id: int)
    requires ModelsOk(ms, bs, n)
    ensures ModelsOk(Filter(ms, OtherModel(id)), bs, n)
  {
    var nms := Filter(ms, OtherModel(id));
    FilterPairwise(ms, OtherModel(id), (a: Model, c: Model) => a.id != c.id);
    forall i | 0 <= i < |nms| ensures 1 <= nms[i].id < n && HasBrand(bs, nms[i].brandId) {
      assert nms[i] in ms;
    }
  }

  lemma RemoveFileOk(fs: seq<StoredFile>, name: string)
    requires FilesOk(fs)
    ensures FilesOk(Filter(fs, OtherFile(name)))
  {
    FilterPairwise(fs, OtherFile(name), (a: StoredFile, c: StoredFile) => a.name != c.name);
  }

  class Database {
    var users: seq<User>
    var brands: seq<Brand>
    var models: seq<Model>
    var log: seq<LogEntry>
    var uploads: seq<StoredFile>
    var nextUserId: int
    var nextBrandId: int
    var nextModelId: int

    /** The constraints the schema and the handlers keep. */
    ghost predicate Valid()
      reads this
    {
      && UsersOk(users, nextUserId)
      && BrandsOk(brands, nextBrandId)
      && ModelsOk(models, brands, nextModelId)
      && FilesOk(uploads)
    }

    /** An empty store, as after the schema is created. */
    constructor ()
      ensures Valid()
      ensures users == [] && brands == [] && models == [] && log == [] && uploads == []
      ensures nextUserId == 1 && nextBrandId == 1 && nextModelId == 1
    {
      users, brands, models, log, uploads := [], [], [], [], [];
      nextUserId, nextBrandId, nextModelId := 1, 1, 1;
    }

    /** `INSERT INTO activity_logs`. */
    method Record(e: LogEntry)
      requires Valid()
      modifies this
      ensures Valid()
      ensures log == old(log) + [e]
      ensures users == old(users) && brands == old(brands) && models == old(models) && uploads == old(uploads)
      ensures nextUserId == old(nextUserId) && nextBrandId == old(nextBrandId) && nextModelId == old(nextModelId)
    {
      log := log + [e];
    }

    /** `INSERT INTO users`, with the id the SERIAL column hands out. */
    method AddUser(u: User)
      requires Valid() && u.id == nextUserId && ValidRole(u.role)
      requires !UsernameTaken(users, u.username, None)
      requires u.role == AdminRole ==> !AdminOtherThan(users, None)
      modifies this
      ensures Valid()
      ensures users == old(users) + [u] && nextUserId == old(nextUserId) + 1
      ensures log == old(log) && brands == old(brands) && models == old(models) && uploads == old(uploads)
      ensures nextBrandId == old(nextBrandId) && nextModelId == old(nextModelId)
    {
      AddUserOk(users, nextUserId, u);
      users, nextUserId := users + [u], nextUserId + 1;
    }

    /** `UPDATE users ... WHERE id = $n` on the row at position `k`. */
    method SetUser(k: int, u: User)
      requires Valid() && 0 <= k < |users| && u.id == users[k].id && ValidRole(u.role)
      requires !UsernameTaken(users, u.username, Some(u.id))
      requires u.role == AdminRole ==> !AdminOtherThan(users, Some(u.id))
      modifies this
      ensures Valid()
      ensures users == old(users)[k := u]
      ensures log == old(log) && brands == old(brands) && models == old(models) && uploads == old(uploads)
      ensures nextUserId == old(nextUserId) && nextBrandId == old(nextBrandId) && nextModelId == old(nextModelId)
    {
      SetUserOk(users, nextUserId, k, u);
      users := users[k := u];
    }

    /** `DELETE FROM users WHERE id = $1`. */
    method RemoveUser(id: int)
      requires Valid()
      modifies this
      ensures Valid()
      ensures users == Filter(old(users), OtherUser(id))
      ensures log == old(log) && brands == old(brands) && models == old(models) && uploads == old(uploads)
      ensures nextUserId == old(nextUserId) && nextBrandId == old(nextBrandId) && nextModelId == old(nextModelId)
    {
      RemoveUserOk(users, nextUserId, id);
      users := Filter(users, OtherUser(id));
    }

    /** `INSERT INTO brands`. */
    method AddBrand(b: Brand)
      requires Valid() && b.id == nextBrandId && !BrandNameTaken(brands, b.name, None)
      modifies this
      ensures Valid()
      ensures brands == old(brands) + [b] && nextBrandId == old(nextBrandId) + 1
      ensures users == old(users) && log == old(log) && models == old(models) && uploads == old(uploads)
      ensures nextUserId == old(nextUserId) && nextModelId == old(nextModelId)
    {
      AddBrandOk(brands, models, nextBrandId, nextModelId, b);
      brands, nextBrandId := brands + [b], nextBrandId + 1;
    }

    /** `UPDATE brands SET name = ... WHERE id = $2` on the row at position `k`. */
    method SetBrand(k: int, b: Brand)
      requires Valid() && 0 <= k < |brands| && b.id == brands[k].id
      requires !BrandNameTaken(brands, b.name, Some(b.id))
      modifies this
      ensures Valid()
      ensures brands == old(brands)[k := b]
      ensures users == old(users) && log == old(log) && models == old(models) && uploads == old(uploads)
      ensures nextUserId == old(nextUserId) && nextBrandId == old(nextBrandId) && nextModelId == old(nextModelId)
    {
      SetBrandOk(brands, models, nextBrandId, nextModelId, k, b);
      brands := brands[k := b];
    }

    /** `DELETE FROM brands WHERE id = $1`, which ON DELETE CASCADE extends to the brand's models. */
    method RemoveBrand(id: int)
      requires Valid()
      modifies this
      ensures Valid()
      ensures brands == Filter(old(brands), OtherBrand(id))
      ensures models == Filter(old(models), NotOfBrand(id))
      ensures users == old(users) && log == old(log) && uploads == old(uploads)
      ensures nextUserId == old(nextUserId) && nextBrandId == old(nextBrandId) && nextModelId == old(nextModelId)
    {
      RemoveBrandOk(brands, models, nextBrandId, nextModelId, id);
      brands, models := Filter(brands, OtherBrand(id)), Filter(models, NotOfBrand(id));
    }

    /** `INSERT INTO models`; the foreign key demands an existing brand. */
    method AddModel(m: Model)
      requires Valid() && m.id == nextModelId && HasBrand(brands, m.brandId)
      modifies this
      ensures Valid()
      ensures models == old(models) + [m] && nextModelId == old(nextModelId) + 1
      ensures users == old(users) && log == old(log) && brands == old(brands) && uploads == old(uploads)
      ensures nextUserId == old(nextUserId) && nextBrandId == old(nextBrandId)
    {
      AddModelOk(models, brands, nextModelId, m);
      models, nextModelId := models + [m], nextModelId + 1;
    }

    /** `UPDATE models ... WHERE id = $n` on the row at position `k`. */
    method SetModel(k: int, m: Model)
      requires Valid() && 0 <= k < |models| && m.id == models[k].id && HasBrand(brands, m.brandId)
      modifies this
      ensures Valid()
      ensures models == old(models)[k := m]
      ensures users == old(users) && log == old(log) && brands == old(brands) && uploads == old(uploads)
      ensures nextUserId == old(nextUserId) && nextBrandId == old(nextBrandId) && nextModelId == old(nextModelId)
    {
      SetModelOk(models, brands, nextModelId, k, m);
      models := models[k := m];
    }

    /** `DELETE FROM models WHERE id = $1`. */
    method RemoveModel(id: int)
      requires Valid()
      modifies this
      ensures Valid()
      ensures models == Filter(old(models), OtherModel(id))
      ensures users == old(users) && log == old(log) && brands == old(brands) && uploads == old(uploads)
      ensures nextUserId == old(nextUserId) && nextBrandId == old(nextBrandId) && nextModelId == old(nextModelId)
    {
      RemoveModelOk(models, brands, nextModelId, id);
      models := Filter(models, OtherModel(id));
    }

    /** `fs.unlinkSync` of one file of the upload directory. */
    method RemoveFile(name: string)
      requires Valid()
      modifies this
      ensures Valid()
      ensures uploads == Filter(old(uploads), OtherFile(name))
      ensures users == old(users) && log == old(log) && brands == old(brands) && models == old(models)
      ensures nextUserId == old(nextUserId) && nextBrandId == old(nextBrandId) && nextModelId == old(nextModelId)
    {
      RemoveFileOk(uploads, name);
      uploads := Filter(uploads, OtherFile(name));
    }
  }
}
