/**
 * The route table mounted under `/api`: each registration names a method, a
 * path pattern, the middleware chain in front of the handler, and the
 * handler. Express tries registrations in order and the first one whose
 * method and pattern match handles the request. Paths here are relative to
 * the mount point. A pattern matches as Express's default router does:
 * literal segments ignore case, a `:param` segment matches any non-empty
 * segment, and one trailing slash is allowed.
 */
module Routes {
  import opened Wrappers
  import opened Text
  import opened Seqs
  import opened Store
  import opened AuthMiddleware

  datatype Verb = Get | Post | Put | Delete

  datatype Segment = Lit(text: string) | Param(name: string)

  /** The controller functions the table names; `Health` is the inline health check. */
  datatype Handler =
    | Login | VerifyToken | Logout
    | GetAllBrands | GetBrandById | GetBrandModels
    | GetAllModels | SearchModels | GetModelById
    | UploadImage | ListImages | DeleteImage
    | GetAllUsers | GetUserById | CreateUser | UpdateUser | DeleteUser
    | CreateBrand | UpdateBrand | DeleteBrand
    | CreateModel | UpdateModel | DeleteModel
    | Health

  /** The middleware a registration names before its handler. */
  datatype Chain = Unguarded | WithAuthenticate | WithAuthenticateAdmin {
    function Guards(): (gs: seq<Guard>)
      ensures gs == [] <==> this == Unguarded
    {
      match this
      case Unguarded => []
      case WithAuthenticate => Authenticate
      case WithAuthenticateAdmin => AuthenticateAdmin
    }
  }

  datatype Route = Route(verb: Verb, path: seq<Segment>, chain: Chain, handler: Handler)

  /** The login, verify and logout registrations. */
  const AuthRoutes: seq<Route> := [
    Route(Post, [Lit("auth"), Lit("login")], Unguarded, Login),
    Route(Get, [Lit("auth"), Lit("verify")], WithAuthenticate, VerifyToken),
    Route(Post, [Lit("auth"), Lit("logout")], WithAuthenticate, Logout)
  ]

  /** The read-only brand and model registrations, open to any active user. */
  const ReadRoutes: seq<Route> := [
    Route(Get, [Lit("brands")], WithAuthenticate, GetAllBrands),
    Route(Get, [Lit("brands"), Param("id")], WithAuthenticate, GetBrandById),
    Route(Get, [Lit("brands"), Param("id"), Lit("models")], WithAuthenticate, GetBrandModels),
    Route(Get, [Lit("models")], WithAuthenticate, GetAllModels),
    Route(Get, [Lit("models"), Lit("search")], WithAuthenticate, SearchModels),
    Route(Get, [Lit("models"), Param("id")], WithAuthenticate, GetModelById)
  ]

  /** The image upload registrations. */
  const UploadRoutes: seq<Route> := [
    Route(Post, [Lit("upload")], WithAuthenticateAdmin, UploadImage),
    Route(Get, [Lit("upload")], WithAuthenticateAdmin, ListImages),
    Route(Delete, [Lit("upload"), Param("filename")], WithAuthenticateAdmin, DeleteImage)
  ]

  /** The user management registrations. */
  const UserRoutes: seq<Route> := [
    Route(Get, [Lit("users")], WithAuthenticateAdmin, GetAllUsers),
    Route(Get, [Lit("users"), Param("id")], WithAuthenticateAdmin, GetUserById),
    Route(Post, [Lit("users")], WithAuthenticateAdmin, CreateUser),
    Route(Put, [Lit("users"), Param("id")], WithAuthenticateAdmin, UpdateUser),
    Route(Delete, [Lit("users"), Param("id")], WithAuthenticateAdmin, DeleteUser)
  ]

  /** The brand and model writes. */
  const CatalogueWriteRoutes: seq<Route> := [
    Route(Post, [Lit("brands")], WithAuthenticateAdmin, CreateBrand),
    Route(Put, [Lit("brands"), Param("id")], WithAuthenticateAdmin, UpdateBrand),
    Route(Delete, [Lit("brands"), Param("id")], WithAuthenticateAdmin, DeleteBrand),
    Route(Post, [Lit("models")], WithAuthenticateAdmin, CreateModel),
    Route(Put, [Lit("models"), Param("id")], WithAuthenticateAdmin, UpdateModel),
    Route(Delete, [Lit("models"), Param("id")], WithAuthenticateAdmin, DeleteModel)
  ]

  /** The registrations, in the order the router file makes them. */
  const Table: seq<Route> :=
    AuthRoutes + ReadRoutes + UploadRoutes + UserRoutes + CatalogueWriteRoutes
    + [Route(Get, [Lit("health")], Unguarded, Health)]

  /** The segments of a request path; `None` unless it starts with `/`. One trailing slash is dropped. */
  function Pieces(path: string): (r: Option<seq<string>>)
    ensures r.Some? <==> path != "" && path[0] == '/'
    ensures r.Some? ==> forall k :: 0 <= k < |r.value| ==> '/' !in r.value[k]
  {
    if path == "" || path[0] != '/' then None
    else
      var ps := Split(path[1..], '/');
      if |ps| > 1 && ps[|ps| - 1] == "" then Some(ps[..|ps| - 1]) else Some(ps)
  }

  /** A path written from non-empty segments, with or without one trailing `/`, splits back into them. */
  lemma PiecesOfJoined(segs: seq<string>)
    requires |segs| >= 1 && forall k :: 0 <= k < |segs| ==> segs[k] != "" && '/' !in segs[k]
    ensures Pieces("/" + Join(segs, "/")) == Some(segs)
    ensures Pieces("/" + Join(segs, "/") + "/") == Some(segs)
  {
    SplitJoin(segs, '/');
    PiecesAfterSlash(Join(segs, "/"));
    SplitJoinedSlash(segs);
    PiecesAfterSlash(Join(segs, "/") + "/");
    assert "/" + Join(segs, "/") + "/" == "/" + (Join(segs, "/") + "/");
  }

  /** The segments of `/rest`: the pieces of `rest`, less one empty last piece. */
  lemma PiecesAfterSlash(rest: string)
    ensures var ps := Split(rest, '/');
      Pieces("/" + rest) == if |ps| > 1 && ps[|ps| - 1] == "" then Some(ps[..|ps| - 1]) else Some(ps)
  {
    assert ("/" + rest)[1..] == rest;
  }

  /** Joined segments followed by `/` split into the segments and one empty piece. */
  lemma SplitJoinedSlash(segs: seq<string>)
    requires |segs| >= 1 && forall k :: 0 <= k < |segs| ==> '/' !in segs[k]
    ensures Split(Join(segs, "/") + "/", '/') == segs + [""]
  {
    var xs := segs + [""];
    JoinSnoc(segs, "/", "");
    forall k | 0 <= k < |xs| ensures '/' !in xs[k] {
      if k < |segs| {
        assert xs[k] == segs[k];
      }
    }
    SplitJoin(xs, '/');
    var j := Join(segs, "/");
    assert j + "/" + "" == j + "/";
    assert Join(xs, "/") == j + "/";
  }

  /** A pattern segment against a request segment. */
  predicate SegmentMatches(s: Segment, piece: string) {
    match s
    case Lit(t) => Lower(piece) == t
    case Param(_) => piece != ""
  }

  predicate PatternMatches(pattern: seq<Segment>, pieces: seq<string>) {
    |pattern| == |pieces| && forall k :: 0 <= k < |pattern| ==> SegmentMatches(pattern[k], pieces[k])
  }

  /** The registration answers this method and these segments. */
  function Serves(verb: Verb, pieces: seq<string>): Route -> bool {
    (r: Route) => r.verb == verb && PatternMatches(r.path, pieces)
  }

  /** The registration that handles a request: the first that serves it. */
  function Dispatch(verb: Verb, pieces: seq<string>): (r: Option<nat>)
    ensures r.Some? ==> r.value < |Table| && Serves(verb, pieces)(Table[r.value])
    ensures r.Some? ==> forall j :: 0 <= j < r.value ==> !Serves(verb, pieces)(Table[j])
    ensures r.None? <==> forall j :: 0 <= j < |Table| ==> !Serves(verb, pieces)(Table[j])
  {
    IndexWhere(Table, Serves(verb, pieces))
  }

  /** What becomes of a request: no route (Express's 404), refused by a guard, or at the handler. */
  datatype Resolution =
    | NoRoute
    | Refused(status: Status, message: string)
    | Reached(handler: Handler, user: Option<Claims>, pieces: seq<string>)

  /** A request through the router: dispatch, then the registration's chain. */
  function Handle(verb: Verb, path: string, header: Option<string>, verify: string -> Option<Claims>): (r: Resolution)
    ensures r.NoRoute? <==> Pieces(path).None? || Dispatch(verb, Pieces(path).value).None?
    ensures !r.NoRoute? ==>
      var i := Dispatch(verb, Pieces(path).value).value;
      && (r.Refused? <==> Run(Table[i].chain.Guards(), header, verify, None).Halt?)
      && (r.Reached? ==> r.handler == Table[i].handler && r.pieces == Pieces(path).value
                         && r.user == Run(Table[i].chain.Guards(), header, verify, None).user)
  {
    match Pieces(path)
    case None => NoRoute
    case Some(ps) =>
      match Dispatch(verb, ps)
      case None => NoRoute
      case Some(i) =>
        match Run(Table[i].chain.Guards(), header, verify, None)
        case Halt(s, m) => Refused(s, m)
        case Pass(u) => Reached(Table[i].handler, u, ps)
  }

  /** Who may reach a handler, as the sections of the router file group them. */
  datatype Access = Open | Member | AdminOnly

  function AccessOf(h: Handler): Access {
    match h
    case Login | Health => Open
    case VerifyToken | Logout | GetAllBrands | GetBrandById | GetBrandModels
       | GetAllModels | SearchModels | GetModelById => Member
    case _ => AdminOnly
  }

  /** The chain each kind of access calls for. */
  function ChainFor(a: Access): (c: Chain)
    ensures c == Unguarded <==> a == Open
  {
    match a
    case Open => Unguarded
    case Member => WithAuthenticate
    case AdminOnly => WithAuthenticateAdmin
  }

  /** The handlers that create, change or delete users, brands, models or images. */
  predicate ChangesData(h: Handler) {
    match h
    case CreateUser | UpdateUser | DeleteUser | CreateBrand | UpdateBrand | DeleteBrand
       | CreateModel | UpdateModel | DeleteModel | UploadImage | DeleteImage => true
    case _ => false
  }

  /** Every registration's chain is the one its handler's access calls for. */
  lemma TableGuards()
    ensures forall i :: 0 <= i < |Table| ==> Table[i].chain == ChainFor(AccessOf(Table[i].handler))
  {
    SectionsFit();
    FittingAppend(AuthRoutes, ReadRoutes);
    FittingAppend(AuthRoutes + ReadRoutes, UploadRoutes);
    FittingAppend(AuthRoutes + ReadRoutes + UploadRoutes, UserRoutes);
    FittingAppend(AuthRoutes + ReadRoutes + UploadRoutes + UserRoutes, CatalogueWriteRoutes);
    FittingAppend(AuthRoutes + ReadRoutes + UploadRoutes + UserRoutes + CatalogueWriteRoutes,
                  [Route(Get, [Lit("health")], Unguarded, Health)]);
  }

  /** Every section of the router file, checked on its own. */
  lemma SectionsFit()
    ensures Fitting(AuthRoutes) && Fitting(ReadRoutes) && Fitting(UploadRoutes)
    ensures Fitting(UserRoutes) && Fitting(CatalogueWriteRoutes)
    ensures Fitting([Route(Get, [Lit("health")], Unguarded, Health)])
  {
    AuthRoutesFit();
    ReadRoutesFit();
    UploadRoutesFit();
    UserRoutesFit();
    CatalogueWriteRoutesFit();
  }

  lemma AuthRoutesFit() ensures Fitting(AuthRoutes) {}
  lemma ReadRoutesFit() ensures Fitting(ReadRoutes) {}
  lemma UploadRoutesFit() ensures Fitting(UploadRoutes) {}
  lemma UserRoutesFit() ensures Fitting(UserRoutes) {}
  lemma CatalogueWriteRoutesFit() ensures Fitting(CatalogueWriteRoutes) {}

  /** Each registration of `rs` has the chain its handler's access calls for. */
  predicate Fitting(rs: seq<Route>) {
    forall i :: 0 <= i < |rs| ==> rs[i].chain == ChainFor(AccessOf(rs[i].handler))
  }

  lemma FittingAppend(a: seq<Route>, b: seq<Route>)
    requires Fitting(a) && Fitting(b)
    ensures Fitting(a + b)
  {
    forall i | 0 <= i < |a + b| ensures (a + b)[i].chain == ChainFor(AccessOf((a + b)[i].handler)) {
      if i >= |a| {
        assert (a + b)[i] == b[i - |a|];
      }
    }
  }

  /** Only login and the health check are registered without a chain. */
  lemma OnlyLoginAndHealthOpen()
    ensures forall i :: 0 <= i < |Table| ==> (Table[i].chain.Guards() == [] <==> Table[i].handler == Login || Table[i].handler == Health)
  {
    TableGuards();
  }

  /** Every handler that changes data is reserved to the administrator. */
  lemma ChangesNeedAdmin(h: Handler)
    ensures ChangesData(h) ==> AccessOf(h) == AdminOnly
  {
  }

  /**
   * No request reaches a handler that changes data (or lists users and images)
   * unless its token verifies with claims that are active and carry the admin
   * role; those claims are the request user.
   */
  lemma NoDataChangeWithoutActiveAdmin(verb: Verb, path: string, header: Option<string>, verify: string -> Option<Claims>)
    ensures var r := Handle(verb, path, header, verify);
      r.Reached? && AccessOf(r.handler) == AdminOnly ==>
        && HeaderClaims(header, verify).Some?
        && HeaderClaims(header, verify).value.active
        && HeaderClaims(header, verify).value.role == AdminRole
        && r.user == HeaderClaims(header, verify)
  {
    if Handle(verb, path, header, verify).Reached? {
      TableGuards();
      AuthenticateAdminDecides(header, verify);
    }
  }

  /** Every handler but login and the health check needs a token that verifies with active claims. */
  lemma GuardedNeedsActiveToken(verb: Verb, path: string, header: Option<string>, verify: string -> Option<Claims>)
    ensures var r := Handle(verb, path, header, verify);
      r.Reached? && AccessOf(r.handler) != Open ==>
        && HeaderClaims(header, verify).Some? && HeaderClaims(header, verify).value.active
        && r.user == HeaderClaims(header, verify)
  {
    if Handle(verb, path, header, verify).Reached? {
      TableGuards();
      AuthenticateDecides(header, verify);
      AuthenticateAdminDecides(header, verify);
    }
  }

  /**
   * `/models/search` is registered before `/models/:id`, so a GET whose
   * segments read `models` and `search` (in any case) is dispatched to
   * searchModels, never to getModelById.
   */
  lemma SearchShadowsModelId(pieces: seq<string>)
    ensures |pieces| == 2 && Lower(pieces[0]) == "models" && Lower(pieces[1]) == "search" ==>
      Dispatch(Get, pieces) == Some(7)
  {
    if |pieces| == 2 && Lower(pieces[0]) == "models" && Lower(pieces[1]) == "search" {
      NoEarlierRoute(pieces);
      SearchRouteServes(pieces);
      FirstWhere(Table, Serves(Get, pieces), 7);
    }
  }

  /** The search registration (7) comes before the lookup by id (8), which would also serve `models/search`. */
  lemma SearchRegisteredBeforeId()
    ensures Table[7].handler == SearchModels && Table[8].handler == GetModelById
    ensures Table[8].path == [Lit("models"), Param("id")]
  {
  }

  /** None of the seven registrations before the search route serves `GET models/<x>`. */
  lemma NoEarlierRoute(pieces: seq<string>)
    requires |pieces| == 2 && Lower(pieces[0]) == "models"
    ensures forall j :: 0 <= j < 7 ==> !Serves(Get, pieces)(Table[j])
  {
    assert "models" != "auth" && "models" != "brands";
    forall j | 0 <= j < 7 ensures !Serves(Get, pieces)(Table[j]) {
      var r := Table[j];
      if r.verb == Get && |r.path| == 2 {
        assert j == 1 || j == 4;
        assert r.path[0] == Lit("auth") || r.path[0] == Lit("brands");
        assert !SegmentMatches(r.path[0], pieces[0]);
      }
    }
  }

  lemma SearchRouteServes(pieces: seq<string>)
    requires |pieces| == 2 && Lower(pieces[0]) == "models" && Lower(pieces[1]) == "search"
    ensures Serves(Get, pieces)(Table[7])
  {
    var r := Table[7];
    assert r.path == [Lit("models"), Lit("search")];
    assert SegmentMatches(r.path[0], pieces[0]) && SegmentMatches(r.path[1], pieces[1]);
  }
}
