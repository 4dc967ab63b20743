/**
 * The access-control middleware: `authenticateToken`, `requireActive`,
 * `requireAdmin` and the `authenticate` / `authenticateAdmin` chains.
 * Express runs a route's middleware in order; each either calls `next()`
 * or answers and stops. `verify` stands for `jwt.verify` with the server's
 * secret, returning the token's claims or `None` (bad signature, expired).
 * The header is meant as section 2.1 of RFC 6750 (`Bearer <token>`), but only
 * its second space-separated field is used and the scheme word is not checked.
 */
module AuthMiddleware {
  import opened Wrappers
  import opened Text
  import opened Store

  const NoToken := "Acceso denegado. Token no proporcionado."
  const BadToken := "Token inválido o expirado."
  const NotAuthenticated := "Usuario no autenticado."
  const Disabled := "Usuario desactivado. Contacte al administrador."
  const NotAdmin := "Acceso denegado. Se requieren privilegios de administrador."

  datatype Guard = AuthenticateToken | RequireActive | RequireAdmin

  /** `authenticate` and `authenticateAdmin`. */
  const Authenticate: seq<Guard> := [AuthenticateToken, RequireActive]
  const AuthenticateAdmin: seq<Guard> := [AuthenticateToken, RequireActive, RequireAdmin]

  /** Where a chain of middleware ends: at the handler with `req.user`, or with an answer. */
  datatype Outcome = Pass(user: Option<Claims>) | Halt(status: Status, message: string)

  /** `authHeader && authHeader.split(' ')[1]`, when that is a non-empty string. */
  function BearerToken(header: Option<string>): (t: Option<string>)
    ensures t.Some? ==> t.value != "" && ' ' !in t.value
  {
    if header.None? then None
    else
      var fields := Split(header.value, ' ');
      if |fields| >= 2 && fields[1] != "" then Some(fields[1]) else None
  }

  /** The token is the second field whatever the first one says. */
  lemma BearerTokenIsSecondField(scheme: string, token: string)
    requires ' ' !in scheme && ' ' !in token && token != ""
    ensures BearerToken(Some(scheme + " " + token)) == Some(token)
  {
    SplitAtSeparator(scheme, ' ', token);
    SplitNoSeparator(token, ' ');
  }

  /** A header without a space carries no token. */
  lemma NoSpaceNoToken(header: string)
    requires ' ' !in header
    ensures BearerToken(Some(header)) == None
  {
    SplitNoSeparator(header, ' ');
  }

  /** One middleware: `Pass` is `next()` with the (possibly new) `req.user`. */
  function Step(g: Guard, header: Option<string>, verify: string -> Option<Claims>, user: Option<Claims>): (o: Outcome)
    ensures g == RequireActive ==> (o.Pass? <==> user.Some? && user.value.active)
    ensures g == RequireAdmin ==> (o.Pass? <==> user.Some? && user.value.role == AdminRole)
    ensures g != AuthenticateToken && o.Pass? ==> o.user == user
    ensures o.Halt? ==> o.status == Unauthorized || o.status == Forbidden
  {
    match g
    case AuthenticateToken =>
      (match BearerToken(header)
       case None => Halt(Unauthorized, NoToken)
       case Some(t) =>
         (match verify(t)
          case None => Halt(Forbidden, BadToken)
          case Some(claims) => Pass(Some(claims))))
    case RequireActive =>
      if user.None? then Halt(Unauthorized, NotAuthenticated)
      else if !user.value.active then Halt(Forbidden, Disabled)
      else Pass(user)
    case RequireAdmin =>
      if user.None? then Halt(Unauthorized, NotAuthenticated)
      else if user.value.role != AdminRole then Halt(Forbidden, NotAdmin)
      else Pass(user)
  }

  /** A chain of middleware: the first one that answers decides. */
  function Run(gs: seq<Guard>, header: Option<string>, verify: string -> Option<Claims>, user: Option<Claims>): (o: Outcome)
    ensures gs == [] ==> o == Pass(user)
    ensures o.Halt? ==> o.status == Unauthorized || o.status == Forbidden
    ensures AuthenticateToken !in gs && o.Pass? ==> o.user == user
  {
    if gs == [] then Pass(user)
    else
      match Step(gs[0], header, verify, user)
      case Halt(s, m) => Halt(s, m)
      case Pass(u) => Run(gs[1..], header, verify, u)
  }

  /** The claims of a header whose token verifies. */
  function HeaderClaims(header: Option<string>, verify: string -> Option<Claims>): (c: Option<Claims>)
    ensures BearerToken(header).None? ==> c.None?
    ensures BearerToken(header).Some? ==> c == verify(BearerToken(header).value)
  {
    match BearerToken(header)
    case None => None
    case Some(t) => verify(t)
  }

  /**
   * `authenticate` passes exactly when the token verifies with active claims,
   * and the claims become the request user; otherwise a missing token is 401,
   * a token that fails verification 403, and inactive claims 403.
   */
  lemma AuthenticateDecides(header: Option<string>, verify: string -> Option<Claims>)
    ensures var o := Run(Authenticate, header, verify, None);
      && (o.Pass? <==> HeaderClaims(header, verify).Some? && HeaderClaims(header, verify).value.active)
      && (o.Pass? ==> o.user == HeaderClaims(header, verify))
      && (BearerToken(header).None? ==> o == Halt(Unauthorized, NoToken))
      && (BearerToken(header).Some? && HeaderClaims(header, verify).None? ==> o == Halt(Forbidden, BadToken))
      && (HeaderClaims(header, verify).Some? && !HeaderClaims(header, verify).value.active ==>
            o == Halt(Forbidden, Disabled))
  {
    var u := Step(AuthenticateToken, header, verify, None);
    assert Authenticate[1..] == [RequireActive];
    if u.Pass? {
      assert u.user == HeaderClaims(header, verify);
      assert Run(Authenticate, header, verify, None) == Run([RequireActive], header, verify, u.user);
      ActiveThenNothing(header, verify, u.user);
    }
  }

  /** `requireActive` as the last middleware of a chain. */
  lemma ActiveThenNothing(header: Option<string>, verify: string -> Option<Claims>, user: Option<Claims>)
    ensures Run([RequireActive], header, verify, user) == Step(RequireActive, header, verify, user)
  {
    assert [RequireActive][1..] == [];
  }

  /** `requireAdmin` as the last middleware of a chain. */
  lemma AdminThenNothing(header: Option<string>, verify: string -> Option<Claims>, user: Option<Claims>)
    ensures Run([RequireAdmin], header, verify, user) == Step(RequireAdmin, header, verify, user)
  {
    assert [RequireAdmin][1..] == [];
  }

  /** `authenticateAdmin` passes exactly when the token verifies with active admin claims. */
  lemma AuthenticateAdminDecides(header: Option<string>, verify: string -> Option<Claims>)
    ensures var o := Run(AuthenticateAdmin, header, verify, None);
      && (o.Pass? <==> && HeaderClaims(header, verify).Some? && HeaderClaims(header, verify).value.active
                       && HeaderClaims(header, verify).value.role == AdminRole)
      && (o.Pass? ==> o.user == HeaderClaims(header, verify))
      && (o.Halt? ==> o.status == Unauthorized || o.status == Forbidden)
      && (Run(Authenticate, header, verify, None).Halt? ==> o == Run(Authenticate, header, verify, None))
      && ((&& HeaderClaims(header, verify).Some? && HeaderClaims(header, verify).value.active
           && HeaderClaims(header, verify).value.role != AdminRole) ==> o == Halt(Forbidden, NotAdmin))
  {
    AuthenticateDecides(header, verify);
    var u := Step(AuthenticateToken, header, verify, None);
    assert AuthenticateAdmin[1..] == [RequireActive, RequireAdmin];
    assert Authenticate[1..] == [RequireActive];
    if u.Pass? {
      assert Run(AuthenticateAdmin, header, verify, None) == Run([RequireActive, RequireAdmin], header, verify, u.user);
      assert Run(Authenticate, header, verify, None) == Run([RequireActive], header, verify, u.user);
      ActiveThenNothing(header, verify, u.user);
      var v := Step(RequireActive, header, verify, u.user);
      assert [RequireActive, RequireAdmin][1..] == [RequireAdmin];
      if v.Pass? {
        assert Run([RequireActive, RequireAdmin], header, verify, u.user) == Run([RequireAdmin], header, verify, v.user);
        AdminThenNothing(header, verify, v.user);
      }
    }
  }
}
