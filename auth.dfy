/** The two middlewares in front of the protected routes: `verifyJWT`
    (middleware/authmiddleware.js), which finds the access token, verifies
    it and attaches the user, and `authorizeRoles` (middleware/rolemiddleware.js),
    which admits a fixed list of role names. Token verification is foreign
    cryptography and is a parameter: the user id in a token's payload, or
    `None` when verification throws. */
module Auth {

  import opened Wrappers
  import opened Text
  import opened Store
  import opened Http
  import opened UserModel

  /** `req.user`: the stored user without its password. */
  datatype Principal = Principal(id: nat, name: string, email: string, role: Role, isActive: bool)

  function PrincipalOf(d: Doc<User>): Principal {
    Principal(d.id, d.val.name, d.val.email, d.val.role, d.val.isActive)
  }

  /** What a middleware does with a request: pass it on, or answer it. */
  datatype Gate = Next | Deny(status: int)

  /** What `verifyJWT` concludes about a request. */
  datatype AuthResult = Authenticated(user: Principal) | Rejected(status: int)

  /** The token: the `accessToken` cookie when it is non-empty, otherwise the
      `Authorization` header with the first occurrence of "Bearer " removed,
      wherever it stands. An empty result is no token. */
  function ExtractToken(cookie: Option<string>, authorization: Option<string>): (t: Option<string>)
    ensures t.Some? ==> t.value != ""
    ensures cookie.Some? && cookie.value != "" ==> t == cookie
    ensures (cookie.None? || cookie.value == "") && authorization.None? ==> t.None?
    ensures (cookie.None? || cookie.value == "") && authorization.Some? ==>
      var h := ReplaceFirst(authorization.value, "Bearer ", "");
      t == if h == "" then None else Some(h)
  {
    if cookie.Some? && cookie.value != "" then cookie
    else match authorization
      case None => None
      case Some(h) =>
        var r := ReplaceFirst(h, "Bearer ", "");
        if r == "" then None else Some(r)
  }

  /** A header `Bearer <token>` yields the token. */
  lemma BearerHeaderYieldsToken(token: string)
    requires token != ""
    ensures ExtractToken(None, Some("Bearer " + token)) == Some(token)
  {
    var h := "Bearer " + token;
    assert OccursAt(h, "Bearer ", 0);
    assert IndexOf(h, "Bearer ") == Some(0);
    assert ReplaceFirst(h, "Bearer ", "") == h[..0] + "" + h[7..] == token;
  }

  /** A header that does not mention "Bearer " is taken as the token itself. */
  lemma PlainHeaderIsToken(h: string)
    requires h != "" && IndexOf(h, "Bearer ").None?
    ensures ExtractToken(None, Some(h)) == Some(h)
  {
  }

  /** The prefix is removed wherever it first occurs, not only at the start. */
  lemma BearerRemovedMidHeader()
    ensures ExtractToken(None, Some("xBearer y")) == Some("xy")
  {
    var h := "xBearer y";
    assert !OccursAt(h, "Bearer ", 0) by { assert h[0] != 'B'; }
    assert OccursAt(h, "Bearer ", 1);
    assert h[..1] + "" + h[8..] == "xy";
  }

  /** "Bearer " is removed at its first occurrence, whatever precedes and follows it. */
  lemma BearerRemovedAnywhere(before: string, after: string)
    requires before + after != ""
    requires forall k :: 0 <= k < |before| ==> !OccursAt(before + "Bearer " + after, "Bearer ", k)
    ensures ExtractToken(None, Some(before + "Bearer " + after)) == Some(before + after)
  {
    var h := before + "Bearer " + after;
    var n := |before|;
    assert h[n..n + 7] == "Bearer ";
    assert OccursAt(h, "Bearer ", n);
    assert IndexOf(h, "Bearer ") == Some(n);
    assert h[..n] == before && h[n + 7..] == after;
    assert ReplaceFirst(h, "Bearer ", "") == h[..n] + "" + h[n + 7..] == before + after;
  }

  /** `verifyJWT`'s decision: 401 without a token, 500 when verification
      throws, 401 when the token's user no longer exists, otherwise that user. */
  function Authenticate(docs: seq<Doc<User>>, cookie: Option<string>, authorization: Option<string>,
                        verify: string -> Option<nat>): (r: AuthResult)
    ensures ExtractToken(cookie, authorization).None? ==> r == Rejected(Unauthorized)
    ensures r == Rejected(InternalError) <==>
      ExtractToken(cookie, authorization).Some? && verify(ExtractToken(cookie, authorization).value).None?
    ensures r.Rejected? ==> r.status == Unauthorized || r.status == InternalError
    ensures r.Authenticated? ==>
      && ExtractToken(cookie, authorization).Some?
      && verify(ExtractToken(cookie, authorization).value) == Some(r.user.id)
      && exists i :: 0 <= i < |docs| && PrincipalOf(docs[i]) == r.user
    ensures (&& ExtractToken(cookie, authorization).Some?
             && verify(ExtractToken(cookie, authorization).value).Some?
             && HasId(docs, verify(ExtractToken(cookie, authorization).value).value))
            ==> var id := verify(ExtractToken(cookie, authorization).value).value;
                r == Authenticated(PrincipalOf(docs[Find(docs, id).value]))
  {
    match ExtractToken(cookie, authorization)
    case None => Rejected(Unauthorized)
    case Some(t) =>
      match verify(t)
      case None => Rejected(InternalError)
      case Some(id) =>
        match Find(docs, id)
        case None => Rejected(Unauthorized)
        case Some(k) => Authenticated(PrincipalOf(docs[k]))
  }

  /** A deleted user's still-valid token is refused. */
  lemma DeletedUserRefused(docs: seq<Doc<User>>, token: string, verify: string -> Option<nat>, id: nat)
    requires token != "" && verify(token) == Some(id) && !HasId(docs, id)
    ensures Authenticate(docs, Some(token), None, verify) == Rejected(Unauthorized)
  {
  }

  /** The parts of an incoming request the middlewares read and write. */
  class Request {
    var cookie: Option<string>
    var authorization: Option<string>
    var user: Option<Principal>

    constructor (cookie: Option<string>, authorization: Option<string>)
      ensures this.cookie == cookie && this.authorization == authorization && user.None?
    {
      this.cookie := cookie;
      this.authorization := authorization;
      user := None;
    }
  }

  /** `verifyJWT`: attaches the authenticated user to the request and passes
      it on, or answers it with the rejection's status. */
  method VerifyJwt(req: Request, users: Collection<User>, verify: string -> Option<nat>) returns (g: Gate)
    modifies req`user
    ensures var r := Authenticate(users.docs, req.cookie, req.authorization, verify);
      && (r.Authenticated? ==> g == Next && req.user == Some(r.user))
      && (r.Rejected? ==> g == Deny(r.status) && req.user == old(req.user))
  {
    var token := ExtractToken(req.cookie, req.authorization);
    if token.None? {
      return Deny(Unauthorized);
    }
    var id := verify(token.value);
    if id.None? {
      return Deny(InternalError);
    }
    var k := Find(users.docs, id.value);
    if k.None? {
      return Deny(Unauthorized);
    }
    req.user := Some(PrincipalOf(users.docs[k.value]));
    g := Next;
  }

  /** `authorizeRoles(...allowed)`: 401 without a user, 403 when the user's
      role name is not listed, otherwise on to the handler. */
  function AuthorizeRoles(allowed: seq<string>, user: Option<Principal>): (g: Gate)
    ensures user.None? ==> g == Deny(Unauthorized)
    ensures user.Some? ==> (g == Next <==> exists i :: 0 <= i < |allowed| && allowed[i] == RoleName(user.value.role))
    ensures user.Some? && g.Deny? ==> g.status == Forbidden
  {
    match user
    case None => Deny(Unauthorized)
    case Some(p) => if RoleName(p.role) in allowed then Next else Deny(Forbidden)
  }

  /** A listed name that is not a role ("user", "manager") admits nobody. */
  lemma NonRoleNamesAdmitNobody(allowed: seq<string>, extra: string, p: Principal)
    requires ParseRole(extra).None?
    ensures AuthorizeRoles(allowed + [extra], Some(p)) == AuthorizeRoles(allowed, Some(p))
  {
    RoleRoundTrip(p.role);
    assert RoleName(p.role) != extra;
    assert RoleName(p.role) in allowed + [extra] <==> RoleName(p.role) in allowed;
  }
}
