/**
 * The JWT middlewares (internal/middleware/auth.go) over a model of Gin's
 * request context: the Authorization header, the three context values the
 * middlewares set, the abort flag, and the sequence of what happened to
 * the request (a reply written, or the rest of the handler chain run).
 * Signature checking is a parameter; the time checks of the JWT library
 * are modelled.
 */
module AuthMiddleware {
  import opened Wrappers
  import opened Strs
  import opened Models
  import opened Response

  /** The claims a token carries: user id, email and role, and the registered `exp` and `nbf` times. */
  datatype Claims = Claims(userId: nat, email: string, role: string, expiresAt: Time, notBefore: Time)

  /**
   * Decoding a token and checking its HS256 signature against the secret:
   * `None` for a malformed token or a wrong signature. The JWT codec is not
   * part of this model.
   */
  type SignatureCheck = string -> Option<Claims>

  datatype Event = Wrote(reply: Reply<()>) | Downstream

  const MissingToken := "缺少认证令牌"
  const MalformedHeader := "令牌格式错误"
  const InvalidToken := "无效的认证令牌"
  const ExpiredToken := "令牌已过期"
  const AdminRequired := "需要管理员权限"
  const BearerPrefix := "Bearer "

  /** golang-jwt v5's default claims validation: `now` is before `exp` and not before `nbf`. */
  predicate ClaimsValid(c: Claims, now: Time) {
    now < c.expiresAt && c.notBefore <= now
  }

  /**
   * `ParseToken`: `jwt.ParseWithClaims` with its default options checks the
   * signature and then the time claims, so an expired token is a parse error.
   */
  function ParseToken(token: string, verify: SignatureCheck, now: Time): (r: Option<Claims>)
    ensures r.Some? ==> r == verify(token) && ClaimsValid(r.value, now)
    ensures verify(token).Some? && ClaimsValid(verify(token).value, now) ==> r.Some?
  {
    match verify(token)
    case None => None
    case Some(claims) => if ClaimsValid(claims, now) then Some(claims) else None
  }

  datatype AuthOutcome = Reject(message: string) | Accept(claims: Claims)

  /**
   * The decision sequence as written: header present, `Bearer ` prefix,
   * parse, expiry. The parse has already refused every expired token, so
   * the expiry branch never answers "令牌已过期".
   */
  function Authenticate(header: string, verify: SignatureCheck, now: Time): (r: AuthOutcome)
    ensures header == "" ==> r == Reject(MissingToken)
    ensures header != "" && !(BearerPrefix <= header) ==> r == Reject(MalformedHeader)
    ensures r.Accept? <==>
      BearerPrefix <= header && verify(header[|BearerPrefix|..]).Some?
      && ClaimsValid(verify(header[|BearerPrefix|..]).value, now)
    ensures r.Accept? ==> verify(header[|BearerPrefix|..]) == Some(r.claims)
    ensures r.Reject? ==> r.message in {MissingToken, MalformedHeader, InvalidToken}
  {
    if header == "" then Reject(MissingToken)
    else if !(BearerPrefix <= header) then Reject(MalformedHeader)
    else
      var token := TrimPrefix(header, BearerPrefix);
      match ParseToken(token, verify, now)
      case None => Reject(InvalidToken)
      case Some(claims) =>
        if claims.expiresAt < now then Reject(ExpiredToken) else Accept(claims)
  }

  /** The token is exactly what follows the prefix: the decision depends on nothing else of the header. */
  lemma TokenIsHeaderSuffix(token: string, verify: SignatureCheck, now: Time)
    ensures Authenticate(BearerPrefix + token, verify, now).Reject? ==>
      Authenticate(BearerPrefix + token, verify, now).message == InvalidToken
    ensures Authenticate(BearerPrefix + token, verify, now) ==
      (match verify(token)
       case None => Reject(InvalidToken)
       case Some(claims) => if ClaimsValid(claims, now) then Accept(claims) else Reject(InvalidToken))
  {
    assert (BearerPrefix + token)[|BearerPrefix|..] == token;
  }

  /**
   * A token is good from its `nbf` second up to the second before its
   * `exp`; at `exp` and before `nbf` it is refused as an invalid token.
   */
  lemma ExpiryBoundary(token: string, verify: SignatureCheck, claims: Claims)
    requires verify(token) == Some(claims) && claims.notBefore < claims.expiresAt
    ensures Authenticate(BearerPrefix + token, verify, claims.expiresAt - 1) == Accept(claims)
    ensures Authenticate(BearerPrefix + token, verify, claims.notBefore) == Accept(claims)
    ensures Authenticate(BearerPrefix + token, verify, claims.expiresAt) == Reject(InvalidToken)
    ensures Authenticate(BearerPrefix + token, verify, claims.notBefore - 1) == Reject(InvalidToken)
  {
    TokenIsHeaderSuffix(token, verify, claims.expiresAt - 1);
    TokenIsHeaderSuffix(token, verify, claims.notBefore);
    TokenIsHeaderSuffix(token, verify, claims.expiresAt);
    TokenIsHeaderSuffix(token, verify, claims.notBefore - 1);
  }

  /** A correctly signed token presented after its expiry gets "无效的认证令牌", not "令牌已过期". */
  lemma ExpiredTokenGetsInvalidToken(token: string, verify: SignatureCheck, claims: Claims, now: Time)
    requires verify(token) == Some(claims) && claims.expiresAt < now
    ensures Authenticate(BearerPrefix + token, verify, now) == Reject(InvalidToken)
    ensures AuthenticateIntended(BearerPrefix + token, verify, now) == Reject(ExpiredToken)
  {
    TokenIsHeaderSuffix(token, verify, now);
    assert (BearerPrefix + token)[|BearerPrefix|..] == token;
  }

  /**
   * The evident intent of the expiry branch: a token whose only fault is
   * its `exp` is reported as expired (what testing the parse error with
   * `errors.Is(err, jwt.ErrTokenExpired)` gives); every other parse
   * failure stays "无效的认证令牌".
   */
  function AuthenticateIntended(header: string, verify: SignatureCheck, now: Time): (r: AuthOutcome)
    ensures header == "" ==> r == Reject(MissingToken)
    ensures header != "" && !(BearerPrefix <= header) ==> r == Reject(MalformedHeader)
    ensures r == Reject(ExpiredToken) <==>
      BearerPrefix <= header && verify(header[|BearerPrefix|..]).Some?
      && verify(header[|BearerPrefix|..]).value.expiresAt <= now
    ensures r.Accept? ==> verify(header[|BearerPrefix|..]) == Some(r.claims) && ClaimsValid(r.claims, now)
  {
    if header == "" then Reject(MissingToken)
    else if !(BearerPrefix <= header) then Reject(MalformedHeader)
    else
      var token := TrimPrefix(header, BearerPrefix);
      match verify(token)
      case None => Reject(InvalidToken)
      case Some(claims) =>
        if claims.expiresAt <= now then Reject(ExpiredToken)
        else if now < claims.notBefore then Reject(InvalidToken)
        else Accept(claims)
  }

  /** The two versions accept the same requests and differ only in the message for an expired token. */
  lemma IntendedDiffersOnlyInExpiryMessage(header: string, verify: SignatureCheck, now: Time)
    ensures AuthenticateIntended(header, verify, now) != Reject(ExpiredToken) ==>
      AuthenticateIntended(header, verify, now) == Authenticate(header, verify, now)
    ensures AuthenticateIntended(header, verify, now) == Reject(ExpiredToken) ==>
      Authenticate(header, verify, now) == Reject(InvalidToken)
  {
  }

  /** The prefix is case- and space-sensitive. */
  lemma LowercaseBearerRejected(token: string, verify: SignatureCheck, now: Time)
    ensures Authenticate("bearer " + token, verify, now) == Reject(MalformedHeader)
  {
    assert ("bearer " + token)[0] == 'b';
  }

  /** What the request goes through under `AuthMiddleware`. */
  function AuthEvents(d: AuthOutcome): seq<Event> {
    match d
    case Reject(m) => [Wrote(Unauthorized(m))]
    case Accept(_) => [Downstream]
  }

  /**
   * `AdminMiddleware` as written: `AuthMiddleware()(c)` itself calls
   * `c.Next()`, so the rest of the chain has already run when the role is
   * looked at; a non-admin's request is served and only then refused.
   */
  function AdminEventsAsWritten(d: AuthOutcome): seq<Event> {
    match d
    case Reject(m) => [Wrote(Unauthorized(m))]
    case Accept(claims) =>
      if claims.role == "admin" then [Downstream] else [Downstream, Wrote(Forbidden(AdminRequired))]
  }

  /** The guard the middleware is meant to be: only an authenticated admin reaches the handler. */
  function AdminEvents(d: AuthOutcome): seq<Event> {
    match d
    case Reject(m) => [Wrote(Unauthorized(m))]
    case Accept(claims) => if claims.role == "admin" then [Downstream] else [Wrote(Forbidden(AdminRequired))]
  }

  /** A student's valid, unexpired token gets the admin-only handler run. */
  lemma AdminAsWrittenServesStudent()
    ensures var verify: SignatureCheck := t => Some(Claims(7, "s@example.com", "student", 100, 0));
      Downstream in AdminEventsAsWritten(Authenticate("Bearer t", verify, 0))
  {
    var verify: SignatureCheck := t => Some(Claims(7, "s@example.com", "student", 100, 0));
    assert "Bearer t"[|BearerPrefix|..] == "t";
    assert Authenticate("Bearer t", verify, 0) == Accept(Claims(7, "s@example.com", "student", 100, 0));
  }

  /** With the intended guard, the handler runs iff the token authenticates an admin, and at most once. */
  lemma AdminGuards(header: string, verify: SignatureCheck, now: Time)
    ensures var d := Authenticate(header, verify, now);
      (Downstream in AdminEvents(d) <==> d.Accept? && d.claims.role == "admin")
      && |AdminEvents(d)| == 1
  {
  }

  /** Both versions agree on who is refused; they differ only in whether a refused admin request ran first. */
  lemma AdminVersionsAgreeOnRefusals(d: AuthOutcome)
    ensures AdminEventsAsWritten(d)[|AdminEventsAsWritten(d)| - 1] == AdminEvents(d)[|AdminEvents(d)| - 1]
    ensures (Downstream in AdminEventsAsWritten(d)) <==> d.Accept?
  {
  }

  /** Gin's `*gin.Context`, as far as the middlewares use it. */
  class Context {
    const authorization: string
    var userId: Option<nat>
    var userEmail: Option<string>
    var userRole: Option<string>
    var aborted: bool
    var chainRan: bool
    var events: seq<Event>

    constructor (authorization: string)
      ensures this.authorization == authorization
      ensures userId == None && userEmail == None && userRole == None
      ensures !aborted && !chainRan && events == []
    {
      this.authorization := authorization;
      userId, userEmail, userRole := None, None, None;
      aborted, chainRan := false, false;
      events := [];
    }

    /** `c.Next()`: runs the rest of the chain once; after `Abort` or a first run it does nothing. */
    method Next()
      modifies this
      ensures userId == old(userId) && userEmail == old(userEmail) && userRole == old(userRole)
      ensures aborted == old(aborted)
      ensures !old(aborted) && !old(chainRan) ==> chainRan && events == old(events) + [Downstream]
      ensures old(aborted) || old(chainRan) ==> chainRan == old(chainRan) && events == old(events)
    {
      if !aborted && !chainRan {
        chainRan := true;
        events := events + [Downstream];
      }
    }

    method Abort()
      modifies this
      ensures aborted
      ensures userId == old(userId) && userEmail == old(userEmail) && userRole == old(userRole)
      ensures chainRan == old(chainRan) && events == old(events)
    {
      aborted := true;
    }

    /** `c.JSON(...)`: the reply is appended, even after the chain has answered. */
    method Write(r: Reply<()>)
      modifies this
      ensures events == old(events) + [Wrote(r)]
      ensures userId == old(userId) && userEmail == old(userEmail) && userRole == old(userRole)
      ensures aborted == old(aborted) && chainRan == old(chainRan)
    {
      events := events + [Wrote(r)];
    }

    /** `c.Set` of the three entries from the claims. */
    method SetClaims(claims: Claims)
      modifies this
      ensures userId == Some(claims.userId) && userEmail == Some(claims.email) && userRole == Some(claims.role)
      ensures aborted == old(aborted) && chainRan == old(chainRan) && events == old(events)
    {
      userId := Some(claims.userId);
      userEmail := Some(claims.email);
      userRole := Some(claims.role);
    }
  }

  /** `IsCurrentUserAdmin`. */
  predicate IsCurrentUserAdmin(c: Context)
    reads c
  {
    c.userRole.Some? && c.userRole.value == "admin"
  }

  /** `IsCurrentUserStudent`. */
  predicate IsCurrentUserStudent(c: Context)
    reads c
  {
    c.userRole.Some? && c.userRole.value == "student"
  }

  /** No context is both; without a role neither holds. */
  lemma CurrentUserRolesExclusive(c: Context)
    ensures !(IsCurrentUserAdmin(c) && IsCurrentUserStudent(c))
    ensures c.userRole.None? ==> !IsCurrentUserAdmin(c) && !IsCurrentUserStudent(c)
  {
  }

  /** A request context before any middleware has run. */
  ghost predicate Untouched(c: Context)
    reads c
  {
    !c.aborted && !c.chainRan && c.userId.None? && c.userEmail.None? && c.userRole.None?
  }

  /** `AuthMiddleware`: 401 and abort at the first failed step; otherwise the three entries are set and the chain runs. */
  method AuthMiddleware(c: Context, verify: SignatureCheck, now: Time)
    requires Untouched(c)
    modifies c
    ensures c.events == old(c.events) + AuthEvents(Authenticate(c.authorization, verify, now))
    ensures var d := Authenticate(c.authorization, verify, now);
      (d.Reject? ==> c.aborted && !c.chainRan && c.userId.None? && c.userEmail.None? && c.userRole.None?)
      && (d.Accept? ==> !c.aborted && c.chainRan && c.userId == Some(d.claims.userId)
                        && c.userEmail == Some(d.claims.email) && c.userRole == Some(d.claims.role))
  {
    var header := c.authorization;
    if header == "" {
      c.Write(Unauthorized(MissingToken));
      c.Abort();
      return;
    }
    if !(BearerPrefix <= header) {
      c.Write(Unauthorized(MalformedHeader));
      c.Abort();
      return;
    }
    var token := TrimPrefix(header, BearerPrefix);
    var claims := ParseToken(token, verify, now);
    if claims.None? {
      c.Write(Unauthorized(InvalidToken));
      c.Abort();
      return;
    }
    if claims.value.expiresAt < now {
      // The "令牌已过期" reply cannot happen: the parse has refused expired tokens.
      assert false;
    }
    c.SetClaims(claims.value);
    c.Next();
  }

  /** `AdminMiddleware` as written: authentication (which runs the chain), then the role check. */
  method AdminMiddlewareAsWritten(c: Context, verify: SignatureCheck, now: Time)
    requires Untouched(c)
    modifies c
    ensures c.events == old(c.events) + AdminEventsAsWritten(Authenticate(c.authorization, verify, now))
  {
    AuthMiddleware(c, verify, now);
    if c.aborted {
      return;
    }
    var role := c.userRole;
    if role.None? {
      // The "用户信息不完整" reply cannot happen: authentication that did not abort has set the role.
      assert false;
    }
    if role.value != "admin" {
      c.Write(Forbidden(AdminRequired));
      c.Abort();
      return;
    }
    c.Next();
  }

  /** `AdminMiddleware` with the role check before the chain runs. */
  method AdminMiddleware(c: Context, verify: SignatureCheck, now: Time)
    requires Untouched(c)
    modifies c
    ensures c.events == old(c.events) + AdminEvents(Authenticate(c.authorization, verify, now))
    ensures c.chainRan <==> IsCurrentUserAdmin(c)
  {
    var d := Authenticate(c.authorization, verify, now);
    if d.Reject? {
      c.Write(Unauthorized(d.message));
      c.Abort();
      return;
    }
    c.SetClaims(d.claims);
    if d.claims.role != "admin" {
      c.Write(Forbidden(AdminRequired));
      c.Abort();
      return;
    }
    c.Next();
  }

  /** `OptionalAuthMiddleware`: never aborts and always runs the chain; sets the entries only on success. */
  method OptionalAuthMiddleware(c: Context, verify: SignatureCheck, now: Time)
    requires Untouched(c)
    modifies c
    ensures c.events == old(c.events) + [Downstream] && !c.aborted
    ensures var d := Authenticate(c.authorization, verify, now);
      (d.Reject? ==> c.userId.None? && c.userEmail.None? && c.userRole.None?)
      && (d.Accept? ==> c.userId == Some(d.claims.userId) && c.userEmail == Some(d.claims.email)
                        && c.userRole == Some(d.claims.role))
  {
    var header := c.authorization;
    if header == "" {
      c.Next();
      return;
    }
    if !(BearerPrefix <= header) {
      c.Next();
      return;
    }
    var token := TrimPrefix(header, BearerPrefix);
    var claims := ParseToken(token, verify, now);
    if claims.None? {
      c.Next();
      return;
    }
    if claims.value.expiresAt < now {
      // Unreachable for the same reason as in `AuthMiddleware`.
      assert false;
    }
    c.SetClaims(claims.value);
    c.Next();
  }
}
