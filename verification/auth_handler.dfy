/**
 * The authentication handler (internal/handlers/auth_handler.go): login,
 * profile lookup, logout and the change-password request rule. Each
 * handler is an early-return sequence; its reply is a function of the
 * decoded request, the users table, the bcrypt comparison and the outcome
 * of signing the token.
 */
module AuthHandler {
  import opened Wrappers
  import opened Strs
  import opened Models
  import opened Response
  import opened Validator
  import UserService
  import AuthMiddleware

  const BadParams := "请求参数错误"
  const BadCredentials := "邮箱或密码错误"
  const AccountDisabled := "账户已被禁用"
  const TokenFailed := "生成令牌失败"
  const LoggedIn := "登录成功"
  const NotLoggedIn := "用户未登录"
  const UserNotFound := "用户不存在"
  const LoggedOut := "登出成功"

  datatype LoginRequest = LoginRequest(email: string, password: string)

  const LoginFields: StructFields := map["Email" := "email", "Password" := "password"]

  /** `validate:"required,email"` on the email and `validate:"required"` on the password, in field order. */
  function LoginErrors(req: LoginRequest, isEmail: EmailCheck): (errs: seq<FieldError>)
    ensures errs == [] <==> req.email != "" && isEmail(req.email) && req.password != ""
  {
    (if req.email == "" then [FieldError("Email", "required", "")]
     else if !isEmail(req.email) then [FieldError("Email", "email", "")]
     else [])
    + (if req.password == "" then [FieldError("Password", "required", "")] else [])
  }

  datatype LoginData = LoginData(user: UserResponse, token: string)

  /**
   * `Login`: decode, validate, find the live user by email, compare the
   * password, check the account is active, sign a token. `token` is the
   * signing outcome, `None` when it fails.
   */
  function Login(users: seq<User>, req: Option<LoginRequest>, isEmail: EmailCheck,
                 check: UserService.PasswordCheck, token: Option<string>): (r: Reply<LoginData>)
    ensures CodeMatchesStatus(r)
    ensures r.status == StatusOK ==> r.body.message == LoggedIn && r.body.data.Some?
  {
    if req.None? then BadRequest(BadParams)
    else if LoginErrors(req.value, isEmail) != [] then ValidationError(ValidationText(LoginFields, LoginErrors(req.value, isEmail)))
    else
      var k := UserService.FindByEmail(users, req.value.email);
      if k < 0 then Unauthorized(BadCredentials)
      else
        var user := users[k];
        if !check(user.password, req.value.password) then Unauthorized(BadCredentials)
        else if !IsActive(user) then Forbidden(AccountDisabled)
        else if token.None? then InternalServerError(TokenFailed)
        else SuccessWithMessage(LoggedIn, LoginData(UserToResponse(user), token.value))
  }

  /** A well-formed request is answered 200 exactly when a live, active user has that email and the password matches. */
  lemma LoginSucceedsIff(users: seq<User>, req: LoginRequest, isEmail: EmailCheck,
                         check: UserService.PasswordCheck, token: Option<string>)
    requires LoginErrors(req, isEmail) == []
    ensures var r := Login(users, Some(req), isEmail, check, token);
      var k := UserService.FindByEmail(users, req.email);
      r.status == StatusOK <==>
        k >= 0 && check(users[k].password, req.password) && IsActive(users[k]) && token.Some?
    ensures var r := Login(users, Some(req), isEmail, check, token);
      var k := UserService.FindByEmail(users, req.email);
      r.status == StatusOK ==>
        r.body.data == Some(LoginData(UserToResponse(users[k]), token.value))
        && users[k].email == req.email && UserService.IsLive(users[k])
  {
  }

  /**
   * An unknown email and a wrong password get the same reply, so a caller
   * cannot tell which accounts exist; a disabled account is reported only
   * to a caller who knows its password.
   */
  lemma LoginHidesAccounts(users: seq<User>, others: seq<User>, req: LoginRequest, isEmail: EmailCheck,
                           check: UserService.PasswordCheck, token: Option<string>)
    requires LoginErrors(req, isEmail) == []
    requires !UserService.LiveEmail(users, req.email)
    requires var k := UserService.FindByEmail(others, req.email);
      k >= 0 && !check(others[k].password, req.password)
    ensures Login(users, Some(req), isEmail, check, token) == Login(others, Some(req), isEmail, check, token)
    ensures Login(users, Some(req), isEmail, check, token) == Unauthorized(BadCredentials)
  {
  }

  /** A 403 "账户已被禁用" means the password was right and the account is not active. */
  lemma DisabledOnlyAfterPassword(users: seq<User>, req: LoginRequest, isEmail: EmailCheck,
                                  check: UserService.PasswordCheck, token: Option<string>)
    requires Login(users, Some(req), isEmail, check, token) == Forbidden(AccountDisabled)
    ensures var k := UserService.FindByEmail(users, req.email);
      k >= 0 && check(users[k].password, req.password) && !IsActive(users[k])
  {
    var r := Login(users, Some(req), isEmail, check, token);
    assert r.status == 403;
  }

  /** The claims `GenerateToken` signs for a user: id, email and role, valid from `now` and expiring `lifetime` after it. */
  function TokenClaims(u: User, now: Time, lifetime: nat): (c: AuthMiddleware.Claims)
    ensures c.userId == u.id && c.email == u.email && c.role == u.role
    ensures c.notBefore == now && c.expiresAt - c.notBefore == lifetime
  {
    AuthMiddleware.Claims(u.id, u.email, u.role, now + lifetime, now)
  }

  /**
   * A token issued at login, presented as `Bearer <token>` with a valid
   * signature, authenticates the same user from the second it was issued
   * until the second before it expires; before and from then on it is
   * refused as an invalid token, where the intended middleware says expired.
   */
  lemma IssuedTokenAuthenticates(u: User, now: Time, lifetime: nat, token: string,
                                 verify: AuthMiddleware.SignatureCheck, later: Time)
    requires verify(token) == Some(TokenClaims(u, now, lifetime))
    ensures now <= later < now + lifetime ==>
      AuthMiddleware.Authenticate(AuthMiddleware.BearerPrefix + token, verify, later) == AuthMiddleware.Accept(TokenClaims(u, now, lifetime))
    ensures !(now <= later < now + lifetime) ==>
      AuthMiddleware.Authenticate(AuthMiddleware.BearerPrefix + token, verify, later) == AuthMiddleware.Reject(AuthMiddleware.InvalidToken)
    ensures AuthMiddleware.AuthenticateIntended(AuthMiddleware.BearerPrefix + token, verify, later) == AuthMiddleware.Reject(AuthMiddleware.ExpiredToken)
      <==> later >= now + lifetime
  {
    AuthMiddleware.TokenIsHeaderSuffix(token, verify, later);
    assert (AuthMiddleware.BearerPrefix + token)[|AuthMiddleware.BearerPrefix|..] == token;
  }

  /** `GetProfile`: `userId` is the `user_id` context entry. */
  function GetProfile(users: seq<User>, userId: Option<nat>): (r: Reply<UserResponse>)
    ensures CodeMatchesStatus(r)
    ensures userId.None? ==> r == Unauthorized(NotLoggedIn)
    ensures userId.Some? && UserService.FindUser(users, userId.value) == -1 ==> r == NotFound(UserNotFound)
    ensures r.status == StatusOK <==> userId.Some? && UserService.FindUser(users, userId.value) >= 0
    ensures r.status == StatusOK ==>
      exists i :: 0 <= i < |users| && users[i].id == userId.value && UserService.IsLive(users[i])
                  && r.body.data == Some(UserToResponse(users[i]))
  {
    if userId.None? then Unauthorized(NotLoggedIn)
    else
      var k := UserService.FindUser(users, userId.value);
      if k < 0 then NotFound(UserNotFound) else Success(UserToResponse(users[k]))
  }

  /** A soft-deleted user's still-valid token gets 404 from the profile endpoint. */
  lemma DeletedUserHasNoProfile(users: seq<User>, k: int, when: Time)
    requires 0 <= k < |users|
    requires forall i :: 0 <= i < |users| && i != k ==> users[i].id != users[k].id
    ensures GetProfile(users[k := users[k].(deletedAt := Some(when))], Some(users[k].id)) == NotFound(UserNotFound)
  {
    var after := users[k := users[k].(deletedAt := Some(when))];
    assert forall i :: 0 <= i < |after| ==> !(after[i].id == users[k].id && UserService.IsLive(after[i]));
  }

  /** `Logout`: nothing is revoked; the reply is always a success. */
  function Logout(): (r: Reply<()>)
    ensures r.status == StatusOK && CodeMatchesStatus(r) && r.body.message == LoggedOut
  {
    SuccessWithMessage(LoggedOut, ())
  }

  datatype ChangePasswordRequest = ChangePasswordRequest(oldPassword: string, newPassword: string)

  /** `validate:"required"` on the old password and `validate:"required,min=6"` on the new one. */
  function ChangePasswordErrors(req: ChangePasswordRequest): (errs: seq<FieldError>)
  {
    (if req.oldPassword == "" then [FieldError("OldPassword", "required", "")] else [])
    + (if req.newPassword == "" then [FieldError("NewPassword", "required", "")]
       else if |req.newPassword| < 6 then [FieldError("NewPassword", "min", "6")]
       else [])
  }

  /** The rule holds exactly for a non-empty old password and a new one of at least six characters. */
  lemma ChangePasswordRule(req: ChangePasswordRequest)
    ensures ChangePasswordErrors(req) == [] <==> req.oldPassword != "" && |req.newPassword| >= 6
    ensures |ChangePasswordErrors(req)| <= 2
  {
  }
}
