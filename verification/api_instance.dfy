/**
 * The shared axios instance (frontend/src/api/instance.ts). Its request
 * interceptor writes the bearer header from local storage into the
 * outgoing config; its response interceptor passes successes through and,
 * on an error, shows one notice, clears the stored token and leaves for
 * "/login" on a 401, and rejects with the same error. The browser state it
 * touches (the `token` storage entry, the location, the notices shown) is
 * a class; a request's config is a class whose headers the interceptor
 * updates in place.
 */
module ApiInstance {
  import opened Wrappers

  const BaseUrl := "/api/v1"
  const TimeoutMs := 10000

  const SessionExpired := "登录已过期，请重新登录"
  const NoPermission := "权限不足"
  const NoResource := "请求的资源不存在"
  const ServerFault := "服务器内部错误"
  const RequestFailed := "请求失败"
  const NetworkDown := "网络连接失败，请检查网络设置"

  /** The response of a failed request: its status and the envelope's `message`, when there is one. */
  datatype ErrorResponse = ErrorResponse(status: int, message: Option<string>)

  /** A 401 response: the status on which the interceptor ends the session. */
  predicate IsUnauthorized(response: Option<ErrorResponse>) {
    response.Some? && response.value.status == 401
  }

  /** The value of the `Authorization` header for a stored token, when the token is truthy. */
  function BearerHeader(stored: Option<string>): (h: Option<string>)
    ensures h.Some? <==> stored.Some? && stored.value != ""
    ensures h.Some? ==> h.value == "Bearer " + stored.value && h.value[7..] == stored.value
  {
    if stored.Some? && stored.value != "" then Some("Bearer " + stored.value) else None
  }

  /** The notice the response interceptor shows for an error; a missing response is a network failure. */
  function Notice(response: Option<ErrorResponse>): (n: string)
    ensures n != ""
    ensures response.None? ==> n == NetworkDown
    ensures response.Some? && response.value.status == 401 ==> n == SessionExpired
    ensures response.Some? && response.value.status == 403 ==> n == NoPermission
    ensures response.Some? && response.value.status == 404 ==> n == NoResource
    ensures response.Some? && response.value.status == 500 ==> n == ServerFault
    ensures response.Some? && response.value.status !in {401, 403, 404, 500} ==>
      n == (match response.value.message
            case Some(m) => if m != "" then m else RequestFailed
            case None => RequestFailed)
  {
    match response
    case None => NetworkDown
    case Some(r) =>
      if r.status == 401 then SessionExpired
      else if r.status == 403 then NoPermission
      else if r.status == 404 then NoResource
      else if r.status == 500 then ServerFault
      else match r.message
        case Some(m) => if m != "" then m else RequestFailed
        case None => RequestFailed
  }

  /** The fixed notices never depend on what the server said. */
  lemma FixedNoticesIgnoreServerText(status: int, m1: Option<string>, m2: Option<string>)
    requires status in {401, 403, 404, 500}
    ensures Notice(Some(ErrorResponse(status, m1))) == Notice(Some(ErrorResponse(status, m2)))
    ensures Notice(Some(ErrorResponse(status, m1))) in {SessionExpired, NoPermission, NoResource, ServerFault}
  {
  }

  /** A server message reaches the user unchanged only for the statuses without a fixed notice. */
  lemma ServerTextShownIff(status: int, m: string)
    requires m != "" && m !in {SessionExpired, NoPermission, NoResource, ServerFault}
    ensures Notice(Some(ErrorResponse(status, Some(m)))) == m <==> status !in {401, 403, 404, 500}
  {
  }

  class RequestConfig {
    var headers: map<string, string>

    constructor (headers: map<string, string>)
      ensures this.headers == headers
    {
      this.headers := headers;
    }
  }

  class Browser {
    /** The `token` entry of local storage. */
    var storage: Option<string>
    var location: string
    var notices: seq<string>

    constructor (stored: Option<string>, location: string)
      ensures storage == stored && this.location == location && notices == []
    {
      storage := stored;
      this.location := location;
      notices := [];
    }

    /** The request interceptor: add `Authorization: Bearer <token>` when a token is stored, else leave the headers alone. */
    method OnRequest(config: RequestConfig)
      modifies config
      ensures BearerHeader(storage).Some? ==>
        config.headers == old(config.headers)["Authorization" := BearerHeader(storage).value]
      ensures BearerHeader(storage).None? ==> config.headers == old(config.headers)
    {
      var token := storage;
      if token.Some? && token.value != "" {
        config.headers := config.headers["Authorization" := "Bearer " + token.value];
      }
    }

    /**
     * The response interceptor's error path: one notice, and on a 401 the
     * stored token is removed and the location becomes "/login". The
     * promise is rejected with the error it was given.
     */
    method OnError(response: Option<ErrorResponse>) returns (rejection: Option<ErrorResponse>)
      modifies this
      ensures rejection == response
      ensures notices == old(notices) + [Notice(response)]
      ensures IsUnauthorized(response) ==> storage == None && location == "/login"
      ensures !IsUnauthorized(response) ==> storage == old(storage) && location == old(location)
    {
      if response.Some? && response.value.status == 401 {
        storage := None;
        location := "/login";
      }
      notices := notices + [Notice(response)];
      rejection := response;
    }

    /** `localStorage.setItem('token', t)`. */
    method SetToken(t: string)
      modifies this
      ensures storage == Some(t) && location == old(location) && notices == old(notices)
    {
      storage := Some(t);
    }

    /** `localStorage.removeItem('token')`. */
    method RemoveToken()
      modifies this
      ensures storage == None && location == old(location) && notices == old(notices)
    {
      storage := None;
    }

    /** Once a 401 has been handled, the next request leaves the headers as it found them. */
    method UnauthorizedThenRequest(status401: ErrorResponse, config: RequestConfig) returns (rejection: Option<ErrorResponse>)
      requires status401.status == 401
      modifies this, config
      ensures storage == None && location == "/login" && rejection == Some(status401)
      ensures config.headers == old(config.headers)
    {
      rejection := OnError(Some(status401));
      OnRequest(config);
    }
  }
}
