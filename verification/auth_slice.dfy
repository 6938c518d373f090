/**
 * The frontend session store (frontend/src/store/slices/authSlice.ts): the
 * auth state `{user, token, loading, error, isAuthenticated}` with its
 * reducers, and the four thunks that call the backend and read or write
 * the `token` entry of the browser's local storage. The store is a class
 * whose fields the reducers assign one by one; local storage, the location
 * and the notices belong to the browser the shared axios instance works
 * on. An awaited HTTP call is a parameter: it either resolves with the
 * response body or rejects, after the response interceptor has seen the
 * error response, with the thrown error's message.
 */
module AuthSlice {
  import opened Wrappers
  import ApiInstance

  const LoginFailed := "登录失败"
  const ProfileFailed := "获取用户信息失败"
  const UpdateFailed := "更新用户信息失败"

  /** The `UserResponse` the backend sends; optional fields are `None` when absent. */
  datatype Profile = Profile(
    id: int, username: string, email: string, role: string,
    avatar: Option<string>, phone: Option<string>, studentId: Option<string>,
    major: Option<string>, grade: Option<string>, status: string, createdAt: string)

  /** The `data` member of the backend's envelope, in the shapes the thunks look at. */
  datatype Payload = Nothing | UserData(user: Profile) | LoginData(account: Option<Profile>, token: string)

  /** `ApiResponse`: the JSON body, `response.data` on the axios side. */
  datatype Envelope = Envelope(code: int, message: string, data: Payload)

  /**
   * An awaited axios call: it resolves with the body, or rejects with the
   * error's response (none for a network failure) and its message.
   */
  datatype Call = Resolved(body: Envelope) | Rejected(response: Option<ApiInstance.ErrorResponse>, message: string)

  /** How a thunk settles: its `fulfilled` action carries a payload, its `rejected` action an `error.message`. */
  datatype Settled<T> = Fulfilled(payload: T) | Failed(message: string)

  datatype Session = Session(user: Profile, token: string)

  /** `action.error.message || fallback`: an empty message counts as absent. */
  function ErrorText(message: string, fallback: string): (t: string)
    ensures t != "" || fallback == ""
    ensures message != "" ==> t == message
    ensures message == "" ==> t == fallback
  {
    if message != "" then message else fallback
  }

  /**
   * `loginAsync`: the call succeeds only when the body carries both a user
   * and a non-empty token; otherwise it throws with the body's message, or
   * "登录失败" when that is empty.
   */
  function LoginOutcome(call: Call): (r: Settled<Session>)
    ensures r.Fulfilled? <==>
      call.Resolved? && call.body.data.LoginData? && call.body.data.account.Some? && call.body.data.token != ""
    ensures r.Fulfilled? ==> r.payload == Session(call.body.data.account.value, call.body.data.token)
    ensures call.Rejected? ==> r == Failed(call.message)
    ensures call.Resolved? && r.Failed? ==> r.message == ErrorText(call.body.message, LoginFailed) && r.message != ""
  {
    match call
    case Rejected(_, m) => Failed(m)
    case Resolved(body) =>
      if body.data.LoginData? && body.data.account.Some? && body.data.token != "" then
        Fulfilled(Session(body.data.account.value, body.data.token))
      else
        Failed(ErrorText(body.message, LoginFailed))
  }

  /** What `getProfileAsync` and `updateProfileAsync` store as the user, as the code is written. */
  datatype Held = HeldProfile(profile: Profile) | HeldEnvelope(envelope: Envelope)

  /**
   * `getProfileAsync` / `updateProfileAsync` as written: they return
   * `response.data`, which is the whole envelope, whenever it is present,
   * so the reducer stores the envelope where a profile belongs.
   */
  function ProfileOutcomeAsWritten(call: Call): (r: Settled<Held>)
    ensures call.Resolved? ==> r == Fulfilled(HeldEnvelope(call.body))
    ensures call.Rejected? ==> r == Failed(call.message)
  {
    match call
    case Rejected(_, m) => Failed(m)
    case Resolved(body) => Fulfilled(HeldEnvelope(body))
  }

  /** As written, a successful profile call never yields a profile, even when the body carries one. */
  lemma ProfileAsWrittenStoresEnvelope(call: Call)
    requires call.Resolved?
    ensures ProfileOutcomeAsWritten(call).Fulfilled?
    ensures !ProfileOutcomeAsWritten(call).payload.HeldProfile?
  {
  }

  /** The concrete reply of `/auth/profile` for a user named "alice" ends up as the stored user in its envelope. */
  lemma ProfileAsWrittenExample()
    ensures var p := Profile(1, "alice", "alice@example.com", "student", None, None, None, None, None, "active", "");
      var body := Envelope(200, "success", UserData(p));
      ProfileOutcomeAsWritten(Resolved(body)) == Fulfilled(HeldEnvelope(body))
      && ProfileOutcome(Resolved(body), ProfileFailed) == Fulfilled(p)
  {
  }

  /**
   * The corrected thunks: return `response.data.data` when it holds a
   * user, and otherwise throw with the thunk's own failure text.
   */
  function ProfileOutcome(call: Call, failure: string): (r: Settled<Profile>)
    ensures r.Fulfilled? <==> call.Resolved? && call.body.data.UserData?
    ensures r.Fulfilled? ==> r.payload == call.body.data.user
    ensures call.Rejected? ==> r == Failed(call.message)
    ensures call.Resolved? && r.Failed? ==> r.message == failure
  {
    match call
    case Rejected(_, m) => Failed(m)
    case Resolved(body) => if body.data.UserData? then Fulfilled(body.data.user) else Failed(failure)
  }

  /**
   * The two versions agree on rejected calls; where the corrected thunk
   * yields a profile, the written one yields the envelope around it; and
   * the written one also succeeds on bodies that carry no user at all.
   */
  lemma ProfileVersionsRelate(call: Call, failure: string)
    ensures call.Rejected? ==> ProfileOutcome(call, failure) == Failed(call.message) && ProfileOutcomeAsWritten(call) == Failed(call.message)
    ensures ProfileOutcome(call, failure).Fulfilled? ==>
      ProfileOutcomeAsWritten(call)
        == Fulfilled(HeldEnvelope(Envelope(call.body.code, call.body.message, UserData(ProfileOutcome(call, failure).payload))))
    ensures call.Resolved? && !call.body.data.UserData? ==>
      ProfileOutcome(call, failure).Failed? && ProfileOutcomeAsWritten(call).Fulfilled?
  {
  }

  /**
   * What the response interceptor did to the browser during a call: nothing
   * for a resolved one; for a rejected one, what `Browser.OnError` promises.
   */
  twostate predicate Intercepted(b: ApiInstance.Browser, call: Call)
    reads b
  {
    match call
    case Resolved(_) => unchanged(b)
    case Rejected(response, _) =>
      b.notices == old(b.notices) + [ApiInstance.Notice(response)]
      && (if ApiInstance.IsUnauthorized(response) then b.storage == None && b.location == "/login"
          else b.storage == old(b.storage) && b.location == old(b.location))
  }

  class AuthStore {
    /** The browser whose local storage holds the token. */
    const browser: ApiInstance.Browser
    var user: Option<Profile>
    var token: Option<string>
    var loading: bool
    var error: Option<string>
    var isAuthenticated: bool

    /** `initialState`: read once from storage; an empty stored token is falsy and does not authenticate. */
    constructor (browser: ApiInstance.Browser)
      ensures this.browser == browser
      ensures user == None && token == browser.storage && !loading && error == None
      ensures isAuthenticated <==> browser.storage.Some? && browser.storage.value != ""
    {
      this.browser := browser;
      user := None;
      token := browser.storage;
      loading := false;
      error := None;
      isAuthenticated := browser.storage.Some? && browser.storage.value != "";
    }

    /**
     * The page load that `window.location.href = '/login'` starts: the
     * store is built again from `initialState`, over the same storage.
     */
    method Reload()
      modifies this
      ensures user == None && token == browser.storage && !loading && error == None
      ensures isAuthenticated <==> browser.storage.Some? && browser.storage.value != ""
    {
      user := None;
      token := browser.storage;
      loading := false;
      error := None;
      isAuthenticated := browser.storage.Some? && browser.storage.value != "";
    }

    method ClearError()
      modifies this
      ensures error == None
      ensures user == old(user) && token == old(token) && loading == old(loading)
      ensures isAuthenticated == old(isAuthenticated)
    {
      error := None;
    }

    method SetUser(p: Profile)
      modifies this
      ensures user == Some(p) && isAuthenticated
      ensures token == old(token) && loading == old(loading) && error == old(error)
    {
      user := Some(p);
      isAuthenticated := true;
    }

    method LoginPending()
      modifies this
      ensures loading && error == None
      ensures user == old(user) && token == old(token) && isAuthenticated == old(isAuthenticated)
    {
      loading := true;
      error := None;
    }

    /** The token comes from storage, where the thunk has just written it. */
    method LoginFulfilled(p: Profile)
      modifies this
      ensures !loading && user == Some(p) && token == browser.storage && isAuthenticated
      ensures error == old(error)
    {
      loading := false;
      user := Some(p);
      token := browser.storage;
      isAuthenticated := true;
    }

    /** A failed login keeps the old user and token but is no longer authenticated. */
    method LoginRejected(message: string)
      modifies this
      ensures !loading && error == Some(ErrorText(message, LoginFailed)) && !isAuthenticated
      ensures user == old(user) && token == old(token)
    {
      loading := false;
      error := Some(ErrorText(message, LoginFailed));
      isAuthenticated := false;
    }

    /** The awaited call: on a rejection the response interceptor runs first. */
    method Await(call: Call)
      modifies browser
      ensures Intercepted(browser, call)
    {
      if call.Rejected? {
        var _ := browser.OnError(call.response);
      }
    }

    /**
     * `dispatch(loginAsync(...))`: pending, the call and its storage write,
     * then fulfilled or rejected. A rejected call has also been through the
     * interceptor, which on a 401 removes the token and leaves for "/login".
     */
    method Login(call: Call)
      modifies this, browser
      ensures !loading
      ensures LoginOutcome(call).Fulfilled? ==>
        var s := LoginOutcome(call).payload;
        user == Some(s.user) && token == Some(s.token) && browser.storage == Some(s.token)
        && browser.location == old(browser.location) && browser.notices == old(browser.notices)
        && isAuthenticated && error == None
      ensures LoginOutcome(call).Failed? ==>
        user == old(user) && token == old(token) && !isAuthenticated
        && error == Some(ErrorText(LoginOutcome(call).message, LoginFailed))
        && Intercepted(browser, call)
    {
      LoginPending();
      Await(call);
      var outcome := LoginOutcome(call);
      match outcome
      case Fulfilled(s) =>
        browser.SetToken(s.token);
        LoginFulfilled(s.user);
      case Failed(m) =>
        LoginRejected(m);
    }

    /**
     * `dispatch(getProfileAsync())` with the corrected thunk. Pending does
     * not clear the error; a rejection drops authentication, and the token
     * stays in the state even when the interceptor has removed it from
     * storage.
     */
    method GetProfile(call: Call)
      modifies this, browser
      ensures !loading && token == old(token) && Intercepted(browser, call)
      ensures ProfileOutcome(call, ProfileFailed).Fulfilled? ==>
        user == Some(ProfileOutcome(call, ProfileFailed).payload) && isAuthenticated && error == old(error)
      ensures ProfileOutcome(call, ProfileFailed).Failed? ==>
        user == old(user) && !isAuthenticated
        && error == Some(ErrorText(ProfileOutcome(call, ProfileFailed).message, ProfileFailed))
    {
      loading := true;
      Await(call);
      var outcome := ProfileOutcome(call, ProfileFailed);
      match outcome
      case Fulfilled(p) =>
        loading := false;
        user := Some(p);
        isAuthenticated := true;
      case Failed(m) =>
        loading := false;
        error := Some(ErrorText(m, ProfileFailed));
        isAuthenticated := false;
    }

    /** `dispatch(updateProfileAsync(...))` with the corrected thunk; authentication in the state is never touched. */
    method UpdateProfile(call: Call)
      modifies this, browser
      ensures !loading && token == old(token) && isAuthenticated == old(isAuthenticated)
      ensures Intercepted(browser, call)
      ensures ProfileOutcome(call, UpdateFailed).Fulfilled? ==>
        user == Some(ProfileOutcome(call, UpdateFailed).payload) && error == None
      ensures ProfileOutcome(call, UpdateFailed).Failed? ==>
        user == old(user) && error == Some(ErrorText(ProfileOutcome(call, UpdateFailed).message, UpdateFailed))
    {
      loading := true;
      error := None;
      Await(call);
      var outcome := ProfileOutcome(call, UpdateFailed);
      match outcome
      case Fulfilled(p) =>
        loading := false;
        user := Some(p);
      case Failed(m) =>
        loading := false;
        error := Some(ErrorText(m, UpdateFailed));
    }

    /**
     * `dispatch(logoutAsync())`: storage is cleared and the session reset
     * only once the backend call resolves. The slice has no pending or
     * rejected case, so a rejected call leaves the state as it was; the
     * interceptor still runs, and a 401 removes the token from storage.
     */
    method Logout(call: Call)
      modifies this, browser
      ensures call.Resolved? ==>
        user == None && token == None && error == None && !isAuthenticated && loading == old(loading)
        && browser.storage == None && browser.location == old(browser.location) && browser.notices == old(browser.notices)
      ensures call.Rejected? ==>
        user == old(user) && token == old(token) && error == old(error) && loading == old(loading)
        && isAuthenticated == old(isAuthenticated) && Intercepted(browser, call)
    {
      Await(call);
      if call.Resolved? {
        browser.RemoveToken();
        user := None;
        token := None;
        error := None;
        isAuthenticated := false;
      }
    }

    /**
     * A profile fetch answered 401 (the token has expired or was refused):
     * the interceptor removes the token and sends the browser to "/login",
     * and the reloaded store is logged out.
     */
    method ExpiredSessionEndsAtLogin(response: ApiInstance.ErrorResponse, message: string)
      requires response.status == 401
      modifies this, browser
      ensures browser.storage == None && browser.location == "/login"
      ensures user == None && token == None && !isAuthenticated && error == None
    {
      GetProfile(Rejected(Some(response), message));
      Reload();
    }
  }
}
