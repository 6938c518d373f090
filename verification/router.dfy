/**
 * The frontend route guards and route table (frontend/src/router/index.tsx).
 * A guard decides, from the session's `isAuthenticated` and `loading`,
 * whether a page is shown, a spinner is shown, or the browser is sent to
 * another path; following those redirects from any path ends on a page or
 * the spinner after at most two hops. Paths are matched as React Router
 * matches them: ignoring ASCII case and any trailing slashes.
 */
module Router {
  /** The pages the table can mount; the four placeholder routes share one lazy component. */
  datatype Page = ApplyPage | AdminPage | LoginPage | DashboardPage | Placeholder

  /** What one route renders: a page, the full-screen spinner, or `<Navigate to=... replace />`. */
  datatype Screen = Show(page: Page) | Spinner | Navigate(to: string)

  /** `ProtectedRoute`: the spinner while loading, then the children only for an authenticated session. */
  function ProtectedRoute(isAuthenticated: bool, loading: bool, page: Page): (s: Screen)
    ensures loading ==> s == Spinner
    ensures !loading ==> (s == Show(page) <==> isAuthenticated)
    ensures !loading && !isAuthenticated ==> s == Navigate("/login")
  {
    if loading then Spinner
    else if isAuthenticated then Show(page)
    else Navigate("/login")
  }

  /** `PublicRoute`: an authenticated session is sent to "/"; `loading` is not consulted. */
  function PublicRoute(isAuthenticated: bool, page: Page): (s: Screen)
    ensures isAuthenticated <==> s == Navigate("/")
    ensures !isAuthenticated <==> s == Show(page)
  {
    if isAuthenticated then Navigate("/") else Show(page)
  }

  /** ASCII upper-case letters become lower-case; every other character is kept. */
  function LowerChar(c: char): (d: char)
    ensures 'A' <= c <= 'Z' ==> d as int == c as int + 32
    ensures !('A' <= c <= 'Z') ==> d == c
  {
    if 'A' <= c <= 'Z' then (c as int + 32) as char else c
  }

  function LowerAscii(s: string): (r: string)
    ensures |r| == |s| && forall i :: 0 <= i < |s| ==> r[i] == LowerChar(s[i])
  {
    seq(|s|, i requires 0 <= i < |s| => LowerChar(s[i]))
  }

  /** The path with all trailing slashes removed. */
  function StripTrailingSlashes(s: string): (r: string)
    ensures r <= s && (r == [] || r[|r| - 1] != '/')
    ensures forall i :: |r| <= i < |s| ==> s[i] == '/'
  {
    if |s| > 0 && s[|s| - 1] == '/' then StripTrailingSlashes(s[..|s| - 1]) else s
  }

  /**
   * The key a path is matched by: route patterns end in an optional run of
   * slashes and are compiled case-insensitively, so "/" matches the empty key.
   */
  function RouteKey(path: string): string {
    StripTrailingSlashes(LowerAscii(path))
  }

  /** The paths the guards redirect to are their own keys. */
  lemma RedirectTargetsAreKeys()
    ensures RouteKey("/") == "" && RouteKey("/apply") == "/apply" && RouteKey("/login") == "/login"
  {
    assert LowerAscii("/") == "/";
    assert "/"[..0] == "";
    assert LowerAscii("/apply") == "/apply";
    assert LowerAscii("/login") == "/login";
  }

  /** The paths wrapped in `ProtectedRoute`. */
  const ProtectedPaths: set<string> := {"/admin", "/dashboard", "/profile", "/labs", "/applications", "/notifications"}

  /** The `<Routes>` table: one element per path, and `*` for every other path. */
  function Route(path: string, isAuthenticated: bool, loading: bool): (s: Screen)
    ensures RouteKey(path) == "" ==> s == Navigate("/apply")
    ensures RouteKey(path) == "/apply" ==> s == Show(ApplyPage)
    ensures RouteKey(path) == "/login" ==> s == PublicRoute(isAuthenticated, LoginPage)
    ensures RouteKey(path) in ProtectedPaths ==>
      (s == Spinner <==> loading) && (s.Show? <==> !loading && isAuthenticated)
      && (s == Navigate("/login") <==> !loading && !isAuthenticated)
    ensures RouteKey(path) == "/admin" && !loading && isAuthenticated ==> s == Show(AdminPage)
    ensures RouteKey(path) == "/dashboard" && !loading && isAuthenticated ==> s == Show(DashboardPage)
    ensures RouteKey(path) in ProtectedPaths - {"/admin", "/dashboard"} && !loading && isAuthenticated ==>
      s == Show(Placeholder)
    ensures RouteKey(path) !in ProtectedPaths && RouteKey(path) !in {"", "/apply", "/login"} ==> s == Navigate("/")
  {
    match RouteKey(path)
    case "" => Navigate("/apply")
    case "/apply" => Show(ApplyPage)
    case "/admin" => ProtectedRoute(isAuthenticated, loading, AdminPage)
    case "/login" => PublicRoute(isAuthenticated, LoginPage)
    case "/dashboard" => ProtectedRoute(isAuthenticated, loading, DashboardPage)
    case "/profile" => ProtectedRoute(isAuthenticated, loading, Placeholder)
    case "/labs" => ProtectedRoute(isAuthenticated, loading, Placeholder)
    case "/applications" => ProtectedRoute(isAuthenticated, loading, Placeholder)
    case "/notifications" => ProtectedRoute(isAuthenticated, loading, Placeholder)
    case _ => Navigate("/")
  }

  /** Follow at most `hops` redirects from `path` with the session unchanged. */
  function Land(path: string, isAuthenticated: bool, loading: bool, hops: nat): Screen
    decreases hops
  {
    var s := Route(path, isAuthenticated, loading);
    if s.Navigate? && hops > 0 then Land(s.to, isAuthenticated, loading, hops - 1) else s
  }

  /** Every path settles on a page or the spinner within two redirects, whatever the session. */
  lemma {:induction false} EveryPathSettles(path: string, isAuthenticated: bool, loading: bool)
    ensures !Land(path, isAuthenticated, loading, 2).Navigate?
  {
    RedirectTargetsAreKeys();
    var s := Route(path, isAuthenticated, loading);
    if s.Navigate? {
      assert s.to in {"/apply", "/", "/login"};
      var t := Route(s.to, isAuthenticated, loading);
      if t.Navigate? {
        assert t.to in {"/", "/apply"};
        assert Land(t.to, isAuthenticated, loading, 0) == Show(ApplyPage);
      }
    }
  }

  /**
   * Where a visit ends: a protected page is shown exactly to an
   * authenticated session that is not loading; an unauthenticated visitor
   * lands on the login page, and an authenticated visitor to "/login" or to
   * an unknown path lands on the application form.
   */
  lemma ProtectedPathOutcome(path: string, isAuthenticated: bool, loading: bool)
    requires RouteKey(path) in ProtectedPaths
    ensures loading ==> Land(path, isAuthenticated, loading, 2) == Spinner
    ensures !loading && isAuthenticated ==>
      (Land(path, isAuthenticated, loading, 2).Show? && Land(path, isAuthenticated, loading, 2).page != LoginPage)
    ensures !loading && !isAuthenticated ==> Land(path, isAuthenticated, loading, 2) == Show(LoginPage)
  {
    RedirectTargetsAreKeys();
  }

  lemma AuthenticatedLoginLandsOnForm(isAuthenticated: bool, loading: bool)
    ensures isAuthenticated ==> Land("/login", isAuthenticated, loading, 2) == Show(ApplyPage)
    ensures !isAuthenticated ==> Land("/login", isAuthenticated, loading, 2) == Show(LoginPage)
  {
    RedirectTargetsAreKeys();
  }

  lemma UnknownPathLandsOnForm(path: string, isAuthenticated: bool, loading: bool)
    requires RouteKey(path) !in ProtectedPaths && RouteKey(path) !in {"", "/apply", "/login"}
    ensures Land(path, isAuthenticated, loading, 2) == Show(ApplyPage)
  {
    RedirectTargetsAreKeys();
  }

  /** A trailing slash does not change where a path is routed. */
  lemma TrailingSlashIgnored(path: string, isAuthenticated: bool, loading: bool)
    ensures Route(path + "/", isAuthenticated, loading) == Route(path, isAuthenticated, loading)
  {
    assert LowerAscii(path + "/") == LowerAscii(path) + "/";
    var l := LowerAscii(path) + "/";
    assert l[..|l| - 1] == LowerAscii(path);
  }

  /** Upper-case spellings of the table's paths reach the same routes. */
  lemma UpperCasePathsMatch(isAuthenticated: bool, loading: bool)
    ensures Route("/ADMIN", isAuthenticated, loading) == Route("/admin", isAuthenticated, loading)
    ensures Route("/Login/", isAuthenticated, loading) == Route("/login", isAuthenticated, loading)
    ensures Route("/admin/", isAuthenticated, loading) == ProtectedRoute(isAuthenticated, loading, AdminPage)
  {
    assert LowerAscii("/ADMIN") == "/admin";
    assert LowerAscii("/admin") == "/admin";
    assert LowerAscii("/Login/") == "/login/";
    assert LowerAscii("/login") == "/login";
    assert LowerAscii("/admin/") == "/admin/";
    assert "/login/"[..6] == "/login";
    assert "/admin/"[..6] == "/admin";
  }
}
