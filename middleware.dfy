/**
 * The route guard (middleware.ts): for a request path and its cookies,
 * whether the request proceeds or is sent to the home page with the path
 * in a `redirect` query parameter.
 */
module RouteGuard {
  import opened Js

  datatype Decision = Next | Redirect(location: string, redirectParam: string)

  const ProtectedRoutes: seq<string> := ["/dashboard"]
  const AuthRoutes: seq<string> := ["/auth/callback"]
  const AccessCookie: string := "sb-access-token"
  const FallbackCookie: string := "supabase-auth-token"

  /** `routes.some(route => path.startsWith(route))`. */
  predicate UnderAny(routes: seq<string>, path: string)
  {
    exists k :: 0 <= k < |routes| && StartsWith(path, routes[k])
  }

  /** `cookies.get(name)?.value`. */
  function Cookie(cookies: map<string, string>, name: string): Option<string>
  {
    if name in cookies then Some(cookies[name]) else None
  }

  /** The access cookie when it is non-empty, otherwise whatever the fallback cookie holds. */
  function SessionToken(cookies: map<string, string>): Option<string>
  {
    if Truthy(Cookie(cookies, AccessCookie)) then Cookie(cookies, AccessCookie) else Cookie(cookies, FallbackCookie)
  }

  function LoginRedirect(path: string): Decision
  {
    Redirect("/", path)
  }

  function Middleware(path: string, cookies: map<string, string>): Decision
  {
    if UnderAny(AuthRoutes, path) then Next
    else if UnderAny(ProtectedRoutes, path) then
      var token := SessionToken(cookies);
      if !Truthy(token) then LoginRedirect(path)
      else if |token.value| > 10 then Next
      else LoginRedirect(path)
    else Next
  }

  // ---------------------------------------------------------------------
  // Properties

  /** A path under the auth callback proceeds whatever the cookies say. */
  lemma AuthRouteWins(path: string, cookies: map<string, string>)
    requires StartsWith(path, "/auth/callback")
    ensures Middleware(path, cookies) == Next
  {
    assert StartsWith(path, AuthRoutes[0]);
  }

  /**
   * A request is turned away exactly when its path starts with "/dashboard"
   * and it carries no token longer than ten characters; it is then sent to
   * "/" with the path as `redirect`. Every other path proceeds.
   */
  lemma RedirectIff(path: string, cookies: map<string, string>)
    ensures Middleware(path, cookies).Redirect? <==>
      StartsWith(path, "/dashboard") && !(Truthy(SessionToken(cookies)) && |SessionToken(cookies).value| > 10)
    ensures Middleware(path, cookies).Redirect? ==> Middleware(path, cookies) == Redirect("/", path)
    ensures !StartsWith(path, "/dashboard") ==> Middleware(path, cookies) == Next
  {
    if StartsWith(path, "/dashboard") {
      assert StartsWith(path, ProtectedRoutes[0]);
      assert path[1] == 'd' != "/auth/callback"[1];
      assert !UnderAny(AuthRoutes, path);
    }
  }

  /** The protection is a prefix test: "/dashboard/orders" and "/dashboardX" are guarded, "/dash" is not. */
  lemma ProtectionIsPrefixMatch()
    ensures Middleware("/dashboardX", map[]) == Redirect("/", "/dashboardX")
    ensures Middleware("/dashboard/orders", map[]) == Redirect("/", "/dashboard/orders")
    ensures Middleware("/dash", map[]) == Next
  {
    RedirectIff("/dashboardX", map[]);
    RedirectIff("/dashboard/orders", map[]);
    RedirectIff("/dash", map[]);
    assert "/dashboardX"[..10] == "/dashboard";
    assert "/dashboard/orders"[..10] == "/dashboard";
  }

  /** The token is the access cookie when non-empty, else the fallback cookie, which may itself be missing or empty. */
  lemma TokenChoice(cookies: map<string, string>)
    ensures AccessCookie in cookies && cookies[AccessCookie] != "" ==> SessionToken(cookies) == Some(cookies[AccessCookie])
    ensures !(AccessCookie in cookies && cookies[AccessCookie] != "") ==>
      SessionToken(cookies) == (if FallbackCookie in cookies then Some(cookies[FallbackCookie]) else None)
    ensures Truthy(SessionToken(cookies)) <==>
      (AccessCookie in cookies && cookies[AccessCookie] != "") || (FallbackCookie in cookies && cookies[FallbackCookie] != "")
  {
  }

  /** A short token is treated like a missing one: both give the same redirect. */
  lemma ShortTokenLikeNoToken(path: string, token: string)
    requires StartsWith(path, "/dashboard") && |token| <= 10
    ensures Middleware(path, map[AccessCookie := token]) == Middleware(path, map[]) == Redirect("/", path)
  {
    RedirectIff(path, map[AccessCookie := token]);
    RedirectIff(path, map[]);
  }
}
