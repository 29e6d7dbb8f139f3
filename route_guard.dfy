/**
 * The request guard of middleware.ts: a decision made from the request's
 * pathname and whether the visitor has a session.
 */
module RouteGuard {

  datatype Decision =
    | RedirectToLogin(redirectedFrom: string)   // `/login?redirectedFrom=<pathname>`
    | RedirectToDashboard                       // `/dashboard`
    | PassThrough                               // the request continues unchanged

  /** `pathname.startsWith('/login') || pathname.startsWith('/register')`. */
  predicate IsAuthRoute(path: string)
  {
    "/login" <= path || "/register" <= path
  }

  /** `pathname.startsWith` one of '/dashboard', '/polls/create', '/profile'. */
  predicate IsProtectedRoute(path: string)
  {
    "/dashboard" <= path || "/polls/create" <= path || "/profile" <= path
  }

  /** The decision of `middleware(req)`, lines 13-32. */
  function Guard(path: string, hasSession: bool): (d: Decision)
    ensures d.RedirectToLogin? <==> IsProtectedRoute(path) && !hasSession
    ensures d.RedirectToLogin? ==> d.redirectedFrom == path
    ensures d == RedirectToDashboard <==> IsAuthRoute(path) && hasSession
    ensures d == PassThrough <==> !(IsProtectedRoute(path) && !hasSession) && !(IsAuthRoute(path) && hasSession)
  {
    if IsProtectedRoute(path) && !hasSession then RedirectToLogin(path)
    else if IsAuthRoute(path) && hasSession then RedirectToDashboard
    else PassThrough
  }

  /** A path that starts with `a` does not start with a prefix that differs from `a` at some position. */
  lemma PrefixesClash(a: string, b: string, path: string, k: nat)
    requires k < |a| && k < |b| && a[k] != b[k]
    requires a <= path
    ensures !(b <= path)
  {
    assert path[k] == a[k];
  }

  /** No path is both an auth route and a protected one, so at most one redirect applies. */
  lemma NoPathIsBoth(path: string)
    ensures !(IsAuthRoute(path) && IsProtectedRoute(path))
  {
    var login, register := "/login", "/register";
    if login <= path {
      PrefixesClash(login, "/dashboard", path, 1);
      PrefixesClash(login, "/polls/create", path, 1);
      PrefixesClash(login, "/profile", path, 1);
    }
    if register <= path {
      PrefixesClash(register, "/dashboard", path, 1);
      PrefixesClash(register, "/polls/create", path, 1);
      PrefixesClash(register, "/profile", path, 1);
    }
  }

  /** Whatever the session, an auth route is never sent to the login page and a protected one never to the dashboard. */
  lemma RedirectsNeverCross(path: string, hasSession: bool)
    ensures IsAuthRoute(path) ==> !Guard(path, hasSession).RedirectToLogin?
    ensures IsProtectedRoute(path) ==> Guard(path, hasSession) != RedirectToDashboard
  {
    NoPathIsBoth(path);
  }
}
