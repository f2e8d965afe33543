/**
 * The route guard of middleware.ts: a stateless decision, made afresh for
 * every request, between passing the request through and redirecting it
 * to the login page or to the playground entry page.
 *
 * The session lookup through the auth provider is not modelled; its only
 * observable outcome here, session present or absent, is a parameter.
 */
module Middleware {
  import opened Wrappers

  const DashboardsPrefix: string := "/dashboards"
  const ProtectedPrefix: string := "/playground/protected"
  const LoginPath: string := "/login"
  const PlaygroundPath: string := "/playground"
  /** The cookie the guard reads; the session store writes a cookie of the same name. */
  const ApiKeyCookie: string := "api_key"

  /** The parts of `req.nextUrl` a redirect can carry over. */
  datatype Url = Url(origin: string, pathname: string, search: string)

  /** An inbound request: its URL and the cookies the browser sent with it. */
  datatype Request = Request(url: Url, cookies: map<string, string>)

  /** `NextResponse.next()` or `NextResponse.redirect(url)`. */
  datatype Response = Next | Redirect(location: Url)

  /** A redirect to a clone of the request URL whose pathname is replaced. */
  function RedirectTo(req: Request, pathname: string): (r: Response)
    ensures r.Redirect? && r.location.pathname == pathname
    ensures r.location.origin == req.url.origin && r.location.search == req.url.search
  {
    Redirect(req.url.(pathname := pathname))
  }

  /** No path starts with both protected prefixes: they differ at their second character. */
  lemma PrefixesDisjoint(path: string)
    ensures StartsWith(path, DashboardsPrefix) ==> !StartsWith(path, ProtectedPrefix)
  {
    if StartsWith(path, DashboardsPrefix) && |ProtectedPrefix| <= |path| {
      assert path[1] == path[..|DashboardsPrefix|][1] == 'd';
      assert path[..|ProtectedPrefix|][1] == path[1];
    }
  }

  /**
   * The decision of `middleware`: the dashboard rule first, then the
   * playground rule, then pass-through. A redirect keeps everything of
   * the request URL except its pathname.
   */
  function Guard(hasSession: bool, req: Request): (r: Response)
    ensures r.Redirect? ==> r.location.origin == req.url.origin && r.location.search == req.url.search
    ensures r.Redirect? ==> r.location.pathname == LoginPath || r.location.pathname == PlaygroundPath
    ensures r == RedirectTo(req, LoginPath) <==>
              !hasSession && StartsWith(req.url.pathname, DashboardsPrefix)
    ensures r == RedirectTo(req, PlaygroundPath) <==>
              StartsWith(req.url.pathname, ProtectedPrefix) && !Truthy(Lookup(req.cookies, ApiKeyCookie))
    ensures r == Next <==>
              (hasSession || !StartsWith(req.url.pathname, DashboardsPrefix)) &&
              (!StartsWith(req.url.pathname, ProtectedPrefix) || Truthy(Lookup(req.cookies, ApiKeyCookie)))
  {
    PrefixesDisjoint(req.url.pathname);
    if !hasSession && StartsWith(req.url.pathname, DashboardsPrefix) then
      RedirectTo(req, LoginPath)
    else if StartsWith(req.url.pathname, ProtectedPrefix) && !Truthy(Lookup(req.cookies, ApiKeyCookie)) then
      RedirectTo(req, PlaygroundPath)
    else
      Next
  }

  /** Without a session, every dashboard path is sent to /login, whatever the cookies. */
  lemma DashboardWithoutSessionGoesToLogin(req: Request)
    requires StartsWith(req.url.pathname, DashboardsPrefix)
    ensures Guard(false, req).Redirect? && Guard(false, req).location.pathname == LoginPath
    ensures Guard(true, req) == Next
  {
    PrefixesDisjoint(req.url.pathname);
  }

  /** A protected playground path is sent to /playground exactly when the cookie is missing or empty. */
  lemma ProtectedNeedsNonEmptyCookie(hasSession: bool, req: Request)
    requires StartsWith(req.url.pathname, ProtectedPrefix)
    ensures Guard(hasSession, req) == (if Truthy(Lookup(req.cookies, ApiKeyCookie))
                                       then Next else RedirectTo(req, PlaygroundPath))
  {
    PrefixesDisjoint(req.url.pathname);
  }

  /** An empty `api_key` cookie counts as missing. */
  lemma EmptyCookieIsMissing(hasSession: bool, url: Url, cookies: map<string, string>)
    requires StartsWith(url.pathname, ProtectedPrefix)
    ensures Guard(hasSession, Request(url, cookies[ApiKeyCookie := ""])) ==
            Guard(hasSession, Request(url, cookies - {ApiKeyCookie}))
  {
    PrefixesDisjoint(url.pathname);
  }

  /**
   * Any non-empty value of the cookie admits the request: the guard never
   * compares it with the key store, so a deleted or invented key passes too.
   */
  lemma AnyCookieValueAdmits(hasSession: bool, url: Url, cookies: map<string, string>, value: string)
    requires StartsWith(url.pathname, ProtectedPrefix)
    requires value != ""
    ensures Guard(hasSession, Request(url, cookies[ApiKeyCookie := value])) == Next
  {
    PrefixesDisjoint(url.pathname);
  }

  /** At most one redirect rule can fire for any request. */
  lemma AtMostOneRuleFires(hasSession: bool, req: Request)
    ensures !((!hasSession && StartsWith(req.url.pathname, DashboardsPrefix)) &&
              (StartsWith(req.url.pathname, ProtectedPrefix) && !Truthy(Lookup(req.cookies, ApiKeyCookie))))
  {
    PrefixesDisjoint(req.url.pathname);
  }

  /** The session plays no part on protected playground paths. */
  lemma SessionIrrelevantToPlayground(req: Request)
    requires StartsWith(req.url.pathname, ProtectedPrefix)
    ensures Guard(true, req) == Guard(false, req)
  {
    PrefixesDisjoint(req.url.pathname);
  }

  /** The cookies play no part on dashboard paths. */
  lemma CookiesIrrelevantToDashboard(hasSession: bool, url: Url, c1: map<string, string>, c2: map<string, string>)
    requires StartsWith(url.pathname, DashboardsPrefix)
    ensures Guard(hasSession, Request(url, c1)) == Guard(hasSession, Request(url, c2))
  {
    PrefixesDisjoint(url.pathname);
  }

  /** Paths outside both prefixes always pass through. */
  lemma OtherPathsPassThrough(hasSession: bool, req: Request)
    requires !StartsWith(req.url.pathname, DashboardsPrefix)
    requires !StartsWith(req.url.pathname, ProtectedPrefix)
    ensures Guard(hasSession, req) == Next
  {
  }

  /** A Next.js `:path*` pattern: the base path itself or anything below it. */
  predicate MatchesBelow(path: string, base: string)
    ensures MatchesBelow(path, base) ==> StartsWith(path, base)
  {
    path == base || StartsWith(path, base + "/")
  }

  /** The `config.matcher` list: `/dashboards/:path*` and `/playground/protected/:path*`. */
  predicate Matched(path: string)
    ensures Matched(path) ==> StartsWith(path, DashboardsPrefix) || StartsWith(path, ProtectedPrefix)
  {
    MatchesBelow(path, DashboardsPrefix) || MatchesBelow(path, ProtectedPrefix)
  }

  /**
   * What the server answers: the guard runs only on matched paths;
   * every other request passes through untouched.
   */
  function Handle(hasSession: bool, req: Request): (r: Response)
    ensures !Matched(req.url.pathname) ==> r == Next
    ensures Matched(req.url.pathname) ==> r == Guard(hasSession, req)
  {
    if Matched(req.url.pathname) then Guard(hasSession, req) else Next
  }

  /** Every matched path falls under exactly one of the guard's two prefixes. */
  lemma MatchedPathsHaveAPrefix(path: string)
    requires Matched(path)
    ensures StartsWith(path, DashboardsPrefix) != StartsWith(path, ProtectedPrefix)
  {
    PrefixesDisjoint(path);
  }

  /**
   * A path that starts with `base` but continues with something other than
   * a `/`, such as `/dashboardsX`: the guard's `startsWith` accepts it, a
   * `:path*` pattern does not.
   */
  predicate IsSibling(path: string, base: string) {
    StartsWith(path, base) && |path| > |base| && path[|base|] != '/'
  }

  /** On a path starting with `base`, the `:path*` pattern matches exactly when the path is no sibling. */
  lemma BelowIffNotSibling(path: string, base: string)
    requires StartsWith(path, base)
    ensures MatchesBelow(path, base) <==> !IsSibling(path, base)
  {
  }

  /**
   * Both directions of the matcher: a path is matched exactly when it
   * starts with one of the two guard prefixes and is not a sibling of it,
   * so the bases and everything under `base + "/"` are matched.
   */
  lemma MatchedIffPrefixedNotSibling(path: string)
    ensures Matched(path) <==>
            (StartsWith(path, DashboardsPrefix) && !IsSibling(path, DashboardsPrefix)) ||
            (StartsWith(path, ProtectedPrefix) && !IsSibling(path, ProtectedPrefix))
  {
  }

  /**
   * The server's answer differs from the guard's exactly on sibling paths
   * the guard would redirect: everywhere else, the matcher hands the
   * guard's own decision back.
   */
  lemma HandleDiffersOnlyOnSiblings(hasSession: bool, req: Request)
    ensures Handle(hasSession, req) != Guard(hasSession, req) <==>
            Guard(hasSession, req).Redirect? &&
            (IsSibling(req.url.pathname, DashboardsPrefix) || IsSibling(req.url.pathname, ProtectedPrefix))
  {
    PrefixesDisjoint(req.url.pathname);
    MatchedIffPrefixedNotSibling(req.url.pathname);
  }

  /**
   * The matcher is narrower than the guard's `startsWith` tests: a sibling
   * path such as `/dashboardsX` never reaches the guard, although the guard
   * alone would redirect it.
   */
  lemma SiblingPathSkipsGuard(url: Url, cookies: map<string, string>)
    requires url.pathname == "/dashboardsX"
    ensures Handle(false, Request(url, cookies)) == Next
    ensures Guard(false, Request(url, cookies)) == RedirectTo(Request(url, cookies), LoginPath)
  {
    assert url.pathname[..|DashboardsPrefix|] == DashboardsPrefix;
    assert url.pathname[..|DashboardsPrefix + "/"|] != DashboardsPrefix + "/" by {
      assert url.pathname[..|DashboardsPrefix + "/"|][11] == 'X';
    }
  }
}
