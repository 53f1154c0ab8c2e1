/**
 * The route-gating decision of middleware.ts and of the older copy.ts. Both read the route
 * tables of routes.ts, which is not part of this model: the tables are a parameter `Routes`.
 * `encodeURIComponent` is a parameter `encode`; how Next.js builds the absolute URL is not
 * modelled, so a redirect carries the path it is given.
 */
module RouteGate {
  import opened Wrappers

  /** `req.auth`: absent, or a session whose user may carry a role. */
  datatype Auth = LoggedOut | LoggedIn(role: Option<string>)

  datatype Request = Request(auth: Auth, pathname: string, search: string)

  /** The values imported from routes.ts. */
  datatype Routes = Routes(
    defaultLoginRedirect: string,
    apiAuthPrefix: string,
    authRoutes: seq<string>,
    publicRoutes: seq<string>,
    adminRoutes: seq<string>)

  /** The middleware's answer: let the request through, redirect it, or reply "204 No Content". */
  datatype Decision = PassThrough | RedirectTo(target: string) | NoContent

  predicate IsLoggedIn(req: Request) {
    req.auth.LoggedIn?
  }

  const AdminRole := "Admin"

  /** `role === "Admin"`; a logged-out request has no role. */
  predicate IsAdmin(req: Request) {
    req.auth.LoggedIn? && req.auth.role == Some(AdminRole)
  }

  /** `nextUrl.pathname.startsWith(apiAuthPrefix)`. */
  predicate IsApiRoute(req: Request, routes: Routes) {
    routes.apiAuthPrefix <= req.pathname
  }

  predicate IsAuthRoute(req: Request, routes: Routes) {
    req.pathname in routes.authRoutes
  }

  predicate IsPublicRoute(req: Request, routes: Routes) {
    req.pathname in routes.publicRoutes
  }

  predicate IsAdminRoute(req: Request, routes: Routes) {
    req.pathname in routes.adminRoutes
  }

  /** The path the sign-in page returns to: the pathname, followed by the query string when there is one. */
  function CallbackUrl(req: Request): (url: string)
    ensures req.search == "" ==> url == req.pathname
    ensures req.search != "" ==> url == req.pathname + req.search
  {
    if req.search != "" then req.pathname + req.search else req.pathname
  }

  const SignInPrefix := "/auth/signin?callbackUrl="

  function SignInUrl(req: Request, encode: string -> string): string {
    SignInPrefix + encode(CallbackUrl(req))
  }

  /** The decision chain of middleware.ts. */
  function Gate(req: Request, routes: Routes, encode: string -> string): (d: Decision)
    ensures d != NoContent
    ensures d.RedirectTo? ==> d.target == routes.defaultLoginRedirect || d.target == SignInUrl(req, encode)
  {
    if IsAdminRoute(req, routes) && !IsAdmin(req) then RedirectTo(routes.defaultLoginRedirect)
    else if IsApiRoute(req, routes) then PassThrough
    else if IsAuthRoute(req, routes) then
      if IsLoggedIn(req) then RedirectTo(routes.defaultLoginRedirect) else PassThrough
    else if !IsLoggedIn(req) && !IsPublicRoute(req, routes) then RedirectTo(SignInUrl(req, encode))
    else PassThrough
  }

  /** Admin routes are refused to everyone but an administrator, ahead of every other rule: even an API or auth path, even a logged-out visitor. */
  lemma AdminRoutesFirst(req: Request, routes: Routes, encode: string -> string)
    requires IsAdminRoute(req, routes)
    ensures Gate(req, routes, encode) == RedirectTo(routes.defaultLoginRedirect) <==> !IsAdmin(req) || (IsAuthRoute(req, routes) && !IsApiRoute(req, routes))
  {
  }

  /** Outside the admin table, every path under the API prefix passes, logged in or not. */
  lemma ApiPrefixPasses(req: Request, routes: Routes, encode: string -> string)
    requires IsApiRoute(req, routes) && !IsAdminRoute(req, routes)
    ensures Gate(req, routes, encode) == PassThrough
  {
  }

  /** On an auth page that is no admin or API route, exactly the logged-in user is sent to the default page. */
  lemma AuthPagesTurnBackSignedIn(req: Request, routes: Routes, encode: string -> string)
    requires IsAuthRoute(req, routes) && !IsAdminRoute(req, routes) && !IsApiRoute(req, routes)
    ensures Gate(req, routes, encode) == (if IsLoggedIn(req) then RedirectTo(routes.defaultLoginRedirect) else PassThrough)
  {
  }

  /**
   * The sign-in redirect happens exactly to a logged-out visitor of a path in none of the tables
   * (and not under the API prefix); its callback is the path, with the query only when it is non-empty.
   * It is told apart from the default redirect as long as the default page is no sign-in link.
   */
  lemma SignInRedirect(req: Request, routes: Routes, encode: string -> string)
    requires !(IsAdminRoute(req, routes) && !IsAdmin(req))
    requires !(SignInPrefix <= routes.defaultLoginRedirect)
    ensures Gate(req, routes, encode) == RedirectTo(SignInUrl(req, encode)) <==>
      !IsLoggedIn(req) && !IsApiRoute(req, routes) && !IsAuthRoute(req, routes) && !IsPublicRoute(req, routes)
  {
    if !IsLoggedIn(req) && !IsApiRoute(req, routes) && !IsAuthRoute(req, routes) && !IsPublicRoute(req, routes) {
    } else if Gate(req, routes, encode).RedirectTo? {
      var d := Gate(req, routes, encode);
      assert IsAuthRoute(req, routes);
      assert d.target == routes.defaultLoginRedirect;
      SignInDiffersFromDefault(req, routes, encode);
    }
  }

  /** Every sign-in link starts with the sign-in prefix. */
  lemma SignInDiffersFromDefault(req: Request, routes: Routes, encode: string -> string)
    ensures SignInPrefix <= SignInUrl(req, encode)
  {
  }

  /** Every redirect goes to the default page or to the sign-in page. */
  lemma RedirectTargets(req: Request, routes: Routes, encode: string -> string)
    requires Gate(req, routes, encode).RedirectTo?
    ensures Gate(req, routes, encode).target in {routes.defaultLoginRedirect, SignInUrl(req, encode)}
  {
  }

  /** A logged-in administrator is never redirected to sign in and is let through everywhere but the auth pages. */
  lemma AdminPassesOutsideAuthPages(req: Request, routes: Routes, encode: string -> string)
    requires IsAdmin(req) && (!IsAuthRoute(req, routes) || IsApiRoute(req, routes))
    ensures Gate(req, routes, encode) == PassThrough
  {
  }

  /** The decision chain of copy.ts: no admin check, and the unauthenticated redirect is commented out. */
  function LegacyGate(req: Request, routes: Routes): (d: Decision)
    ensures IsApiRoute(req, routes) ==> d == PassThrough
    ensures d.RedirectTo? ==> d.target == routes.defaultLoginRedirect && IsLoggedIn(req)
  {
    if IsApiRoute(req, routes) then PassThrough
    else if IsAuthRoute(req, routes) then
      if IsLoggedIn(req) then RedirectTo(routes.defaultLoginRedirect) else PassThrough
    else NoContent
  }

  /** copy.ts redirects only a logged-in user on an auth page, and answers 204 to everything outside the API prefix and the auth pages. */
  lemma LegacyOutcomes(req: Request, routes: Routes)
    ensures LegacyGate(req, routes).RedirectTo? <==> !IsApiRoute(req, routes) && IsAuthRoute(req, routes) && IsLoggedIn(req)
    ensures LegacyGate(req, routes) == NoContent <==> !IsApiRoute(req, routes) && !IsAuthRoute(req, routes)
  {
  }

  /** copy.ts ignores the role and the query string. */
  lemma LegacyIgnoresRole(req: Request, routes: Routes, role: Option<string>, search: string)
    requires req.auth.LoggedIn?
    ensures LegacyGate(req, routes) == LegacyGate(req.(auth := LoggedIn(role)), routes)
    ensures LegacyGate(req, routes) == LegacyGate(req.(search := search), routes)
  {
  }

  /**
   * Where the two gates part: a logged-out visitor of a path in no table, outside the API
   * prefix, is sent to sign in by middleware.ts but answered 204 by copy.ts.
   */
  lemma GatesDisagreeOnLoggedOut(req: Request, routes: Routes, encode: string -> string)
    requires !IsLoggedIn(req)
    requires !IsApiRoute(req, routes) && !IsAuthRoute(req, routes) && !IsPublicRoute(req, routes) && !IsAdminRoute(req, routes)
    ensures Gate(req, routes, encode) == RedirectTo(SignInUrl(req, encode))
    ensures LegacyGate(req, routes) == NoContent
  {
  }

  /** On the API prefix and on auth pages outside the admin table, the two gates agree. */
  lemma GatesAgreeOnApiAndAuth(req: Request, routes: Routes, encode: string -> string)
    requires !IsAdminRoute(req, routes) && (IsApiRoute(req, routes) || IsAuthRoute(req, routes))
    ensures Gate(req, routes, encode) == LegacyGate(req, routes)
  {
  }
}
