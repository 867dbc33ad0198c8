/**
 * The client-side route guard and routing table of the single-page app.
 * `ProtectedRoute` decides, from the auth context (still loading, and the
 * signed-in user if any) and the route's two flags, whether to show the
 * spinner, render the page, or redirect. `AppRoutes` maps each path to its
 * page behind the guard, and sends a signed-in user who opens `/login` to
 * the home page of the user's role.
 */
module Routes {
  import opened Wrappers

  /** The signed-in user as the auth context holds it; only the role matters here. */
  datatype Account = Account(role: string)

  datatype Page = LoginPage | ChiefDashboard | AdminDashboard | UserDashboard | EventsPage | ProfilePage

  /** What a route shows: the spinner, a page, a redirect, or nothing for an unknown path. */
  datatype Screen = Spinner | Show(page: Page) | Redirect(to: string) | NoMatch

  /** The paths of the routing table. */
  const RoutePaths: set<string> := {"/login", "/chief", "/admin", "/dashboard", "/events", "/profile", "/"}

  /**
   * The role-to-home mapping used when a signed-in user opens `/login`.
   */
  function Home(role: string): (path: string)
    ensures path == "/chief" <==> role == "chief"
    ensures path == "/admin" <==> role == "admin"
    ensures path == "/dashboard" <==> role != "chief" && role != "admin"
  {
    if role == "chief" then "/chief" else if role == "admin" then "/admin" else "/dashboard"
  }

  /** Where the login form sends a user after signing in. */
  function AfterSignIn(role: string): (path: string)
    ensures path == Home(role)
  {
    if role == "chief" then
      "/chief"
    else if role == "admin" then
      "/admin"
    else
      "/dashboard"
  }

  /**
   * `ProtectedRoute` wrapping `page`. The loading check comes first, then
   * the signed-in check, then `requireChief`, then `requireAdmin`.
   */
  function ProtectedRoute(loading: bool, user: Option<Account>, requireChief: bool, requireAdmin: bool, page: Page)
    : (s: Screen)
    ensures loading ==> s == Spinner
    ensures !loading && user.None? ==> s == Redirect("/login")
    ensures !loading && user.Some? ==>
      (s == Show(page) <==>
        (requireChief ==> user.value.role == "chief") &&
        (requireAdmin ==> user.value.role == "admin" || user.value.role == "chief"))
    ensures s.Show? ==> s.page == page
    ensures s.Redirect? ==> s.to in {"/login", "/admin", "/dashboard"}
  {
    if loading then Spinner
    else if user.None? then Redirect("/login")
    else if requireChief && user.value.role != "chief" then
      Redirect(if user.value.role == "admin" then "/admin" else "/dashboard")
    else if requireAdmin && !(user.value.role == "admin" || user.value.role == "chief") then
      Redirect("/dashboard")
    else Show(page)
  }

  /** `AppRoutes`: what the app shows at `path`. */
  function AppRoutes(path: string, loading: bool, user: Option<Account>): (s: Screen)
    ensures s == NoMatch <==> path !in RoutePaths
    ensures path == "/login" ==>
      s == (if user.None? then Show(LoginPage) else Redirect(Home(user.value.role)))
  {
    if path == "/login" then
      if user.None? then Show(LoginPage) else Redirect(Home(user.value.role))
    else if path == "/chief" then ProtectedRoute(loading, user, true, false, ChiefDashboard)
    else if path == "/admin" then ProtectedRoute(loading, user, false, true, AdminDashboard)
    else if path == "/dashboard" then ProtectedRoute(loading, user, false, false, UserDashboard)
    else if path == "/events" then ProtectedRoute(loading, user, false, false, EventsPage)
    else if path == "/profile" then ProtectedRoute(loading, user, false, false, ProfilePage)
    else if path == "/" then Redirect("/login")
    else NoMatch
  }

  /** Follows at most `hops` redirects from `path`, as the router does on each `Navigate`. */
  function Follow(path: string, loading: bool, user: Option<Account>, hops: nat): (s: Screen)
    ensures !AppRoutes(path, loading, user).Redirect? ==> s == AppRoutes(path, loading, user)
    ensures hops == 0 ==> s == AppRoutes(path, loading, user)
    ensures s.Redirect? ==> AppRoutes(path, loading, user).Redirect?
    decreases hops
  {
    var s := AppRoutes(path, loading, user);
    if s.Redirect? && hops > 0 then Follow(s.to, loading, user, hops - 1) else s
  }

  /** While the auth context loads, every protected route shows the spinner. */
  lemma SpinnerWhileLoading(path: string, user: Option<Account>)
    requires path in RoutePaths - {"/login", "/"}
    ensures AppRoutes(path, true, user) == Spinner
  {
  }

  /** With nobody signed in, every protected route redirects to `/login`. */
  lemma SignedOutGoesToLogin(path: string)
    requires path in RoutePaths - {"/login"}
    ensures AppRoutes(path, false, None) == Redirect("/login")
    ensures Follow(path, false, None, 1) == Show(LoginPage)
  {
  }

  /**
   * `/chief` renders only for a chief; an admin is sent to `/admin`,
   * anyone else to `/dashboard`.
   */
  lemma ChiefRouteGate(role: string)
    ensures AppRoutes("/chief", false, Some(Account(role))) ==
      if role == "chief" then Show(ChiefDashboard)
      else if role == "admin" then Redirect("/admin")
      else Redirect("/dashboard")
  {
  }

  /** `/admin` renders for an admin and for a chief; anyone else is sent to `/dashboard`. */
  lemma AdminRouteGate(role: string)
    ensures AppRoutes("/admin", false, Some(Account(role))) ==
      if role == "admin" || role == "chief" then Show(AdminDashboard) else Redirect("/dashboard")
  {
  }

  /** The unflagged routes render for every signed-in user, whatever the role string. */
  lemma OpenRoutesRender(role: string)
    ensures AppRoutes("/dashboard", false, Some(Account(role))) == Show(UserDashboard)
    ensures AppRoutes("/events", false, Some(Account(role))) == Show(EventsPage)
    ensures AppRoutes("/profile", false, Some(Account(role))) == Show(ProfilePage)
  {
  }

  /** The role's home page renders for that role. */
  lemma HomeRenders(role: string)
    ensures AppRoutes(Home(role), false, Some(Account(role))).Show?
  {
  }

  /**
   * No redirect loop: for a signed-in user, every redirect issued by the
   * guard or by `/login` lands on a route that renders for the same role.
   */
  lemma RedirectTargetRenders(path: string, role: string)
    requires path != "/"
    ensures var s := AppRoutes(path, false, Some(Account(role)));
      s.Redirect? ==> AppRoutes(s.to, false, Some(Account(role))).Show?
  {
  }

  /**
   * Every route settles within two redirects, whoever is signed in and
   * whether or not the auth context is loading; for a signed-in user whose
   * context has loaded, it settles on a page.
   */
  lemma EveryRouteSettles(path: string, loading: bool, user: Option<Account>)
    requires path in RoutePaths
    ensures !Follow(path, loading, user, 2).Redirect?
    ensures !loading ==> Follow(path, loading, user, 2).Show?
  {
  }

  /**
   * `/` always redirects to `/login`; for a signed-in user `/login` redirects
   * again, so the bound of two hops in `EveryRouteSettles` cannot be lowered.
   */
  lemma RootGoesToLogin(loading: bool, user: Option<Account>)
    ensures AppRoutes("/", loading, user) == Redirect("/login")
    ensures user.Some? ==> Follow("/", loading, user, 1) == Redirect(Home(user.value.role))
  {
  }
}
