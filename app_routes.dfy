/** The application's routes and their two guards: `ProtectedRoute` for
    signed-in non-admin pages and `AdminProtectedRoute` for the admin panel.
    Both decide from the session's token and the signed-in user. */
module AppRoutes {
  import opened JsBuiltins

  /** The signed-in user as the session holds it. */
  datatype SessionUser = SessionUser(id: string, name: string, isAdmin: bool)

  /** What a guard answers with: a redirect, or its child page. */
  datatype Guard = Redirect(path: string) | RenderChild

  /** `token` is truthy: present and non-empty. */
  predicate HasToken(token: Option<string>) {
    token.Some? && token.value != []
  }

  /** `user?.isAdmin` is truthy. */
  predicate IsAdmin(user: Option<SessionUser>) {
    user.Some? && user.value.isAdmin
  }

  /** The user guard: without a token to /login, an admin to /admin, anyone
      else sees the page. */
  function ProtectedRoute(token: Option<string>, user: Option<SessionUser>): (g: Guard)
    ensures g == Redirect("/login") <==> !HasToken(token)
    ensures g == Redirect("/admin") <==> HasToken(token) && IsAdmin(user)
    ensures g == RenderChild <==> HasToken(token) && !IsAdmin(user)
  {
    if !HasToken(token) then Redirect("/login")
    else if IsAdmin(user) then Redirect("/admin")
    else RenderChild
  }

  /** The admin guard: the page exactly for an admin with a token, everyone
      else to /dashboard. */
  function AdminProtectedRoute(token: Option<string>, user: Option<SessionUser>): (g: Guard)
    ensures g == RenderChild <==> HasToken(token) && IsAdmin(user)
    ensures g != RenderChild ==> g == Redirect("/dashboard")
  {
    if !HasToken(token) || !IsAdmin(user) then Redirect("/dashboard") else RenderChild
  }

  /** With a token, exactly one of the two guards lets its page through;
      without one, neither does. */
  lemma GuardsSplitSessions(token: Option<string>, user: Option<SessionUser>)
    ensures HasToken(token) ==>
              (ProtectedRoute(token, user) == RenderChild <==> AdminProtectedRoute(token, user) != RenderChild)
    ensures !HasToken(token) ==>
              ProtectedRoute(token, user) != RenderChild && AdminProtectedRoute(token, user) != RenderChild
  {
  }

  // ---------------------------------------------------------------------
  // The route table

  datatype Page = Main | Login | SignUp | ForgotPassword
                | UserDashboard | CreateBlogForm | CategoryList | AdminDashboard

  /** A route's element: a page, or a page behind one of the guards. */
  datatype Element = Plain(page: Page) | UserOnly(page: Page) | AdminOnly(page: Page)

  /** `s` without its trailing slashes: a prefix of `s` that does not end
      in "/", and everything cut off is a slash. */
  function StripTrailingSlashes(s: string): (r: string)
    ensures r <= s
    ensures r == [] || r[|r| - 1] != '/'
    ensures forall i :: |r| <= i < |s| ==> s[i] == '/'
  {
    if s != [] && s[|s| - 1] == '/' then StripTrailingSlashes(s[..|s| - 1]) else s
  }

  /** The path the router compares with the table's paths: React Router
      matches a route's path ignoring letter case and accepts any number of
      trailing slashes after it. */
  function RoutePath(path: string): string {
    StripTrailingSlashes(AsciiLower(path))
  }

  /** App's own `<Routes>` table, looked up by the path as the router
      compares it: the admin panel is the one page behind the admin guard,
      three pages sit behind the user guard, and every path the table does
      not name falls to the `*` route, `Main`. */
  function TableRoute(p: string): (e: Element)
    ensures e.AdminOnly? <==> p == "/admin"
    ensures e.UserOnly? <==> p == "/dashboard" || p == "/create-blog" || p == "/categories"
    ensures e.Plain? && e.page != Main <==> p == "/login" || p == "/signup" || p == "/forgot-password"
  {
    if p == "/login" then Plain(Login)
    else if p == "/signup" then Plain(SignUp)
    else if p == "/forgot-password" then Plain(ForgotPassword)
    else if p == "/dashboard" then UserOnly(UserDashboard)
    else if p == "/create-blog" then UserOnly(CreateBlogForm)
    else if p == "/categories" then UserOnly(CategoryList)
    else if p == "/admin" then AdminOnly(AdminDashboard)
    else Plain(Main)
  }

  /** The route a path reaches: whatever its letter case and however many
      slashes trail it, the admin panel is reached exactly through /admin,
      the user guard exactly through its three paths, and the sign-in pages
      through theirs; everything else is `Main`. */
  function RouteOf(path: string): (e: Element)
    ensures e.AdminOnly? <==> RoutePath(path) == "/admin"
    ensures e.UserOnly? <==>
              RoutePath(path) == "/dashboard" || RoutePath(path) == "/create-blog" || RoutePath(path) == "/categories"
    ensures e.Plain? && e.page != Main <==>
              RoutePath(path) == "/login" || RoutePath(path) == "/signup" || RoutePath(path) == "/forgot-password"
  {
    TableRoute(RoutePath(path))
  }

  /** A path without ASCII capitals and without a trailing slash is
      compared as it is. */
  lemma PlainRoutePath(path: string)
    requires path == [] || path[|path| - 1] != '/'
    requires forall i :: 0 <= i < |path| ==> !('A' <= path[i] <= 'Z')
    ensures RoutePath(path) == path
  {
    AsciiLowerFacts(path, "");
  }

  /** The guards redirect to paths already in the form the router compares,
      so a redirect is followed by looking its target up in the table. */
  lemma RedirectTargetsAreCompared()
    ensures RoutePath("/login") == "/login"
    ensures RoutePath("/admin") == "/admin"
    ensures RoutePath("/dashboard") == "/dashboard"
  {
    PlainRoutePath("/login");
    PlainRoutePath("/admin");
    PlainRoutePath("/dashboard");
  }

  /** A path routes as its lower-case spelling does, and as itself with a
      trailing slash added. */
  lemma RouteIgnoresCaseAndTrailingSlash(path: string)
    ensures RouteOf(AsciiLower(path)) == RouteOf(path)
    ensures RouteOf(path + "/") == RouteOf(path)
  {
    AsciiLowerFacts(path, "/");
    AsciiLowerFacts("/", "");
    var lowered := AsciiLower(path + "/");
    assert lowered[..|lowered| - 1] == AsciiLower(path);
  }

  /** The admin panel and the user dashboard are reached through their
      guards whatever the letter case of the path, and with a trailing
      slash. */
  lemma VariantSpellingsReachGuards()
    ensures RouteOf("/Admin") == AdminOnly(AdminDashboard)
    ensures RouteOf("/admin/") == AdminOnly(AdminDashboard)
    ensures RouteOf("/Dashboard") == UserOnly(UserDashboard)
  {
    RedirectTargetsAreCompared();
    LowersTo("/Admin", "/admin");
    LowersTo("/Dashboard", "/dashboard");
    RouteIgnoresCaseAndTrailingSlash("/admin");
    RouteIgnoresCaseAndTrailingSlash("/Admin");
    RouteIgnoresCaseAndTrailingSlash("/Dashboard");
  }

  /** The page shown for a compared path `p`, following at most `hops`
      redirects through the table. */
  function Follow(p: string, token: Option<string>, user: Option<SessionUser>, hops: nat): (r: Option<Page>)
    ensures hops >= 1 && (p != "/admin" || HasToken(token)) ==> r.Some?
    ensures hops >= 2 ==> r.Some?
    decreases hops
  {
    match TableRoute(p)
    case Plain(page) => Some(page)
    case UserOnly(page) =>
      (match ProtectedRoute(token, user)
       case RenderChild => Some(page)
       case Redirect(to) => if hops == 0 then None else Follow(to, token, user, hops - 1))
    case AdminOnly(page) =>
      (match AdminProtectedRoute(token, user)
       case RenderChild => Some(page)
       case Redirect(to) => if hops == 0 then None else Follow(to, token, user, hops - 1))
  }

  /** The page shown for `path`, following at most `hops` redirects.
      Redirects never cycle: with two hops every path reaches a page, for
      every session, and one hop suffices except for /admin without a
      token (/admin, then /dashboard, then /login). */
  function Render(path: string, token: Option<string>, user: Option<SessionUser>, hops: nat): (r: Option<Page>)
    ensures hops >= 1 && (RoutePath(path) != "/admin" || HasToken(token)) ==> r.Some?
    ensures hops >= 2 ==> r.Some?
  {
    Follow(RoutePath(path), token, user, hops)
  }

  /** However many redirects are followed from a compared path, the admin
      panel is shown only to an admin with a token. */
  lemma {:induction false} FollowShowsAdminPanelOnlyToAdmins(p: string, token: Option<string>,
                                                              user: Option<SessionUser>, hops: nat)
    requires Follow(p, token, user, hops) == Some(AdminDashboard)
    ensures HasToken(token) && IsAdmin(user)
    decreases hops
  {
    match TableRoute(p)
    case Plain(page) =>
    case UserOnly(page) =>
      if ProtectedRoute(token, user) != RenderChild && hops > 0 {
        FollowShowsAdminPanelOnlyToAdmins(ProtectedRoute(token, user).path, token, user, hops - 1);
      }
    case AdminOnly(page) =>
      if AdminProtectedRoute(token, user) != RenderChild && hops > 0 {
        FollowShowsAdminPanelOnlyToAdmins(AdminProtectedRoute(token, user).path, token, user, hops - 1);
      }
  }

  /** Whatever the path and however many redirects are followed, the admin
      panel is shown only to an admin with a token. */
  lemma AdminPanelOnlyForAdmins(path: string, token: Option<string>, user: Option<SessionUser>, hops: nat)
    requires Render(path, token, user, hops) == Some(AdminDashboard)
    ensures HasToken(token) && IsAdmin(user)
  {
    FollowShowsAdminPanelOnlyToAdmins(RoutePath(path), token, user, hops);
  }

  /** From a compared path, App's user pages are shown only with a token
      and never to an admin. */
  lemma {:induction false} FollowShowsUserPagesOnlyToUsers(p: string, token: Option<string>,
                                                            user: Option<SessionUser>, hops: nat)
    requires var r := Follow(p, token, user, hops);
             r == Some(UserDashboard) || r == Some(CreateBlogForm) || r == Some(CategoryList)
    ensures HasToken(token) && !IsAdmin(user)
    decreases hops
  {
    match TableRoute(p)
    case Plain(page) =>
    case UserOnly(page) =>
      if ProtectedRoute(token, user) != RenderChild && hops > 0 {
        FollowShowsUserPagesOnlyToUsers(ProtectedRoute(token, user).path, token, user, hops - 1);
      }
    case AdminOnly(page) =>
      if AdminProtectedRoute(token, user) != RenderChild && hops > 0 {
        FollowShowsUserPagesOnlyToUsers(AdminProtectedRoute(token, user).path, token, user, hops - 1);
      }
  }

  /** Through App's own table, the user pages are shown only with a token
      and never to an admin. */
  lemma UserPagesOnlyForUsers(path: string, token: Option<string>, user: Option<SessionUser>, hops: nat)
    requires var r := Render(path, token, user, hops);
             r == Some(UserDashboard) || r == Some(CreateBlogForm) || r == Some(CategoryList)
    ensures HasToken(token) && !IsAdmin(user)
  {
    FollowShowsUserPagesOnlyToUsers(RoutePath(path), token, user, hops);
  }
}
