/** The web client's session and routes: the login state kept in memory and
    mirrored in the browser's storage, and what each path shows (or where it
    redirects) for a given login state and role. */
module Routing {
  import opened Common

  /** The browser's `localStorage`: string keys to string values. */
  type Storage = map<string, string>

  /** The in-memory login state: `isAuthenticated` and `userRole`. */
  datatype Auth = Auth(authenticated: bool, role: Option<string>)

  /** `localStorage.getItem(key)`: the stored text, or null. */
  function Get(st: Storage, key: string): (r: Option<string>)
    ensures r.Some? <==> key in st
    ensures r.Some? ==> r.value == st[key]
  {
    if key in st then Some(st[key]) else None
  }

  /** The state read from storage when the app mounts and whenever another tab
      changes it: logged in exactly when `isLoggedIn` holds the text "true". */
  function Restore(st: Storage): (a: Auth)
    ensures a.authenticated <==> "isLoggedIn" in st && st["isLoggedIn"] == "true"
    ensures a.role.Some? <==> "userRole" in st
    ensures a.role.Some? ==> a.role.value == st["userRole"]
  {
    Auth(Get(st, "isLoggedIn") == Some("true"), Get(st, "userRole"))
  }

  /** `setItem` converts its value to text, so a null role is stored as "null". */
  function StoredText(o: Option<string>): (t: string)
    ensures o.Some? ==> t == o.value
    ensures o.None? ==> t == "null"
  {
    if o.Some? then o.value else "null"
  }

  /** The session after a login or logout: the storage and the in-memory state. */
  datatype Session = Session(storage: Storage, auth: Auth)

  /** `handleLogin(role)`: both storage keys are written and the state is
      authenticated with that role. */
  function HandleLogin(st: Storage, role: Option<string>): (r: Session)
    ensures r.auth == Auth(true, role)
    ensures r.storage.Keys == st.Keys + {"isLoggedIn", "userRole"}
    ensures r.storage["isLoggedIn"] == "true" && r.storage["userRole"] == StoredText(role)
    ensures forall k :: k in st && k != "isLoggedIn" && k != "userRole" ==> r.storage[k] == st[k]
  {
    Session(st["isLoggedIn" := "true"]["userRole" := StoredText(role)], Auth(true, role))
  }

  /** `handleLogout`: both storage keys are removed and the state is logged out. */
  function HandleLogout(st: Storage): (r: Session)
    ensures r.auth == Auth(false, None)
    ensures r.storage.Keys == st.Keys - {"isLoggedIn", "userRole"}
    ensures forall k :: k in r.storage ==> r.storage[k] == st[k]
  {
    Session(st - {"isLoggedIn", "userRole"}, Auth(false, None))
  }

  /** A reload after a login restores the same state exactly when the role was
      not null: a null role comes back as the text "null". */
  lemma LoginSurvivesReload(st: Storage, role: Option<string>)
    ensures var s := HandleLogin(st, role);
      Restore(s.storage).authenticated && (Restore(s.storage) == s.auth <==> role.Some?)
  {
  }

  /** After a logout, whatever the earlier session, a reload finds nobody
      logged in; logging in and out leaves the other storage keys as they were. */
  lemma LogoutSurvivesReload(st: Storage, role: Option<string>)
    ensures Restore(HandleLogout(st).storage) == HandleLogout(st).auth
    ensures HandleLogout(HandleLogin(st, role).storage).storage == st - {"isLoggedIn", "userRole"}
    ensures !HandleLogout(HandleLogin(st, role).storage).auth.authenticated
  {
  }

  // ---------------------------------------------------------------------------
  // Routes
  // ---------------------------------------------------------------------------

  /** What the router renders for a path. */
  datatype Screen =
    | LoginScreen
    | ForgotPasswordScreen
    | SecurityDashboard
    | AnalyticsScreen
    | VisitorLogScreen
    | UserManagementScreen
    | SettingsScreen
    | Redirect(to: string)
    | NoMatch

  /** The paths that need a login. */
  predicate Protected(path: string) {
    path in {"/dashboard", "/visitor-log", "/analytics", "/user-management", "/settings"}
  }

  /** The route table: the root shows the login page or redirects a logged-in
      user to the dashboard; "/login" always redirects to the root; a protected
      path redirects a logged-out user to "/login"; the dashboard depends on the
      role, and user management is for administrators only. */
  function Route(a: Auth, path: string): (s: Screen)
    ensures Protected(path) && !a.authenticated ==> s == Redirect("/login")
    ensures s == NoMatch <==> !Protected(path) && path !in {"/", "/login", "/forgot-password"}
    ensures s == UserManagementScreen <==> path == "/user-management" && a.authenticated && a.role == Some("admin")
    ensures s == SecurityDashboard <==> path == "/dashboard" && a.authenticated && a.role == Some("security")
  {
    if path == "/" then (if a.authenticated then Redirect("/dashboard") else LoginScreen)
    else if path == "/login" then Redirect("/")
    else if path == "/forgot-password" then ForgotPasswordScreen
    else if !Protected(path) then NoMatch
    else if !a.authenticated then Redirect("/login")
    else if path == "/dashboard" then (if a.role == Some("security") then SecurityDashboard else AnalyticsScreen)
    else if path == "/visitor-log" then VisitorLogScreen
    else if path == "/analytics" then AnalyticsScreen
    else if path == "/user-management" then (if a.role == Some("admin") then UserManagementScreen else Redirect("/dashboard"))
    else SettingsScreen
  }

  /** The screen reached by following at most `hops` redirects. */
  function Resolve(a: Auth, path: string, hops: nat): Screen
    decreases hops
  {
    match Route(a, path)
    case Redirect(to) => if hops == 0 then Redirect(to) else Resolve(a, to, hops - 1)
    case s => s
  }

  /** The screen a logged-in user lands on: the guard dashboard for the
      'security' role and the analytics page for any other role. */
  function Home(a: Auth): Screen {
    if a.role == Some("security") then SecurityDashboard else AnalyticsScreen
  }

  /** Redirects never loop: within three hops every path renders a page. A
      logged-out user who asks for a protected path, the root or "/login"
      ends on the login page; a logged-in user asking for the root, "/login"
      or a page their role may not see ends on their home screen. */
  lemma RedirectsSettle(a: Auth, path: string)
    ensures !Resolve(a, path, 3).Redirect?
    ensures !a.authenticated && (Protected(path) || path == "/" || path == "/login") ==>
      Resolve(a, path, 3) == LoginScreen
    ensures a.authenticated && (path == "/" || path == "/login") ==> Resolve(a, path, 3) == Home(a)
    ensures a.authenticated && path == "/user-management" && a.role != Some("admin") ==>
      Resolve(a, path, 3) == Home(a)
  {
    var login := Resolve(a, "/login", 2);
    if !a.authenticated {
      assert Resolve(a, "/", 1) == LoginScreen;
      assert Resolve(a, "/", 2) == LoginScreen;
      assert login == Resolve(a, "/", 1);
      assert Resolve(a, "/login", 3) == LoginScreen;
      if Protected(path) {
        assert Resolve(a, path, 3) == login;
      }
    } else {
      assert Resolve(a, "/dashboard", 1) == Home(a);
      assert Resolve(a, "/", 2) == Home(a);
      assert Resolve(a, "/login", 3) == Home(a);
      assert Resolve(a, "/user-management", 3) == (if a.role == Some("admin") then UserManagementScreen else Home(a));
    }
  }
}
