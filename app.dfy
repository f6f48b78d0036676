/** The routing of frontend/src/App.js: which page a path shows for a given
    authentication state. */
module AppRoutes {
  import opened Common
  import opened AuthContext
  import opened Text
  import UserModel

  /** The role string the page compares against. The page keeps its own
      literal rather than sharing the server's constant, as App.js does;
      `RoleLiteralsAgree` shows the two are the same string. */
  const AdminRole := "admin"

  /** The page's role literal is the one the server stores for admins. */
  lemma RoleLiteralsAgree()
    ensures AdminRole == UserModel.AdminRole
  {
  }

  /** What a route element renders: the spinner, a redirect, the page, or
      nothing when no route matches. */
  datatype RouteView = Spinner | Redirect(to: string) | Render | NoMatch

  predicate IsAdmin(user: Option<Profile>) {
    user.Some? && user.value.role == AdminRole
  }

  /** `ProtectedRoute`. */
  function Protect(s: AuthState, adminOnly: bool): (v: RouteView)
    ensures s.loading ==> v == Spinner
    ensures !s.loading && !s.isAuthenticated ==> v == Redirect("/login")
    ensures !s.loading && s.isAuthenticated && adminOnly && !IsAdmin(s.user) ==> v == Redirect("/")
    ensures v == Render <==> !s.loading && s.isAuthenticated && (!adminOnly || IsAdmin(s.user))
  {
    if s.loading then Spinner
    else if !s.isAuthenticated then Redirect("/login")
    else if adminOnly && !IsAdmin(s.user) then Redirect("/")
    else Render
  }

  /** The routes that need a session, and whether each is for admins only. */
  const Guards: map<string, bool> := map["/cart" := false, "/orders" := false, "/admin" := true]

  /** The routes open to everyone. */
  const PublicPaths: set<string> := {"/", "/login", "/register", "/menu"}

  /** `s` without its trailing slashes. */
  function DropTrailingSlashes(s: string): (r: string)
    ensures |r| <= |s| && r == s[..|r|]
    ensures |r| == 0 || r[|r| - 1] != '/'
    ensures forall i :: |r| <= i < |s| ==> s[i] == '/'
  {
    if |s| > 0 && s[|s| - 1] == '/' then DropTrailingSlashes(s[..|s| - 1]) else s
  }

  /** The form in which the router compares a location with its route
      table: route paths are not case-sensitive, a trailing slash is
      ignored, and the empty path is the root. */
  function RoutePath(path: string): (r: string)
    ensures IsRoutePath(r)
    ensures r != "/" ==> |r| <= |path| && r == ToLower(path)[..|r|]
  {
    var t := DropTrailingSlashes(ToLower(path));
    if t == "" then "/" else t
  }

  /** A path in normal form: no upper-case letter, and the root or a path
      that does not end in a slash. */
  predicate IsRoutePath(p: string) {
    && (forall i :: 0 <= i < |p| ==> !('A' <= p[i] <= 'Z'))
    && (p == "/" || (|p| > 0 && p[|p| - 1] != '/'))
  }

  /** A path already in normal form is routed as itself. */
  lemma NormalPathIsFixed(p: string)
    requires IsRoutePath(p)
    ensures RoutePath(p) == p
  {
    assert ToLower(p) == p;
    if p == "/" {
      assert DropTrailingSlashes(p) == DropTrailingSlashes(p[..0]);
    }
  }

  /** Normalising twice is normalising once. */
  lemma RoutePathIdempotent(path: string)
    ensures RoutePath(RoutePath(path)) == RoutePath(path)
  {
    NormalPathIsFixed(RoutePath(path));
  }

  /** A trailing slash does not change the route a location takes. */
  lemma TrailingSlashIgnored(path: string)
    ensures RoutePath(path + "/") == RoutePath(path)
  {
    var t := ToLower(path);
    assert ToLower(path + "/") == t + "/";
    assert (t + "/")[..|t|] == t;
    assert DropTrailingSlashes(t + "/") == DropTrailingSlashes(t);
  }

  /** Upper- and lower-case letters take the same route. */
  lemma CaseIgnored(path: string)
    ensures RoutePath(ToLower(path)) == RoutePath(path)
  {
    ToLowerIdempotent(path);
  }

  /** Every guarded path is already in normal form, so it is reached by
      its own spelling. */
  lemma GuardPathsAreNormal()
    ensures forall p :: p in Guards ==> RoutePath(p) == p
  {
    forall p | p in Guards
      ensures RoutePath(p) == p
    {
      assert IsRoutePath(p);
      NormalPathIsFixed(p);
    }
  }

  /** Every public path is already in normal form. */
  lemma PublicPathsAreNormal()
    ensures forall p :: p in PublicPaths ==> RoutePath(p) == p
  {
    forall p | p in PublicPaths
      ensures RoutePath(p) == p
    {
      assert IsRoutePath(p);
      NormalPathIsFixed(p);
    }
  }

  /** `AppContent` and its route table, matched on the normal form of the
      location. */
  function View(s: AuthState, path: string): (v: RouteView)
    ensures s.loading ==> v == Spinner
    ensures RoutePath(path) in Guards ==> v == Protect(s, Guards[RoutePath(path)])
    ensures !s.loading && RoutePath(path) in PublicPaths ==> v == Render
    ensures RoutePath(path) !in Guards && RoutePath(path) !in PublicPaths && !s.loading ==> v == NoMatch
  {
    var p := RoutePath(path);
    if s.loading then Spinner
    else if p in Guards then Protect(s, Guards[p])
    else if p in PublicPaths then Render
    else NoMatch
  }

  /** A location differing from another only in letter case or a trailing
      slash shows the same page: "/Cart/" is the guarded cart page. */
  lemma CaseAndSlashIgnored(s: AuthState, path: string)
    ensures View(s, path + "/") == View(s, path)
    ensures View(s, ToLower(path)) == View(s, path)
  {
    TrailingSlashIgnored(path);
    CaseIgnored(path);
  }

  /** A route that is not admin-only never turns away a signed-in user. */
  lemma SessionOpensCustomerRoutes(s: AuthState, path: string)
    requires !s.loading && s.isAuthenticated
    requires RoutePath(path) == "/cart" || RoutePath(path) == "/orders"
    ensures View(s, path) == Render
  {
  }

  /** After a logout every protected route sends the visitor to the login
      page. */
  lemma LogoutClosesProtectedRoutes(s: AuthState, path: string)
    requires !s.loading && RoutePath(path) in Guards
    ensures View(Reduce(s, Logout), path) == Redirect("/login")
  {
  }

  /** After a sign-in every guarded page renders, except that an admin-only
      page sends a non-admin home. */
  lemma SignInOpensByRole(s: AuthState, u: Profile, t: Option<string>, path: string)
    requires !s.loading && RoutePath(path) in Guards
    ensures View(Reduce(s, LoginSuccess(u, t)), path)
         == (if Guards[RoutePath(path)] && u.role != AdminRole then Redirect("/") else Render)
  {
  }

  /** While the provider boots every path shows the spinner. */
  lemma BootingShowsSpinner(stored: Option<string>, path: string)
    ensures View(InitialState(stored), path) == Spinner
  {
  }
}
