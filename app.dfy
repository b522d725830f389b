/**
 * The application shell: the tab that follows the path, the path a tab
 * leads to, the session flag set on load, login and logout, and which
 * screen the routes show. The component's state cells are the fields of
 * `App`; each hook body and handler is a method over them.
 */
module AppShell {
  import opened Wrappers
  import opened JsValue
  import opened ApiConfig
  import opened HttpModel
  import opened AuthApi
  import Text

  /** The bottom tabs' paths, by tab index. */
  const TabPaths: seq<string> := ["/agenda", "/history", "/booking", "/map", "/menu"]

  /** The effect on `location.pathname`: the first matching prefix names the tab, the agenda otherwise. */
  function PathToTab(path: string): (tab: nat)
    ensures tab < |TabPaths|
  {
    if Text.StartsWith(path, "/history") then 1
    else if Text.StartsWith(path, "/booking") then 2
    else if Text.StartsWith(path, "/map") then 3
    else if Text.StartsWith(path, "/menu") then 4
    else 0
  }

  /** `paths[index]`: `undefined` (None) outside the five tabs. */
  function TabPath(index: int): (p: Option<string>)
    ensures p.Some? <==> 0 <= index < |TabPaths|
    ensures p.Some? ==> p.value == TabPaths[index]
  {
    if 0 <= index < |TabPaths| then Some(TabPaths[index]) else None
  }

  /** The paths the authenticated routes name; any other path renders the agenda. */
  const AppRoutes: seq<string> := [
    "/agenda", "/history", "/booking", "/map", "/menu",
    "/explore", "/profile", "/register", "/password-recovery", "/change-password", "/edit-profile",
    "/help", "/favorites", "/notifications", "/payment-methods", "/vouchers", "/privacy-policy",
    "/terms", "/legal", "/buy-voucher", "/buy-course",
    "/booking/lesson", "/booking/equipment", "/booking/details"]

  /** What `App` renders; an authenticated page is named by the route that shows it. */
  datatype Screen = Spinner | LoginScreen | RegisterScreen | AppPage(route: string)

  /** The render: a spinner while loading, the two public routes when signed out, the app's routes otherwise. */
  function ScreenFor(isLoading: bool, isAuthenticated: bool, path: string): Screen
  {
    if isLoading then Spinner
    else if !isAuthenticated then
      if path == "/login" then LoginScreen
      else if path == "/register" then RegisterScreen
      else LoginScreen
    else AppPage(if path in AppRoutes then path else "/agenda")
  }

  class App {
    const auth: AuthService
    var activeTab: int
    var isAuthenticated: bool
    var isLoading: bool
    /** The targets passed to react-router's `navigate`, in order. */
    var navigations: seq<Option<string>>

    constructor(auth: AuthService)
      ensures this.auth == auth
      ensures activeTab == 0 && !isAuthenticated && isLoading && navigations == []
    {
      this.auth := auth;
      activeTab := 0;
      isAuthenticated := false;
      isLoading := true;
      navigations := [];
    }

    /** The mount effect: `AuthService.isAuthenticated()` read once, and loading ends. */
    method CheckAuth()
      modifies this
      ensures isAuthenticated == IsAuthenticated(auth.client.window.storage) && !isLoading
      ensures activeTab == old(activeTab) && navigations == old(navigations)
    {
      var token := auth.client.window.GetItem(AuthTokenKey);
      isAuthenticated := TruthyStr(token);
      isLoading := false;
    }

    /** The effect keeping `activeTab` in sync with the path. */
    method SyncTab(pathname: string)
      modifies this
      ensures activeTab == PathToTab(pathname)
      ensures isAuthenticated == old(isAuthenticated) && isLoading == old(isLoading) && navigations == old(navigations)
    {
      if Text.StartsWith(pathname, "/history") {
        activeTab := 1;
      } else if Text.StartsWith(pathname, "/booking") {
        activeTab := 2;
      } else if Text.StartsWith(pathname, "/map") {
        activeTab := 3;
      } else if Text.StartsWith(pathname, "/menu") {
        activeTab := 4;
      } else {
        activeTab := 0;
      }
    }

    /** `handleTabChange(index)`: the tab is set to the index as given, then its path is navigated to. */
    method HandleTabChange(index: int)
      modifies this
      ensures activeTab == index && navigations == old(navigations) + [TabPath(index)]
      ensures isAuthenticated == old(isAuthenticated) && isLoading == old(isLoading)
    {
      activeTab := index;
      var paths := TabPaths;
      var target := if 0 <= index < |paths| then Some(paths[index]) else None;
      navigations := navigations + [target];
    }

    /** `handleLogin()`. */
    method HandleLogin()
      modifies this
      ensures isAuthenticated && navigations == old(navigations) + [Some("/agenda")]
      ensures activeTab == old(activeTab) && isLoading == old(isLoading)
    {
      isAuthenticated := true;
      navigations := navigations + [Some("/agenda")];
    }

    /** `handleLogout()`: the session is cleared by `AuthService.logout`, then the flag drops. */
    method HandleLogout()
      modifies this, auth.client.window
      ensures auth.client.State() == LogoutWorld(old(auth.client.State()))
      ensures !isAuthenticated
      ensures activeTab == old(activeTab) && isLoading == old(isLoading) && navigations == old(navigations)
    {
      auth.Logout();
      isAuthenticated := false;
    }

    function Current(path: string): Screen
      reads this
    {
      ScreenFor(isLoading, isAuthenticated, path)
    }
  }

  // ---------------------------------------------------------------------
  // Properties
  // ---------------------------------------------------------------------

  /** A path that starts with a prefix has the prefix's characters. */
  lemma {:induction false} PrefixChar(path: string, a: string, k: nat)
    requires k < |a|
    ensures Text.StartsWith(path, a) ==> path[k] == a[k]
  {
    if Text.StartsWith(path, a) {
      assert path[..|a|][k] == path[k];
    }
  }

  /** Two strings that differ at a position both reach are never prefixes of one path. */
  lemma {:induction false} DisjointPrefixes(path: string, a: string, b: string, k: nat)
    requires k < |a| && k < |b| && a[k] != b[k]
    ensures !(Text.StartsWith(path, a) && Text.StartsWith(path, b))
  {
    PrefixChar(path, a, k);
    PrefixChar(path, b, k);
  }

  /**
   * No two of the prefixes can match one path, so the order of the chain
   * does not matter: tab i (1 to 4) is chosen exactly when the path starts
   * with its path, and the agenda exactly when it starts with none of them.
   */
  lemma {:induction false} TabFollowsPrefix(path: string)
    ensures forall i :: 1 <= i < |TabPaths| ==> (PathToTab(path) == i <==> Text.StartsWith(path, TabPaths[i]))
    ensures PathToTab(path) == 0 <==> forall i :: 1 <= i < |TabPaths| ==> !Text.StartsWith(path, TabPaths[i])
  {
    DisjointPrefixes(path, "/history", "/booking", 1);
    DisjointPrefixes(path, "/history", "/map", 1);
    DisjointPrefixes(path, "/history", "/menu", 1);
    DisjointPrefixes(path, "/booking", "/map", 1);
    DisjointPrefixes(path, "/booking", "/menu", 1);
    DisjointPrefixes(path, "/map", "/menu", 2);
    assert TabPaths[1] == "/history" && TabPaths[2] == "/booking" && TabPaths[3] == "/map" && TabPaths[4] == "/menu";
    forall i | 1 <= i < |TabPaths|
      ensures PathToTab(path) == i <==> Text.StartsWith(path, TabPaths[i])
    {
      assert i == 1 || i == 2 || i == 3 || i == 4;
    }
  }

  /** Every tab's path, and every path below it, selects that tab. */
  lemma {:induction false} TabRoundTrip(i: nat, rest: string)
    requires i < |TabPaths|
    ensures PathToTab(TabPaths[i]) == i
    ensures PathToTab(TabPaths[i] + rest) == i
    ensures TabPath(PathToTab(TabPaths[i] + rest)) == Some(TabPaths[i])
  {
    var p := TabPaths[i] + rest;
    assert p[..|TabPaths[i]|] == TabPaths[i];
    assert Text.StartsWith(TabPaths[i], TabPaths[i]) by { assert TabPaths[i][..|TabPaths[i]|] == TabPaths[i]; }
    TabFollowsPrefix(TabPaths[i]);
    TabFollowsPrefix(p);
    if i == 0 {
      forall j | 1 <= j < |TabPaths|
        ensures !Text.StartsWith(p, TabPaths[j])
      {
        DisjointPrefixes(p, TabPaths[0], TabPaths[j], 1);
      }
    }
  }

  /** Prefixes, not path segments: `/booking/lesson` is the booking tab, and so is `/bookings`; `/mapX` is the map tab. */
  lemma PrefixesNotSegments()
    ensures PathToTab("/booking/lesson") == 2
    ensures PathToTab("/mapX") == 3
    ensures PathToTab("/") == 0 && PathToTab("/explore") == 0
  {
    TabRoundTrip(2, "/lesson");
    assert TabPaths[2] + "/lesson" == "/booking/lesson";
    TabRoundTrip(3, "X");
    assert TabPaths[3] + "X" == "/mapX";
    TabFollowsPrefix("/");
    TabFollowsPrefix("/explore");
    forall j | 1 <= j < |TabPaths|
      ensures !Text.StartsWith("/", TabPaths[j]) && !Text.StartsWith("/explore", TabPaths[j])
    {
      PrefixChar("/explore", TabPaths[j], 1);
    }
  }

  /**
   * Signed out, `/register` shows the registration page and every other
   * path the login page; signed in, a path no route names shows the agenda.
   */
  lemma {:induction false} RoutesByAuthentication(path: string)
    ensures ScreenFor(false, false, path) == RegisterScreen <==> path == "/register"
    ensures path != "/register" ==> ScreenFor(false, false, path) == LoginScreen
    ensures path !in AppRoutes ==> ScreenFor(false, true, path) == AppPage("/agenda")
    ensures path in AppRoutes ==> ScreenFor(false, true, path) == AppPage(path)
    ensures forall a :: ScreenFor(true, a, path) == Spinner
  {
  }

  /** After logout the app shows only the public routes, and a reload's check agrees that no one is signed in. */
  lemma {:induction false} LogoutShowsLogin(w: World, path: string, isLoading: bool)
    ensures !IsAuthenticated(LogoutWorld(w).store)
    ensures !isLoading ==> ScreenFor(isLoading, false, path) in {LoginScreen, RegisterScreen}
  {
    assert AuthTokenKey in LogoutKeys;
  }
}
