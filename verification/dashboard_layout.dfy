/** The staff dashboard frame: its base path, the sidebar items, which item
    is highlighted, and the page heading. */
module DashboardLayout {
  import opened Wrappers
  import opened Seqs
  import opened Text
  import opened Types
  import opened Routing
  import opened Auth

  predicate IsAdmin(user: Option<User>) {
    user.Some? && user.value.role == Admin
  }

  /** `/admin` for an administrator, `/manager` for anyone else, a missing
      user included. */
  function BasePath(user: Option<User>): (r: string)
    ensures r == "/admin" <==> IsAdmin(user)
    ensures r == "/manager" <==> !IsAdmin(user)
  {
    if IsAdmin(user) then "/admin" else "/manager"
  }

  /** A sidebar item is highlighted on its own path and on every path
      below it. */
  predicate IsActive(pathname: string, path: string) {
    pathname == path || StartsWith(pathname, path + "/")
  }

  datatype NavItem = NavItem(name: string, path: string)

  function ActiveFn(pathname: string): NavItem -> bool {
    (it: NavItem) => IsActive(pathname, it.path)
  }

  /** Dashboard, Equipment and Bookings under the base path, then Users and
      Reports, under `/admin`, for an administrator only. */
  function NavigationItems(user: Option<User>): (r: seq<NavItem>)
    ensures |r| == 5 <==> IsAdmin(user)
    ensures |r| == 3 <==> !IsAdmin(user)
    ensures r[0] == NavItem("Dashboard", BasePath(user))
    ensures r[1] == NavItem("Equipment", BasePath(user) + "/equipment")
    ensures r[2] == NavItem("Bookings", BasePath(user) + "/bookings")
    ensures |r| == 5 ==> r[3] == NavItem("Users", "/admin/users") && r[4] == NavItem("Reports", "/admin/reports")
  {
    var base := BasePath(user);
    var items := [NavItem("Dashboard", base), NavItem("Equipment", base + "/equipment"),
                  NavItem("Bookings", base + "/bookings")];
    if IsAdmin(user) then items + [NavItem("Users", "/admin/users"), NavItem("Reports", "/admin/reports")]
    else items
  }

  /** The heading as written: the name of the first highlighted item, or
      "Dashboard" when none is. */
  function HeaderTitle(user: Option<User>, pathname: string): (r: string)
    ensures r == "Dashboard" || exists i :: 0 <= i < |NavigationItems(user)| && r == NavigationItems(user)[i].name
  {
    match Find(ActiveFn(pathname), NavigationItems(user))
    case Some(it) => if it.name != "" then it.name else "Dashboard"
    case None => "Dashboard"
  }

  /** A highlighted item's path is a prefix of the current path. */
  lemma ActiveIsPrefix(pathname: string, path: string)
    requires IsActive(pathname, path)
    ensures path <= pathname
  {
    if pathname != path {
      assert (path + "/")[..|path|] == path;
    }
  }

  /** Every item below the base path highlights the Dashboard item too. */
  lemma {:induction false} SectionActivatesBase(pathname: string, base: string, section: string)
    requires IsActive(pathname, base + "/" + section)
    ensures IsActive(pathname, base)
  {
    var p := base + "/" + section;
    ActiveIsPrefix(pathname, p);
    assert (base + "/") <= p by {
      assert p[..|base| + 1] == base + "/";
    }
    assert pathname[..|base| + 1] == p[..|base| + 1];
    assert StartsWith(pathname, base + "/");
  }

  /** An item after Dashboard is highlighted only where Dashboard is. */
  lemma {:induction false} ItemActivatesBase(user: Option<User>, pathname: string, i: nat)
    requires 0 < i < |NavigationItems(user)|
    requires IsActive(pathname, NavigationItems(user)[i].path)
    ensures IsActive(pathname, NavigationItems(user)[0].path)
  {
    var base := BasePath(user);
    var path := NavigationItems(user)[i].path;
    if i == 1 {
      assert path == base + "/" + "equipment";
      SectionActivatesBase(pathname, base, "equipment");
    } else if i == 2 {
      assert path == base + "/" + "bookings";
      SectionActivatesBase(pathname, base, "bookings");
    } else if i == 3 {
      assert path == base + "/" + "users";
      SectionActivatesBase(pathname, base, "users");
    } else {
      assert path == base + "/" + "reports";
      SectionActivatesBase(pathname, base, "reports");
    }
  }

  /** Whatever the path, the heading as written reads "Dashboard": the
      Dashboard item comes first and is highlighted wherever any other item
      is. */
  lemma {:induction false} HeaderAlwaysDashboard(user: Option<User>, pathname: string)
    ensures HeaderTitle(user, pathname) == "Dashboard"
  {
    var k := FindIndex(ActiveFn(pathname), NavigationItems(user));
    if k.Some? && k.value > 0 {
      ItemActivatesBase(user, pathname, k.value);
    }
  }

  /** The heading naming the section the page is in: the first highlighted
      item after Dashboard, else "Dashboard". */
  function SectionTitle(user: Option<User>, pathname: string): (r: string)
    ensures r == "Dashboard" || exists i :: 1 <= i < |NavigationItems(user)| && r == NavigationItems(user)[i].name
  {
    var items := NavigationItems(user);
    match FindIndex(ActiveFn(pathname), items[1..])
    case Some(k) => items[1..][k].name
    case None => "Dashboard"
  }

  /** Two sidebar paths that are both prefixes of one path agree on every
      position they share. */
  lemma PrefixesAgree(pathname: string, a: string, b: string, k: nat)
    requires a <= pathname && b <= pathname && k < |a| && k < |b|
    ensures a[k] == b[k]
  {
    assert a[k] == pathname[k];
  }

  /** No path highlights two items other than Dashboard. */
  lemma {:induction false} SectionsExclusive(user: Option<User>, pathname: string, i: nat, j: nat)
    requires 1 <= i < j < |NavigationItems(user)|
    ensures !(IsActive(pathname, NavigationItems(user)[i].path) && IsActive(pathname, NavigationItems(user)[j].path))
  {
    var items := NavigationItems(user);
    var at := |BasePath(user)| + 1;
    if IsActive(pathname, items[i].path) && IsActive(pathname, items[j].path) {
      ActiveIsPrefix(pathname, items[i].path);
      ActiveIsPrefix(pathname, items[j].path);
      PrefixesAgree(pathname, items[i].path, items[j].path, at);
    }
  }

  /** On a page inside a section, the section heading names that section. */
  lemma {:induction false} SectionTitleNamesSection(user: Option<User>, pathname: string, i: nat)
    requires 1 <= i < |NavigationItems(user)|
    requires IsActive(pathname, NavigationItems(user)[i].path)
    ensures SectionTitle(user, pathname) == NavigationItems(user)[i].name
  {
    var items := NavigationItems(user);
    var tail := items[1..];
    assert ActiveFn(pathname)(tail[i - 1]);
    var k := FindIndex(ActiveFn(pathname), tail);
    assert k.Some?;
    if k.value + 1 < i {
      SectionsExclusive(user, pathname, k.value + 1, i);
    }
    assert k.value + 1 <= i;
    if k.value + 1 != i {
      assert false;
    }
  }

  /** The user-menu caption: anyone not an administrator is captioned as an
      equipment manager. */
  function RoleCaption(user: Option<User>): (r: string)
    ensures r == "Administrator" <==> IsAdmin(user)
    ensures r == "Equipment Manager" <==> !IsAdmin(user)
  {
    if IsAdmin(user) then "Administrator" else "Equipment Manager"
  }

  /** `handleLogout`: sign out, then go home. */
  function HandleLogout(auth: AuthState): (r: (AuthState, Navigation))
    ensures !IsAuthenticated(r.0) && r.0 == Logout(auth)
    ensures r.1 == Navigation("/", NoState, false)
  {
    (Logout(auth), Navigation("/", NoState, false))
  }
}
