/** The public site frame: header links, which one is highlighted, the
    user menu's dashboard entry, and sign-out. */
module MainLayout {
  import opened Wrappers
  import opened Types
  import opened Routing
  import opened Auth
  import DashboardLayout

  /** The header highlights a link only on exactly its own path. */
  predicate IsActive(pathname: string, path: string) {
    pathname == path
  }

  /** `getDashboardLink`. */
  function DashboardLink(user: Option<User>): (r: string)
    ensures user.Some? && user.value.role == Admin ==> r == "/admin"
    ensures user.Some? && user.value.role == EquipmentManager ==> r == "/manager"
    ensures user.None? || user.value.role == Customer ==> r == "/profile"
  {
    if user.Some? && RoleName(user.value.role) == "admin" then "/admin"
    else if user.Some? && RoleName(user.value.role) == "equipment_manager" then "/manager"
    else "/profile"
  }

  /** The caption of the user menu's first entry, shown for a signed-in user. */
  function MenuEntryLabel(user: User): (r: string)
    ensures r == "Dashboard" <==> user.role in {Admin, EquipmentManager}
    ensures r == "Profile" <==> user.role == Customer
  {
    if RoleName(user.role) == "admin" || RoleName(user.role) == "equipment_manager" then "Dashboard" else "Profile"
  }

  /** The entry reads "Dashboard" exactly when it leads somewhere other than
      the profile page, and then it leads to the staff frame's base path. */
  lemma MenuEntryMatchesLink(user: User)
    ensures MenuEntryLabel(user) == "Dashboard" <==> DashboardLink(Some(user)) != "/profile"
    ensures MenuEntryLabel(user) == "Dashboard" ==> DashboardLink(Some(user)) == DashboardLayout.BasePath(Some(user))
  {
  }

  datatype HeaderLink = HeaderLink(caption: string, path: string)

  /** Home and Equipment always; My Rentals only for a signed-in user. */
  function HeaderLinks(user: Option<User>): (r: seq<HeaderLink>)
    ensures |r| >= 2 && r[..2] == [HeaderLink("Home", "/"), HeaderLink("Equipment", "/equipment")]
    ensures (exists i :: 0 <= i < |r| && r[i].caption == "My Rentals") <==> user.Some?
    ensures user.Some? ==> r == r[..2] + [HeaderLink("My Rentals", "/bookings")]
  {
    var always := [HeaderLink("Home", "/"), HeaderLink("Equipment", "/equipment")];
    if user.Some? then
      var r := always + [HeaderLink("My Rentals", "/bookings")];
      assert r[2].caption == "My Rentals";
      r
    else always
  }

  /** A link's own page is highlighted in both frames, but a page below it
      only in the staff frame. */
  lemma {:induction false} ExactVersusPrefixHighlight(p: string, rest: string)
    requires rest != ""
    ensures IsActive(p, p) && DashboardLayout.IsActive(p, p)
    ensures !IsActive(p + "/" + rest, p)
    ensures DashboardLayout.IsActive(p + "/" + rest, p)
  {
    assert |p + "/" + rest| > |p|;
    assert (p + "/" + rest)[..|p + "/"|] == p + "/";
  }

  datatype Frame = Frame(auth: AuthState, menuOpen: bool, userMenuOpen: bool)

  /** `handleLogout`: sign out, close the user menu, go home. */
  function HandleLogout(f: Frame): (r: (Frame, Navigation))
    ensures !IsAuthenticated(r.0.auth) && r.0.auth == Logout(f.auth)
    ensures !r.0.userMenuOpen && r.0.menuOpen == f.menuOpen
    ensures r.1 == Navigation("/", NoState, false)
  {
    (f.(auth := Logout(f.auth), userMenuOpen := false), Navigation("/", NoState, false))
  }

  /** After signing out, the header no longer offers My Rentals. */
  lemma LogoutHidesRentals(f: Frame)
    ensures HeaderLinks(HandleLogout(f).0.auth.user) == [HeaderLink("Home", "/"), HeaderLink("Equipment", "/equipment")]
  {
  }
}
