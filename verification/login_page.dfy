/** The sign-in page: the empty-field guard, the demo buttons, and where
    the visitor is sent afterwards. */
module LoginPage {
  import opened Wrappers
  import opened Types
  import opened Routing
  import opened Auth
  import opened Guards
  import EquipmentDetailPage

  /** `location.state?.from?.pathname || '/'`: only a location under `from`
      with a non-empty path is honoured; a plain string has no `pathname`. */
  function RedirectTarget(state: LocationState): (r: string)
    ensures r != ""
    ensures state.FromLocation? && state.from.pathname != "" ==> r == state.from.pathname
    ensures !state.FromLocation? || state.from.pathname == "" ==> r == "/"
  {
    match state
    case FromLocation(from) => if from.pathname != "" then from.pathname else "/"
    case _ => "/"
  }

  datatype LoginForm = LoginForm(email: string, password: string, errorMessage: string)

  /** The page after a submit: its form, the session, and the navigation
      requested, if any. */
  datatype Submitted = Submitted(form: LoginForm, auth: AuthState, nav: Option<Navigation>)

  const MissingFields := "Please enter both email and password"

  /** `handleSubmit`: the message is cleared; an empty field sets it and
      stops; otherwise sign-in runs and the visitor is sent to the
      remembered page, whether or not sign-in succeeded, since the session
      swallows its own failure. */
  function Submit(f: LoginForm, auth: AuthState, state: LocationState, loadedAt: int): (r: Submitted)
    ensures r.nav.None? <==> f.email == "" || f.password == ""
    ensures r.nav.None? ==> r.auth == auth && r.form == f.(errorMessage := MissingFields)
    ensures r.nav.Some? ==>
              && r.form == f.(errorMessage := "")
              && r.auth == Login(auth, f.email, f.password, loadedAt)
              && r.nav.value == Navigation(RedirectTarget(state), NoState, true)
  {
    if f.email == "" || f.password == "" then Submitted(f.(errorMessage := MissingFields), auth, None)
    else Submitted(f.(errorMessage := ""), Login(auth, f.email, f.password, loadedAt),
                   Some(Navigation(RedirectTarget(state), NoState, true)))
  }

  /** Wrong credentials still navigate away: the session keeps its user
      and records the failure, and the visitor lands on the remembered page. */
  lemma WrongCredentialsStillNavigate(f: LoginForm, auth: AuthState, state: LocationState, loadedAt: int)
    requires f.email != "" && f.password != ""
    requires forall i :: 0 <= i < |MockAccounts| ==> !Matches(MockAccounts[i], f.email, f.password)
    ensures var r := Submit(f, auth, state, loadedAt);
            r.nav == Some(Navigation(RedirectTarget(state), NoState, true))
            && r.auth.user == auth.user && r.auth.error == Some(InvalidCredentials)
            && r.form.errorMessage == ""
  {
  }

  /** The fixed email and password each demo button uses. */
  function DemoCredentials(role: Role): (r: (string, string))
    ensures exists i :: 0 <= i < |MockAccounts| && MockAccounts[i].role == role
                        && MockAccounts[i].email == r.0 && MockAccounts[i].password == r.1
  {
    match role
    case Admin => assert MockAccounts[0].role == Admin; ("admin@example.com", "admin123")
    case EquipmentManager => assert MockAccounts[1].role == EquipmentManager; ("manager@example.com", "manager123")
    case Customer => assert MockAccounts[2].role == Customer; ("customer@example.com", "customer123")
  }

  /** `handleDemoLogin`: sign in with the role's demo account and go to the
      remembered page; the message is not cleared. */
  function DemoLogin(f: LoginForm, auth: AuthState, role: Role, state: LocationState, loadedAt: int): (r: Submitted)
    ensures r.form == f
    ensures r.nav == Some(Navigation(RedirectTarget(state), NoState, true))
    ensures IsAuthenticated(r.auth) && r.auth.user.value.role == role && r.auth.error.None?
  {
    var c := DemoCredentials(role);
    var i :| 0 <= i < |MockAccounts| && MockAccounts[i].role == role
             && MockAccounts[i].email == c.0 && MockAccounts[i].password == c.1;
    LoginGivesAccountRole(auth, i, loadedAt);
    Submitted(f, Login(auth, c.0, c.1, loadedAt), Some(Navigation(RedirectTarget(state), NoState, true)))
  }

  /** A guard's sign-in redirect remembers the page, and signing in sends
      the visitor back to it. */
  lemma {:induction false} GuardRedirectRoundTrip(here: Location, f: LoginForm, auth: AuthState, loadedAt: int)
    requires here.pathname != ""
    requires f.email != "" && f.password != ""
    ensures var a := RequireAuth(false, None, here);
            a.Redirect? && a.nav.to == LoginPath
            && Submit(f, auth, a.nav.state, loadedAt).nav == Some(Navigation(here.pathname, NoState, true))
  {
    var a := RequireAuth(false, None, here);
    assert a.nav.state == FromLocation(here);
  }

  /** "Book Now" while signed out passes the item's path as a plain string,
      so after signing in the visitor lands on the home page, not the item. */
  lemma BookNowLosesItem(equipmentId: string)
    ensures EquipmentDetailPage.BookNow(false, equipmentId).to == LoginPath
    ensures RedirectTarget(EquipmentDetailPage.BookNow(false, equipmentId).state) == "/"
  {
  }

  /** Passing a location instead brings the visitor back to the item. */
  lemma BookNowWithLocationReturnsToItem(equipmentId: string)
    ensures RedirectTarget(EquipmentDetailPage.BookNowWithLocation(false, equipmentId).state)
            == EquipmentDetailPage.ItemPath(equipmentId)
  {
  }
}
