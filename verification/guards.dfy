/** The route guards: each decides, from the session's loading flag and
    user, whether to show a spinner, redirect, or render the guarded page. */
module Guards {
  import opened Wrappers
  import opened Types
  import opened Routing

  datatype Access = Spinner | Redirect(nav: Navigation) | Children

  /** To sign-in, replacing the history entry and remembering where the
      visitor was. */
  function LoginRedirect(here: Location): Navigation {
    Navigation(LoginPath, FromLocation(here), true)
  }

  /** To the home page, replacing the history entry. */
  const HomeRedirect := Navigation("/", NoState, true)

  /** `RequireAuth`: any signed-in user gets through; the role is not looked at. */
  function RequireAuth(isLoading: bool, user: Option<User>, here: Location): (r: Access)
    ensures isLoading ==> r == Spinner
    ensures !isLoading && user.None? ==> r == Redirect(LoginRedirect(here))
    ensures r == Children <==> !isLoading && user.Some?
  {
    if isLoading then Spinner
    else if user.None? then Redirect(LoginRedirect(here))
    else Children
  }

  /** `RequireAdmin`. */
  function RequireAdmin(isLoading: bool, user: Option<User>, here: Location): (r: Access)
    ensures isLoading ==> r == Spinner
    ensures !isLoading && user.None? ==> r == Redirect(LoginRedirect(here))
    ensures !isLoading && user.Some? && user.value.role != Admin ==> r == Redirect(HomeRedirect)
    ensures r == Children <==> !isLoading && user.Some? && user.value.role == Admin
  {
    if isLoading then Spinner
    else if user.None? then Redirect(LoginRedirect(here))
    else if RoleName(user.value.role) != "admin" then Redirect(HomeRedirect)
    else Children
  }

  /** `RequireManager`: administrators and equipment managers. */
  function RequireManager(isLoading: bool, user: Option<User>, here: Location): (r: Access)
    ensures isLoading ==> r == Spinner
    ensures !isLoading && user.None? ==> r == Redirect(LoginRedirect(here))
    ensures !isLoading && user.Some? && user.value.role == Customer ==> r == Redirect(HomeRedirect)
    ensures r == Children <==> !isLoading && user.Some? && user.value.role in {Admin, EquipmentManager}
  {
    if isLoading then Spinner
    else if user.None? then Redirect(LoginRedirect(here))
    else if RoleName(user.value.role) != "admin" && RoleName(user.value.role) != "equipment_manager" then
      Redirect(HomeRedirect)
    else Children
  }

  /** `RequireCustomer` as written: it compares the role with `'user'`,
      which no role is stored as, so no signed-in user is ever let through
      to the customer's booking pages. */
  function RequireCustomer(isLoading: bool, user: Option<User>, here: Location): (r: Access)
    ensures isLoading ==> r == Spinner
    ensures !isLoading && user.None? ==> r == Redirect(LoginRedirect(here))
    ensures !isLoading && user.Some? ==> r == Redirect(HomeRedirect)
    ensures r != Children
  {
    if isLoading then Spinner
    else if user.None? then Redirect(LoginRedirect(here))
    else if RoleName(user.value.role) != "user" then Redirect(HomeRedirect)
    else Children
  }

  /** `RequireCustomer` comparing with the customer role's stored name. */
  function RequireCustomerRole(isLoading: bool, user: Option<User>, here: Location): (r: Access)
    ensures isLoading ==> r == Spinner
    ensures !isLoading && user.None? ==> r == Redirect(LoginRedirect(here))
    ensures !isLoading && user.Some? && user.value.role != Customer ==> r == Redirect(HomeRedirect)
    ensures r == Children <==> !isLoading && user.Some? && user.value.role == Customer
  {
    if isLoading then Spinner
    else if user.None? then Redirect(LoginRedirect(here))
    else if RoleName(user.value.role) != "customer" then Redirect(HomeRedirect)
    else Children
  }

  /** Whoever the admin guard lets in, the manager guard lets in, and
      whoever that lets in, the plain sign-in guard lets in. */
  lemma GuardsNest(isLoading: bool, user: Option<User>, here: Location)
    ensures RequireAdmin(isLoading, user, here) == Children ==> RequireManager(isLoading, user, here) == Children
    ensures RequireManager(isLoading, user, here) == Children ==> RequireAuth(isLoading, user, here) == Children
    ensures RequireCustomerRole(isLoading, user, here) == Children ==> RequireAuth(isLoading, user, here) == Children
  {
  }

  /** The customer guard as written and the corrected one agree on
      everyone except signed-in customers, whom only the corrected one
      lets through. */
  lemma CustomerGuardsDifferOnlyOnCustomers(isLoading: bool, user: Option<User>, here: Location)
    ensures RequireCustomer(isLoading, user, here) != RequireCustomerRole(isLoading, user, here)
            <==> !isLoading && user.Some? && user.value.role == Customer
  {
  }
}
