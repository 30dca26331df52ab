/** The session: the built-in demo accounts, sign-in by exact email and
    password, registration, sign-out. */
module Auth {
  import opened Wrappers
  import opened Seqs
  import opened Types

  /** A demo account as stored, password included. */
  datatype MockAccount = MockAccount(id: string, name: string, email: string, password: string, role: Role)

  /** The three demo accounts, one per role. */
  const MockAccounts: seq<MockAccount> := [
    MockAccount("1", "Admin User", "admin@example.com", "admin123", Admin),
    MockAccount("2", "Equipment Manager", "manager@example.com", "manager123", EquipmentManager),
    MockAccount("3", "Customer User", "customer@example.com", "customer123", Customer)
  ]

  datatype AuthState = AuthState(user: Option<User>, isLoading: bool, error: Option<string>)

  const InvalidCredentials := "Invalid email or password"
  const EmailInUse := "Email already in use"

  /** The session's user record for an account: every field but the
      password; `loadedAt` is when the demo accounts were created. */
  function WithoutPassword(a: MockAccount, loadedAt: int): (r: User)
    ensures r.id == a.id && r.name == a.name && r.email == a.email && r.role == a.role
    ensures r.phone.None? && r.avatar.None? && r.createdAt == loadedAt
  {
    User(a.id, a.name, a.email, a.role, None, None, loadedAt)
  }

  predicate Matches(a: MockAccount, email: string, password: string) {
    a.email == email && a.password == password
  }

  function CredentialsFn(email: string, password: string): MockAccount -> bool {
    (a: MockAccount) => Matches(a, email, password)
  }

  /** `login`: a matching account becomes the session user; otherwise the
      user is kept and the error set. The error is never rethrown and
      loading always ends. */
  function Login(st: AuthState, email: string, password: string, loadedAt: int): (r: AuthState)
    ensures !r.isLoading
    ensures r.error.None? <==> exists i :: 0 <= i < |MockAccounts| && Matches(MockAccounts[i], email, password)
    ensures r.error.None? ==>
              exists i :: 0 <= i < |MockAccounts| && Matches(MockAccounts[i], email, password)
                && r.user == Some(WithoutPassword(MockAccounts[i], loadedAt))
    ensures r.error.Some? ==> r.user == st.user && r.error == Some(InvalidCredentials)
  {
    match Find(CredentialsFn(email, password), MockAccounts)
    case None => AuthState(st.user, false, Some(InvalidCredentials))
    case Some(a) => AuthState(Some(WithoutPassword(a, loadedAt)), false, None)
  }

  /** `register`: an email of a demo account is refused; otherwise the new
      user, always a customer, becomes the session user. Nothing is added
      to the demo accounts and the password is not kept. */
  function Register(st: AuthState, name: string, email: string, password: string, newId: string, now: int)
    : (r: AuthState)
    ensures !r.isLoading
    ensures (exists i :: 0 <= i < |MockAccounts| && MockAccounts[i].email == email) ==>
              r.user == st.user && r.error == Some(EmailInUse)
    ensures (forall i :: 0 <= i < |MockAccounts| ==> MockAccounts[i].email != email) ==>
              r.error.None? && r.user == Some(User(newId, name, email, Customer, None, None, now))
  {
    if Any((a: MockAccount) => a.email == email, MockAccounts) then AuthState(st.user, false, Some(EmailInUse))
    else AuthState(Some(User(newId, name, email, Customer, None, None, now)), false, None)
  }

  /** `logout`. */
  function Logout(st: AuthState): (r: AuthState)
    ensures r.user.None? && !IsAuthenticated(r)
    ensures r.isLoading == st.isLoading && r.error == st.error
  {
    st.(user := None)
  }

  /** `isAuthenticated: !!user`. */
  function IsAuthenticated(st: AuthState): (r: bool)
    ensures r <==> st.user.Some?
  {
    st.user.Some?
  }

  /** How each session operation moves the authenticated flag: signing in
      sets it exactly when the credentials match a demo account and
      otherwise keeps it; registering sets it exactly when the email is new
      and otherwise keeps it; signing out clears it. */
  lemma AuthenticationFollowsSession(st: AuthState, name: string, email: string, password: string,
                                     newId: string, now: int, loadedAt: int)
    ensures IsAuthenticated(Login(st, email, password, loadedAt)) <==>
              (exists i :: 0 <= i < |MockAccounts| && Matches(MockAccounts[i], email, password)) || IsAuthenticated(st)
    ensures IsAuthenticated(Register(st, name, email, password, newId, now)) <==>
              (forall i :: 0 <= i < |MockAccounts| ==> MockAccounts[i].email != email) || IsAuthenticated(st)
    ensures !IsAuthenticated(Logout(st))
  {
  }

  /** No two demo accounts share an email, so at most one can match. */
  lemma MockEmailsDistinct(i: nat, j: nat)
    requires i < |MockAccounts| && j < |MockAccounts|
    requires MockAccounts[i].email == MockAccounts[j].email
    ensures i == j
  {
  }

  /** A signed-in session is authenticated, with the matched account's
      role. */
  lemma {:induction false} LoginGivesAccountRole(st: AuthState, i: nat, loadedAt: int)
    requires i < |MockAccounts|
    ensures var r := Login(st, MockAccounts[i].email, MockAccounts[i].password, loadedAt);
            IsAuthenticated(r) && r.user.value.role == MockAccounts[i].role && r.user.value.id == MockAccounts[i].id
  {
    var r := Login(st, MockAccounts[i].email, MockAccounts[i].password, loadedAt);
    assert Matches(MockAccounts[i], MockAccounts[i].email, MockAccounts[i].password);
    var k :| 0 <= k < |MockAccounts| && Matches(MockAccounts[k], MockAccounts[i].email, MockAccounts[i].password)
             && r.user == Some(WithoutPassword(MockAccounts[k], loadedAt));
    MockEmailsDistinct(i, k);
  }

  /** Registering does not create an account: the same email and any
      password still fail to sign in afterwards. */
  lemma RegisteredCannotLogIn(st: AuthState, name: string, email: string, password: string,
                              newId: string, now: int, loadedAt: int)
    requires Register(st, name, email, password, newId, now).error.None?
    ensures Login(Register(st, name, email, password, newId, now), email, password, loadedAt).error == Some(InvalidCredentials)
  {
  }
}
