/** The administrators' users table: search, role and status filters,
    pagination, and the status and role actions reached through the row
    menu. */
module AdminUsersPage {
  import opened Wrappers
  import opened Seqs
  import opened Text
  import opened Paging
  import opened MenuFlow

  datatype UserRow = UserRow(
    id: string,
    firstName: string,
    lastName: string,
    email: string,
    role: string,
    status: string,
    department: Option<string>,
    position: Option<string>,
    registeredDate: string,
    lastLogin: string)

  datatype StatusAction = Activate | Deactivate

  /** The status label an action writes into the row. */
  function StatusLabel(a: StatusAction): (r: string)
    ensures r == "Active" <==> a == Activate
    ensures r == "Active" || r == "Inactive"
  {
    match a
    case Activate => "Active"
    case Deactivate => "Inactive"
  }

  datatype RoleAction = MakeUser | MakeManager | MakeAdmin

  /** The lower-case role name a menu entry carries. */
  function RoleActionName(a: RoleAction): string {
    match a
    case MakeUser => "user"
    case MakeManager => "manager"
    case MakeAdmin => "admin"
  }

  /** The values the role filter offers besides "All Roles". */
  const RoleFilterOptions: seq<string> := ["Admin", "Manager", "User"]

  /** The role written into the row: the action's name with its first letter
      upper-cased, which is one of the role filter's options. */
  function RoleLabel(a: RoleAction): (r: string)
    ensures r in RoleFilterOptions
    ensures |r| == |RoleActionName(a)| && r[1..] == RoleActionName(a)[1..]
    ensures r[0] == UpperChar(RoleActionName(a)[0])
  {
    var r := Capitalize(RoleActionName(a));
    assert r == [r[0]] + r[1..];
    match a
    case MakeUser => assert r == "User"; r
    case MakeManager => assert r == "Manager"; r
    case MakeAdmin => assert r == "Admin"; r
  }

  /** Distinct role actions write distinct roles. */
  lemma RoleLabelInjective(a: RoleAction, b: RoleAction)
    requires RoleLabel(a) == RoleLabel(b)
    ensures a == b
  {
  }

  /** The term appears, ignoring case, in "first last", the email, or a
      department or position the user has. */
  predicate MatchesSearch(term: string, u: UserRow) {
    || ContainsFold(u.firstName + " " + u.lastName, term)
    || ContainsFold(u.email, term)
    || (u.department.Some? && ContainsFold(u.department.value, term))
    || (u.position.Some? && ContainsFold(u.position.value, term))
  }

  predicate Keeps(term: string, filterRole: string, filterStatus: string, u: UserRow) {
    && MatchesSearch(term, u)
    && (filterRole == "" || u.role == filterRole)
    && (filterStatus == "" || u.status == filterStatus)
  }

  function KeepsFn(term: string, filterRole: string, filterStatus: string): UserRow -> bool {
    (u: UserRow) => Keeps(term, filterRole, filterStatus, u)
  }

  /** `filteredUsers`: the users passing the search and the set filters, in
      order; with nothing set, every user. */
  function Filtered(users: seq<UserRow>, term: string, filterRole: string, filterStatus: string): (r: seq<UserRow>)
    ensures IsSubseq(r, users)
    ensures forall i :: 0 <= i < |r| ==>
              && MatchesSearch(term, r[i])
              && (filterRole != "" ==> r[i].role == filterRole)
              && (filterStatus != "" ==> r[i].status == filterStatus)
    ensures forall i :: 0 <= i < |users| && Keeps(term, filterRole, filterStatus, users[i]) ==> users[i] in r
    ensures forall x {:trigger multiset(r)[x]} :: x in users ==> multiset(r)[x] == if Keeps(term, filterRole, filterStatus, x) then multiset(users)[x] else 0
    ensures term == "" && filterRole == "" && filterStatus == "" ==> r == users
  {
    assert term == "" && filterRole == "" && filterStatus == "" ==> forall i :: 0 <= i < |users| ==> KeepsFn(term, filterRole, filterStatus)(users[i]) by {
      if term == "" && filterRole == "" && filterStatus == "" {
        forall i | 0 <= i < |users| ensures Keeps(term, filterRole, filterStatus, users[i]) {
          EmptyNeedle(users[i].email);
        }
      }
    }
    Filter(KeepsFn(term, filterRole, filterStatus), users)
  }

  /** `getInitials`: the first letters of the two names, upper-cased; one
      letter per non-empty name. */
  function GetInitials(firstName: string, lastName: string): (r: string)
    ensures |r| <= 2
    ensures |r| == (if firstName == "" then 0 else 1) + (if lastName == "" then 0 else 1)
    ensures firstName != "" ==> r[0] == UpperChar(firstName[0])
    ensures lastName != "" ==> r[|r| - 1] == UpperChar(lastName[0])
  {
    Upper(CharAt0(firstName) + CharAt0(lastName))
  }

  /** Initials do not depend on how the names are capitalised. */
  lemma {:induction false} InitialsIgnoreCase(firstName: string, lastName: string)
    ensures GetInitials(Lower(firstName), Lower(lastName)) == GetInitials(firstName, lastName)
  {
    var r1 := GetInitials(Lower(firstName), Lower(lastName));
    var r2 := GetInitials(firstName, lastName);
    assert |r1| == |r2|;
    if firstName != "" {
      assert Lower(firstName)[0] == LowerChar(firstName[0]);
    }
    if lastName != "" {
      assert Lower(lastName)[0] == LowerChar(lastName[0]);
    }
    assert forall k :: 0 <= k < |r2| ==> r1[k] == r2[k];
  }

  datatype PageState = PageState(
    users: seq<UserRow>,
    searchTerm: string,
    pager: Pager,
    filterRole: string,
    filterStatus: string,
    menu: Menu,
    statusDialog: Dialog<StatusAction>,
    roleDialog: Dialog<RoleAction>)

  /** Every user with that id takes the role and status given; the others
      are unchanged. */
  function SetUser(users: seq<UserRow>, id: string, role: Option<string>, status: Option<string>): (r: seq<UserRow>)
    ensures |r| == |users|
    ensures forall i :: 0 <= i < |users| ==>
              r[i] == if users[i].id == id
                      then users[i].(role := role.GetOr(users[i].role), status := status.GetOr(users[i].status))
                      else users[i]
  {
    seq(|users|, i requires 0 <= i < |users| =>
      if users[i].id == id
      then users[i].(role := role.GetOr(users[i].role), status := status.GetOr(users[i].status))
      else users[i])
  }

  /** `handleStatusConfirm`: without a selected user and an action it returns
      at once; otherwise it sets the selected user's status and closes the
      dialog. */
  function StatusConfirm(st: PageState): (r: PageState)
    ensures !Armed(st.menu, st.statusDialog) ==> r == st
    ensures Armed(st.menu, st.statusDialog) ==>
      && |r.users| == |st.users|
      && (forall i :: 0 <= i < |st.users| && st.users[i].id == st.menu.selected.value ==>
            r.users[i] == st.users[i].(status := StatusLabel(st.statusDialog.action.value)))
      && (forall i :: 0 <= i < |st.users| && st.users[i].id != st.menu.selected.value ==> r.users[i] == st.users[i])
      && r.statusDialog == NoDialog() && r.roleDialog == st.roleDialog
    ensures r == st.(users := r.users, statusDialog := r.statusDialog)
  {
    if !Armed(st.menu, st.statusDialog) then st
    else st.(users := SetUser(st.users, st.menu.selected.value, None, Some(StatusLabel(st.statusDialog.action.value))),
             statusDialog := NoDialog())
  }

  /** `handleRoleConfirm`: likewise for the role, written capitalised. */
  function RoleConfirm(st: PageState): (r: PageState)
    ensures !Armed(st.menu, st.roleDialog) ==> r == st
    ensures Armed(st.menu, st.roleDialog) ==>
      && |r.users| == |st.users|
      && (forall i :: 0 <= i < |st.users| && st.users[i].id == st.menu.selected.value ==>
            r.users[i] == st.users[i].(role := RoleLabel(st.roleDialog.action.value)))
      && (forall i :: 0 <= i < |st.users| && st.users[i].id != st.menu.selected.value ==> r.users[i] == st.users[i])
      && r.roleDialog == NoDialog() && r.statusDialog == st.statusDialog
    ensures r == st.(users := r.users, roleDialog := r.roleDialog)
  {
    if !Armed(st.menu, st.roleDialog) then st
    else st.(users := SetUser(st.users, st.menu.selected.value, Some(RoleLabel(st.roleDialog.action.value)), None),
             roleDialog := NoDialog())
  }

  function OpenMenu(st: PageState, id: string): (r: PageState)
    ensures r.menu == Menu(true, Some(id)) && r == st.(menu := r.menu)
  {
    st.(menu := MenuOpen(st.menu, id))
  }

  /** `handleStatusClick` as written. */
  function StatusClick(st: PageState, a: StatusAction): (r: PageState)
    ensures r.menu.selected.None? && r.statusDialog == Dialog(true, Some(a))
    ensures r == st.(menu := r.menu, statusDialog := r.statusDialog)
  {
    var (m, d) := Click(st.menu, st.statusDialog, a);
    st.(menu := m, statusDialog := d)
  }

  /** `handleRoleClick` as written. */
  function RoleClick(st: PageState, a: RoleAction): (r: PageState)
    ensures r.menu.selected.None? && r.roleDialog == Dialog(true, Some(a))
    ensures r == st.(menu := r.menu, roleDialog := r.roleDialog)
  {
    var (m, d) := Click(st.menu, st.roleDialog, a);
    st.(menu := m, roleDialog := d)
  }

  /** `handleStatusClick` keeping the selected user. */
  function StatusClickKeepingSelection(st: PageState, a: StatusAction): (r: PageState)
    ensures r.menu.selected == st.menu.selected && r.statusDialog == Dialog(true, Some(a))
    ensures r == st.(menu := r.menu, statusDialog := r.statusDialog)
  {
    var (m, d) := ClickKeepingSelection(st.menu, st.statusDialog, a);
    st.(menu := m, statusDialog := d)
  }

  /** `handleRoleClick` keeping the selected user. */
  function RoleClickKeepingSelection(st: PageState, a: RoleAction): (r: PageState)
    ensures r.menu.selected == st.menu.selected && r.roleDialog == Dialog(true, Some(a))
    ensures r == st.(menu := r.menu, roleDialog := r.roleDialog)
  {
    var (m, d) := ClickKeepingSelection(st.menu, st.roleDialog, a);
    st.(menu := m, roleDialog := d)
  }

  /** Through the menu as written neither confirm handler changes anything. */
  lemma ConfirmAfterClickIsNoOp(st: PageState, id: string, s: StatusAction, role: RoleAction)
    ensures var s1 := StatusClick(OpenMenu(st, id), s);
            StatusConfirm(s1) == s1
    ensures var s2 := RoleClick(OpenMenu(st, id), role);
            RoleConfirm(s2) == s2
  {
  }

  /** With the selection kept, each confirm changes exactly the chosen
      user's status or role. */
  lemma ConfirmAfterCorrectedClick(st: PageState, id: string, s: StatusAction, role: RoleAction)
    requires id != ""
    ensures var r := StatusConfirm(StatusClickKeepingSelection(OpenMenu(st, id), s));
            forall i :: 0 <= i < |st.users| ==>
              r.users[i] == if st.users[i].id == id then st.users[i].(status := StatusLabel(s)) else st.users[i]
    ensures var r := RoleConfirm(RoleClickKeepingSelection(OpenMenu(st, id), role));
            forall i :: 0 <= i < |st.users| ==>
              r.users[i] == if st.users[i].id == id then st.users[i].(role := RoleLabel(role)) else st.users[i]
  {
  }

  /** A user whose role was set through a role action is kept by the role
      filter set to that same option. */
  lemma {:induction false} RoleActionMatchesRoleFilter(st: PageState, id: string, role: RoleAction, i: nat)
    requires id != "" && i < |st.users| && st.users[i].id == id
    ensures var r := RoleConfirm(RoleClickKeepingSelection(OpenMenu(st, id), role));
            var u := r.users[i];
            Keeps("", RoleLabel(role), "", u)
  {
    var r := RoleConfirm(RoleClickKeepingSelection(OpenMenu(st, id), role));
    EmptyNeedle(r.users[i].email);
  }

  /** `handleSearchChange`. */
  function SearchChange(st: PageState, term: string): (r: PageState)
    ensures r.searchTerm == term && r.pager == FirstPage(st.pager)
    ensures r == st.(searchTerm := term, pager := r.pager)
  {
    st.(searchTerm := term, pager := FirstPage(st.pager))
  }

  /** `handleRoleFilterChange`. */
  function RoleFilterChange(st: PageState, role: string): (r: PageState)
    ensures r.filterRole == role && r.pager == FirstPage(st.pager)
    ensures r == st.(filterRole := role, pager := r.pager)
  {
    st.(filterRole := role, pager := FirstPage(st.pager))
  }

  /** `handleStatusFilterChange`. */
  function StatusFilterChange(st: PageState, status: string): (r: PageState)
    ensures r.filterStatus == status && r.pager == FirstPage(st.pager)
    ensures r == st.(filterStatus := status, pager := r.pager)
  {
    st.(filterStatus := status, pager := FirstPage(st.pager))
  }

  /** `handleChangeRowsPerPage`. */
  function RowsPerPageChange(st: PageState, rows: nat): (r: PageState)
    ensures r.pager == Pager(0, rows) && r == st.(pager := r.pager)
  {
    st.(pager := ChangeRowsPerPage(st.pager, rows))
  }
}
