/** The administrators' and managers' equipment table: search, pagination,
    the path prefix links use, and deletion through the row menu. */
module AdminEquipmentListPage {
  import opened Wrappers
  import opened Seqs
  import opened Text
  import opened Paging
  import opened MenuFlow

  datatype EquipmentRow = EquipmentRow(
    id: string,
    name: string,
    category: string,
    status: string,
    dailyRate: int,
    location: string,
    lastMaintenance: string)

  /** `basePath`: links stay under `/admin` when the page is shown there,
      and go under `/manager` otherwise. */
  function BasePath(pathname: string): (r: string)
    ensures r == "/admin" <==> StartsWith(pathname, "/admin")
    ensures r == "/admin" || r == "/manager"
  {
    if StartsWith(pathname, "/admin") then "/admin" else "/manager"
  }

  /** The term appears, ignoring case, in the name, category or status. */
  predicate Keeps(term: string, row: EquipmentRow) {
    ContainsFold(row.name, term) || ContainsFold(row.category, term) || ContainsFold(row.status, term)
  }

  function KeepsFn(term: string): EquipmentRow -> bool {
    (row: EquipmentRow) => Keeps(term, row)
  }

  /** `filteredEquipment`: the matching rows in order; the empty term keeps
      every row. */
  function Filtered(rows: seq<EquipmentRow>, term: string): (r: seq<EquipmentRow>)
    ensures IsSubseq(r, rows)
    ensures forall i :: 0 <= i < |r| ==> r[i] in rows && Keeps(term, r[i])
    ensures forall i :: 0 <= i < |rows| && Keeps(term, rows[i]) ==> rows[i] in r
    ensures forall x {:trigger multiset(r)[x]} :: x in rows ==> multiset(r)[x] == if Keeps(term, x) then multiset(rows)[x] else 0
    ensures term == "" ==> r == rows
  {
    assert term == "" ==> forall i :: 0 <= i < |rows| ==> KeepsFn(term)(rows[i]) by {
      if term == "" {
        forall i | 0 <= i < |rows| ensures Keeps(term, rows[i]) {
          EmptyNeedle(rows[i].name);
        }
      }
    }
    Filter(KeepsFn(term), rows)
  }

  datatype PageState = PageState(
    rows: seq<EquipmentRow>,
    searchTerm: string,
    pager: Pager,
    menu: Menu,
    deleteDialogOpen: bool)

  /** The rows on screen. */
  function Shown(st: PageState): (r: seq<EquipmentRow>)
    ensures |r| <= st.pager.rowsPerPage
    ensures forall i :: 0 <= i < |r| ==> r[i] in st.rows && Keeps(st.searchTerm, r[i])
    ensures IsPageOf(r, Filtered(st.rows, st.searchTerm), st.pager)
  {
    var f := Filtered(st.rows, st.searchTerm);
    var r := Visible(f, st.pager);
    forall i | 0 <= i < |r|
      ensures r[i] in st.rows && Keeps(st.searchTerm, r[i])
    {
      var k := st.pager.page * st.pager.rowsPerPage + i;
      assert r[i] == f[k];
      assert f[k] in st.rows && Keeps(st.searchTerm, f[k]);
    }
    r
  }

  function OtherIdFn(id: string): EquipmentRow -> bool {
    (row: EquipmentRow) => row.id != id
  }

  /** `handleDeleteConfirm`: without a selected row it returns at once;
      otherwise every row with the selected id is removed, the rest keep
      their order, and the dialog closes. */
  function DeleteConfirm(st: PageState): (r: PageState)
    ensures !Present(st.menu.selected) ==> r == st
    ensures Present(st.menu.selected) ==>
      && IsSubseq(r.rows, st.rows)
      && (forall i :: 0 <= i < |r.rows| ==> r.rows[i].id != st.menu.selected.value)
      && (forall i :: 0 <= i < |st.rows| && st.rows[i].id != st.menu.selected.value ==> st.rows[i] in r.rows)
      && (forall x {:trigger multiset(r.rows)[x]} :: x in st.rows ==>
            multiset(r.rows)[x] == if x.id != st.menu.selected.value then multiset(st.rows)[x] else 0)
      && !r.deleteDialogOpen
    ensures r == st.(rows := r.rows, deleteDialogOpen := r.deleteDialogOpen)
  {
    if !Present(st.menu.selected) then st
    else st.(rows := Filter(OtherIdFn(st.menu.selected.value), st.rows), deleteDialogOpen := false)
  }

  function OpenMenu(st: PageState, id: string): (r: PageState)
    ensures r.menu == Menu(true, Some(id)) && r == st.(menu := r.menu)
  {
    st.(menu := MenuOpen(st.menu, id))
  }

  /** `handleDeleteClick` as written: closing the menu drops the row. */
  function DeleteClick(st: PageState): (r: PageState)
    ensures r.menu.selected.None? && r.deleteDialogOpen
    ensures r == st.(menu := r.menu, deleteDialogOpen := true)
  {
    st.(menu := MenuClose(st.menu), deleteDialogOpen := true)
  }

  /** `handleDeleteClick` keeping the row the menu was opened on. */
  function DeleteClickKeepingSelection(st: PageState): (r: PageState)
    ensures r.menu.selected == st.menu.selected && !r.menu.open && r.deleteDialogOpen
    ensures r == st.(menu := r.menu, deleteDialogOpen := true)
  {
    st.(menu := st.menu.(open := false), deleteDialogOpen := true)
  }

  /** Through the menu as written, confirming deletes nothing. */
  lemma ConfirmAfterClickIsNoOp(st: PageState, id: string)
    ensures var s := DeleteClick(OpenMenu(st, id));
            DeleteConfirm(s) == s
  {
  }

  /** With the selection kept, confirming removes exactly the rows with the
      id the menu was opened on. */
  lemma {:induction false} ConfirmAfterCorrectedClick(st: PageState, id: string)
    requires id != ""
    ensures var r := DeleteConfirm(DeleteClickKeepingSelection(OpenMenu(st, id)));
            && (forall i :: 0 <= i < |r.rows| ==> r.rows[i].id != id)
            && (forall i :: 0 <= i < |st.rows| && st.rows[i].id != id ==> st.rows[i] in r.rows)
            && (forall x {:trigger multiset(r.rows)[x]} :: x in st.rows ==>
                  multiset(r.rows)[x] == if x.id != id then multiset(st.rows)[x] else 0)
            && IsSubseq(r.rows, st.rows)
  {
  }

  /** `handleSearchChange`. */
  function SearchChange(st: PageState, term: string): (r: PageState)
    ensures r.searchTerm == term && r.pager == FirstPage(st.pager)
    ensures r == st.(searchTerm := term, pager := r.pager)
  {
    st.(searchTerm := term, pager := FirstPage(st.pager))
  }

  /** `handleChangeRowsPerPage`. */
  function RowsPerPageChange(st: PageState, rows: nat): (r: PageState)
    ensures r.pager == Pager(0, rows) && r == st.(pager := r.pager)
  {
    st.(pager := ChangeRowsPerPage(st.pager, rows))
  }

  /** `handleChangePage`. */
  function PageChange(st: PageState, page: nat): (r: PageState)
    ensures r.pager == Pager(page, st.pager.rowsPerPage) && r == st.(pager := r.pager)
  {
    st.(pager := ChangePage(st.pager, page))
  }
}
