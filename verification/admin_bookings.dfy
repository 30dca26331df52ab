/** The administrators' bookings table: search, status and date-range
    filters, pagination, and the approve/cancel action reached through the
    row menu. */
module AdminBookingsPage {
  import opened Wrappers
  import opened Seqs
  import opened Text
  import opened Dates
  import opened Paging
  import opened MenuFlow

  datatype BookingRow = BookingRow(
    id: string,
    equipmentName: string,
    equipmentId: string,
    userName: string,
    userId: string,
    startDate: Instant,
    endDate: Instant,
    status: string,
    totalCost: int,
    createdAt: string)

  /** The filter dialog's fields: a status label (`''` for any) and optional
      bounds picked in date pickers. */
  datatype RowFilters = RowFilters(status: string, from: Option<Instant>, to: Option<Instant>)

  const NoRowFilters := RowFilters("", None, None)

  datatype StatusAction = Approve | Cancel

  /** The status label an action writes into the row. */
  function ActionLabel(a: StatusAction): (r: string)
    ensures r == "Approved" <==> a == Approve
    ensures r == "Approved" || r == "Cancelled"
  {
    match a
    case Approve => "Approved"
    case Cancel => "Cancelled"
  }

  predicate MatchesSearch(term: string, row: BookingRow) {
    ContainsFold(row.equipmentName, term) || ContainsFold(row.userName, term) || ContainsFold(row.id, term)
  }

  predicate MatchesStatus(f: RowFilters, row: BookingRow) {
    f.status == "" || row.status == f.status
  }

  /** Starts no earlier than `from` and ends no later than `to`, when set. */
  predicate MatchesDates(f: RowFilters, row: BookingRow) {
    && (f.from.Some? ==> Le(f.from.value, row.startDate))
    && (f.to.Some? ==> Le(row.endDate, f.to.value))
  }

  predicate Keeps(term: string, f: RowFilters, row: BookingRow) {
    MatchesSearch(term, row) && MatchesStatus(f, row) && MatchesDates(f, row)
  }

  function KeepsFn(term: string, f: RowFilters): BookingRow -> bool {
    (row: BookingRow) => Keeps(term, f, row)
  }

  /** `filteredBookings`: the rows passing the search and every set filter,
      in order; with nothing set, every row. */
  function Filtered(rows: seq<BookingRow>, term: string, f: RowFilters): (r: seq<BookingRow>)
    ensures IsSubseq(r, rows)
    ensures forall i :: 0 <= i < |r| ==>
              && MatchesSearch(term, r[i])
              && (f.status != "" ==> r[i].status == f.status)
              && (f.from.Some? ==> Le(f.from.value, r[i].startDate))
              && (f.to.Some? ==> Le(r[i].endDate, f.to.value))
    ensures forall i :: 0 <= i < |rows| && Keeps(term, f, rows[i]) ==> rows[i] in r
    ensures forall x {:trigger multiset(r)[x]} :: x in rows ==> multiset(r)[x] == if Keeps(term, f, x) then multiset(rows)[x] else 0
    ensures term == "" && f == NoRowFilters ==> r == rows
  {
    assert term == "" && f == NoRowFilters ==> forall i :: 0 <= i < |rows| ==> KeepsFn(term, f)(rows[i]) by {
      if term == "" && f == NoRowFilters {
        forall i | 0 <= i < |rows| ensures Keeps(term, f, rows[i]) {
          EmptyNeedle(rows[i].equipmentName);
        }
      }
    }
    Filter(KeepsFn(term, f), rows)
  }

  datatype PageState = PageState(
    rows: seq<BookingRow>,
    searchTerm: string,
    pager: Pager,
    filters: RowFilters,
    filterDialogOpen: bool,
    menu: Menu,
    dialog: Dialog<StatusAction>)

  /** Every row with that id gets the label; the others are unchanged. */
  function SetRowStatus(rows: seq<BookingRow>, id: string, status: string): (r: seq<BookingRow>)
    ensures |r| == |rows|
    ensures forall i :: 0 <= i < |rows| ==>
              r[i] == if rows[i].id == id then rows[i].(status := status) else rows[i]
  {
    seq(|rows|, i requires 0 <= i < |rows| => if rows[i].id == id then rows[i].(status := status) else rows[i])
  }

  /** `handleStatusConfirm`: without a selected row and an action it returns
      at once; otherwise it relabels the selected row, whatever its current
      status, and closes the dialog. */
  function StatusConfirm(st: PageState): (r: PageState)
    ensures !Armed(st.menu, st.dialog) ==> r == st
    ensures Armed(st.menu, st.dialog) ==>
      && |r.rows| == |st.rows|
      && (forall i :: 0 <= i < |st.rows| && st.rows[i].id == st.menu.selected.value ==>
            r.rows[i] == st.rows[i].(status := ActionLabel(st.dialog.action.value)))
      && (forall i :: 0 <= i < |st.rows| && st.rows[i].id != st.menu.selected.value ==> r.rows[i] == st.rows[i])
      && r.dialog == NoDialog() && r.menu == st.menu
    ensures r == st.(rows := r.rows, dialog := r.dialog)
  {
    if !Armed(st.menu, st.dialog) then st
    else st.(rows := SetRowStatus(st.rows, st.menu.selected.value, ActionLabel(st.dialog.action.value)),
             dialog := NoDialog())
  }

  /** `handleMenuOpen` on a row. */
  function OpenMenu(st: PageState, id: string): (r: PageState)
    ensures r.menu == Menu(true, Some(id)) && r.rows == st.rows && r.dialog == st.dialog
    ensures r == st.(menu := r.menu)
  {
    st.(menu := MenuOpen(st.menu, id))
  }

  /** `handleStatusClick` as written. */
  function StatusClick(st: PageState, a: StatusAction): (r: PageState)
    ensures r.menu.selected.None? && r.dialog == Dialog(true, Some(a)) && r.rows == st.rows
    ensures r == st.(menu := r.menu, dialog := r.dialog)
  {
    var (m, d) := Click(st.menu, st.dialog, a);
    st.(menu := m, dialog := d)
  }

  /** `handleStatusClick` keeping the selected row. */
  function StatusClickKeepingSelection(st: PageState, a: StatusAction): (r: PageState)
    ensures r.menu.selected == st.menu.selected && r.dialog == Dialog(true, Some(a)) && r.rows == st.rows
    ensures r == st.(menu := r.menu, dialog := r.dialog)
  {
    var (m, d) := ClickKeepingSelection(st.menu, st.dialog, a);
    st.(menu := m, dialog := d)
  }

  /** Through the menu as written, confirming changes nothing: the menu
      entry has already dropped the selected row. */
  lemma ConfirmAfterClickIsNoOp(st: PageState, id: string, a: StatusAction)
    ensures var s := StatusClick(OpenMenu(st, id), a);
            StatusConfirm(s) == s
  {
  }

  /** With the selection kept, confirming relabels exactly the rows of the
      booking the menu was opened on. */
  lemma ConfirmAfterCorrectedClick(st: PageState, id: string, a: StatusAction)
    requires id != ""
    ensures var r := StatusConfirm(StatusClickKeepingSelection(OpenMenu(st, id), a));
            && |r.rows| == |st.rows|
            && forall i :: 0 <= i < |st.rows| ==>
                 r.rows[i] == if st.rows[i].id == id then st.rows[i].(status := ActionLabel(a)) else st.rows[i]
  {
  }

  /** One edit made in the filter dialog. */
  datatype FilterEdit = SetStatus(status: string) | SetFrom(from: Option<Instant>) | SetTo(to: Option<Instant>)

  /** `handleFilterChange`: one field replaced, the others kept; the table
      is not re-paged until the filters are applied. */
  function FilterChange(st: PageState, e: FilterEdit): (r: PageState)
    ensures e.SetStatus? ==> r.filters == st.filters.(status := e.status)
    ensures e.SetFrom? ==> r.filters == st.filters.(from := e.from)
    ensures e.SetTo? ==> r.filters == st.filters.(to := e.to)
    ensures r == st.(filters := r.filters)
  {
    match e
    case SetStatus(s) => st.(filters := st.filters.(status := s))
    case SetFrom(d) => st.(filters := st.filters.(from := d))
    case SetTo(d) => st.(filters := st.filters.(to := d))
  }

  /** `handleApplyFilters`: the dialog closes and the table goes back to the
      first page. */
  function ApplyFilters(st: PageState): (r: PageState)
    ensures !r.filterDialogOpen && r.pager == FirstPage(st.pager)
    ensures r == st.(filterDialogOpen := false, pager := r.pager)
  {
    st.(filterDialogOpen := false, pager := FirstPage(st.pager))
  }

  /** `handleResetFilters`: every filter cleared; page and dialog stay. */
  function ResetFilters(st: PageState): (r: PageState)
    ensures r.filters == NoRowFilters && r == st.(filters := NoRowFilters)
  {
    st.(filters := NoRowFilters)
  }

  /** `handleSearchChange`. */
  function SearchChange(st: PageState, term: string): (r: PageState)
    ensures r.searchTerm == term && r.pager == FirstPage(st.pager)
    ensures r == st.(searchTerm := term, pager := r.pager)
  {
    st.(searchTerm := term, pager := FirstPage(st.pager))
  }

  /** `handleChangeRowsPerPage`. */
  function RowsPerPageChange(st: PageState, rows: nat): (r: PageState)
    ensures r.pager == Pager(0, rows) && r == st.(pager := r.pager)
  {
    st.(pager := ChangeRowsPerPage(st.pager, rows))
  }

  /** After a reset only the search still narrows the table. */
  lemma {:induction false} ResetLeavesOnlySearch(st: PageState)
    ensures var r := ResetFilters(st);
            forall i :: 0 <= i < |r.rows| ==>
              (r.rows[i] in Filtered(r.rows, r.searchTerm, r.filters) <==> MatchesSearch(r.searchTerm, r.rows[i]))
  {
  }

  /** Setting a status filter on top of any other filters never adds rows. */
  lemma {:induction false} StatusFilterNarrows(rows: seq<BookingRow>, term: string, f: RowFilters, status: string)
    requires f.status == ""
    ensures IsSubseq(Filtered(rows, term, f.(status := status)), Filtered(rows, term, f))
  {
    FilterMonotone(KeepsFn(term, f.(status := status)), KeepsFn(term, f), rows);
  }
}
