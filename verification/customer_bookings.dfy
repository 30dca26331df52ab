/** The customer's bookings table: a text search over equipment name and
    status, and pagination. */
module CustomerBookingsPage {
  import opened Seqs
  import opened Text
  import opened Paging

  datatype BookingRow = BookingRow(
    id: string,
    equipmentName: string,
    startDate: string,
    endDate: string,
    status: string,
    equipmentId: string)

  datatype PageState = PageState(rows: seq<BookingRow>, pager: Pager, searchTerm: string)

  /** The row mentions the term in its equipment name or its status,
      ignoring case. */
  predicate Keeps(term: string, row: BookingRow) {
    ContainsFold(row.equipmentName, term) || ContainsFold(row.status, term)
  }

  function KeepsFn(term: string): BookingRow -> bool {
    (row: BookingRow) => Keeps(term, row)
  }

  /** `filteredBookings`: the matching rows, in their original order; the
      empty term keeps every row. */
  function Filtered(rows: seq<BookingRow>, term: string): (r: seq<BookingRow>)
    ensures IsSubseq(r, rows)
    ensures forall i :: 0 <= i < |r| ==> r[i] in rows && Keeps(term, r[i])
    ensures forall i :: 0 <= i < |rows| && Keeps(term, rows[i]) ==> rows[i] in r
    ensures forall x {:trigger multiset(r)[x]} :: x in rows ==> multiset(r)[x] == if Keeps(term, x) then multiset(rows)[x] else 0
    ensures term == "" ==> r == rows
  {
    assert term == "" ==> forall i :: 0 <= i < |rows| ==> KeepsFn(term)(rows[i]) by {
      if term == "" {
        forall i | 0 <= i < |rows| ensures Keeps(term, rows[i]) {
          EmptyNeedle(rows[i].equipmentName);
        }
      }
    }
    Filter(KeepsFn(term), rows)
  }

  /** The rows on screen. */
  function Shown(st: PageState): (r: seq<BookingRow>)
    ensures |r| <= st.pager.rowsPerPage
    ensures forall i :: 0 <= i < |r| ==> r[i] in st.rows && Keeps(st.searchTerm, r[i])
    ensures IsPageOf(r, Filtered(st.rows, st.searchTerm), st.pager)
  {
    var f := Filtered(st.rows, st.searchTerm);
    var r := Visible(f, st.pager);
    forall i | 0 <= i < |r|
      ensures r[i] in st.rows && Keeps(st.searchTerm, r[i])
    {
      var k := st.pager.page * st.pager.rowsPerPage + i;
      assert r[i] == f[k];
      assert f[k] in st.rows && Keeps(st.searchTerm, f[k]);
    }
    r
  }

  /** `handleSearchChange`: the new term, back on the first page. */
  function SearchChange(st: PageState, term: string): (r: PageState)
    ensures r.searchTerm == term && r.pager == FirstPage(st.pager) && r.rows == st.rows
  {
    st.(searchTerm := term, pager := FirstPage(st.pager))
  }

  /** `handleChangeRowsPerPage`. */
  function RowsPerPageChange(st: PageState, rows: nat): (r: PageState)
    ensures r.pager == Pager(0, rows) && r.searchTerm == st.searchTerm && r.rows == st.rows
  {
    st.(pager := ChangeRowsPerPage(st.pager, rows))
  }

  /** `handleChangePage`. */
  function PageChange(st: PageState, page: nat): (r: PageState)
    ensures r.pager == Pager(page, st.pager.rowsPerPage) && r.searchTerm == st.searchTerm && r.rows == st.rows
  {
    st.(pager := ChangePage(st.pager, page))
  }

  /** After a search change the table shows the leading matches. */
  lemma SearchShowsLeadingMatches(st: PageState, term: string)
    ensures var f := Filtered(st.rows, term);
            Shown(SearchChange(st, term)) == f[..Min(st.pager.rowsPerPage, |f|)]
  {
    FirstPageIsPrefix(Filtered(st.rows, term), FirstPage(st.pager));
  }

  /** Narrowing the search by extending the term never adds rows. */
  lemma {:induction false} LongerTermNarrows(rows: seq<BookingRow>, term: string, more: string)
    ensures IsSubseq(Filtered(rows, term + more), Filtered(rows, term))
  {
    forall row: BookingRow | Keeps(term + more, row)
      ensures Keeps(term, row)
    {
      if ContainsFold(row.equipmentName, term + more) {
        ContainsFoldPrefix(row.equipmentName, term, more);
      } else {
        ContainsFoldPrefix(row.status, term, more);
      }
    }
    FilterMonotone(KeepsFn(term + more), KeepsFn(term), rows);
  }
}
