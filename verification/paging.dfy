/** Table pagination as the list pages render it: the rows
    `filtered.slice(page * rowsPerPage, page * rowsPerPage + rowsPerPage)`. */
module Paging {

  datatype Pager = Pager(page: nat, rowsPerPage: nat)

  /** Every list page starts on page 0 with ten rows per page. */
  const InitialPager := Pager(0, 10)

  function Min(a: int, b: int): int {
    if a <= b then a else b
  }

  /** `r` is the window of `xs` that pager `p` selects: the rows from
      position `page * rowsPerPage` on, as many as fit on a page or remain. */
  ghost predicate IsPageOf<T>(r: seq<T>, xs: seq<T>, p: Pager) {
    var lo := p.page * p.rowsPerPage;
    && |r| == (if lo >= |xs| then 0 else Min(p.rowsPerPage, |xs| - lo))
    && forall i :: 0 <= i < |r| ==> lo + i < |xs| && r[i] == xs[lo + i]
  }

  /** The rows on the current page: at most `rowsPerPage` of them, taken in
      order from position `page * rowsPerPage`, and fewer only when the list
      runs out. */
  function Visible<T>(xs: seq<T>, p: Pager): (r: seq<T>)
    ensures |r| <= p.rowsPerPage
    ensures forall k :: 0 <= k < |r| ==>
              p.page * p.rowsPerPage + k < |xs| && r[k] == xs[p.page * p.rowsPerPage + k]
    ensures p.page * p.rowsPerPage + p.rowsPerPage <= |xs| ==> |r| == p.rowsPerPage
    ensures p.page * p.rowsPerPage < |xs| <= p.page * p.rowsPerPage + p.rowsPerPage ==>
              |r| == |xs| - p.page * p.rowsPerPage
    ensures |xs| <= p.page * p.rowsPerPage ==> r == []
    ensures IsPageOf(r, xs, p)
  {
    var lo := Min(p.page * p.rowsPerPage, |xs|);
    var hi := Min(p.page * p.rowsPerPage + p.rowsPerPage, |xs|);
    xs[lo..hi]
  }

  /** `handleChangePage`. */
  function ChangePage(p: Pager, newPage: nat): (r: Pager)
    ensures r.page == newPage && r.rowsPerPage == p.rowsPerPage
  {
    p.(page := newPage)
  }

  /** `handleChangeRowsPerPage`: the new size, back on the first page. */
  function ChangeRowsPerPage(p: Pager, rows: nat): (r: Pager)
    ensures r.page == 0 && r.rowsPerPage == rows
  {
    Pager(0, rows)
  }

  /** What every filter or search change does to the pager. */
  function FirstPage(p: Pager): (r: Pager)
    ensures r.page == 0 && r.rowsPerPage == p.rowsPerPage
  {
    p.(page := 0)
  }

  /** The first page shows the leading rows of the list. */
  lemma FirstPageIsPrefix<T>(xs: seq<T>, p: Pager)
    requires p.page == 0
    ensures Visible(xs, p) == xs[..Min(p.rowsPerPage, |xs|)]
  {
  }

  /** Row `i` falls in the window of page `page`. */
  predicate OnPage(i: int, p: Pager) {
    p.page * p.rowsPerPage <= i < p.page * p.rowsPerPage + p.rowsPerPage
  }

  lemma {:induction false} MulMonotone(a: int, b: int, n: nat)
    requires a < b
    ensures a * n + n <= b * n
  {
    assert b * n - a * n == (b - a) * n;
    assert (b - a) * n >= n by {
      assert (b - a) * n == (b - a - 1) * n + n;
      assert (b - a - 1) * n >= 0;
    }
  }

  /** Each row falls in the window of exactly one page, page
      `i / rowsPerPage`. */
  lemma {:induction false} PageOfRow(i: nat, rowsPerPage: nat, page: nat)
    requires rowsPerPage > 0
    ensures OnPage(i, Pager(page, rowsPerPage)) <==> page == i / rowsPerPage
  {
    var q := i / rowsPerPage;
    assert q * rowsPerPage <= i < q * rowsPerPage + rowsPerPage;
    if page < q {
      MulMonotone(page, q, rowsPerPage);
    } else if page > q {
      MulMonotone(q, page, rowsPerPage);
    }
  }

  /** Row `i` is shown at position `i % rowsPerPage` of its page. */
  lemma {:induction false} RowOnItsPage<T>(xs: seq<T>, rowsPerPage: nat, i: nat)
    requires rowsPerPage > 0 && i < |xs|
    ensures i % rowsPerPage < |Visible(xs, Pager(i / rowsPerPage, rowsPerPage))|
    ensures Visible(xs, Pager(i / rowsPerPage, rowsPerPage))[i % rowsPerPage] == xs[i]
  {
    var q := i / rowsPerPage;
    var m := i % rowsPerPage;
    assert i == q * rowsPerPage + m && 0 <= m < rowsPerPage;
  }
}
