/** The public equipment detail page: the image carousel, the rental-days
    figure, the book button and where it leads. */
module EquipmentDetailPage {
  import opened Wrappers
  import opened Dates
  import opened Types
  import opened Routing
  import Ledger
  import CreateBookingPage

  datatype Direction = Prev | Next

  /** `handleImageNavigation`: nothing happens until the item is loaded;
      "prev" from the first image goes to the last and "next" from the last
      goes to the first. `imageCount` is `None` while no item is loaded. */
  function Navigate(index: int, imageCount: Option<nat>, d: Direction): (r: int)
    ensures imageCount.None? ==> r == index
    ensures imageCount.Some? && d == Prev ==> r == (if index == 0 then imageCount.value - 1 else index - 1)
    ensures imageCount.Some? && d == Next ==> r == (if index == imageCount.value - 1 then 0 else index + 1)
    ensures imageCount.Some? && 0 <= index < imageCount.value ==> 0 <= r < imageCount.value
  {
    match imageCount
    case None => index
    case Some(n) =>
      match d
      case Prev => if index == 0 then n - 1 else index - 1
      case Next => if index == n - 1 then 0 else index + 1
  }

  /** Within the images, "prev" and "next" undo each other. */
  lemma PrevUndoesNext(index: int, n: nat)
    requires 0 <= index < n
    ensures Navigate(Navigate(index, Some(n), Next), Some(n), Prev) == index
    ensures Navigate(Navigate(index, Some(n), Prev), Some(n), Next) == index
  {
  }

  /** The rental-days effect: whole days between the two dates, any part
      counting, and at least one; unchanged until both dates are set. */
  function RentalDays(current: int, startDate: Option<int>, endDate: Option<int>): (r: int)
    ensures startDate.None? || endDate.None? ==> r == current
    ensures startDate.Some? && endDate.Some? ==>
              r >= 1 && (startDate.value != endDate.value ==>
                           DayMs * (r - 1) < Abs(endDate.value - startDate.value) <= DayMs * r)
    ensures startDate.Some? && startDate == endDate ==> r == 1
  {
    if startDate.None? || endDate.None? then current
    else
      var days := CeilDiv(Abs(endDate.value - startDate.value), DayMs);
      if days == 0 then 1 else days
  }

  /** For a period the ledger accepts, the item page shows the days the
      ledger charges for, and the booking wizard one more. */
  lemma {:induction false} RentalDaysAgrees(current: int, s: int, e: int)
    requires s < e
    ensures RentalDays(current, Some(s), Some(e)) == Ledger.LedgerDays(s, e)
    ensures CreateBookingPage.TotalDays(Some(s), Some(e)) == RentalDays(current, Some(s), Some(e)) + 1
  {
    CreateBookingPage.PageCountsOneMoreDay(s, e);
  }

  /** The figure does not depend on which date comes first. */
  lemma RentalDaysSymmetric(current: int, a: Option<int>, b: Option<int>)
    ensures RentalDays(current, a, b) == RentalDays(current, b, a)
  {
  }

  /** The page's dates are set once, when it mounts, and never changed: the
      start is one clock read, the end a second read plus three days. The
      figure is 3 when both reads give the same millisecond and 4 when the
      clock has moved between them. */
  lemma InitialRentalDays(current: int, startRead: int, endRead: int)
    requires startRead <= endRead < startRead + DayMs
    ensures RentalDays(current, Some(startRead), Some(endRead + 3 * DayMs)) == (if endRead == startRead then 3 else 4)
  {
  }

  /** The button is disabled exactly when the item is not available. */
  predicate BookDisabled(e: Equipment) {
    e.availabilityStatus != Available
  }

  function BookLabel(e: Equipment): (r: string)
    ensures r == "Book Now" <==> !BookDisabled(e)
  {
    if e.availabilityStatus == Available then "Book Now" else "Currently Unavailable"
  }

  function ItemPath(equipmentId: string): string {
    "/equipment/" + equipmentId
  }

  /** `handleBookNow` as written: signed in, straight to the booking form;
      otherwise to sign-in, with the item's path passed as a plain string
      under `from`. */
  function BookNow(isAuthenticated: bool, equipmentId: string): (r: Navigation)
    ensures isAuthenticated ==> r == Navigation(ItemPath(equipmentId) + "/book", NoState, false)
    ensures !isAuthenticated ==> r.to == LoginPath && r.state == FromText(ItemPath(equipmentId)) && !r.replace
  {
    if isAuthenticated then Navigation(ItemPath(equipmentId) + "/book", NoState, false)
    else Navigation(LoginPath, FromText(ItemPath(equipmentId)), false)
  }

  /** `handleBookNow` passing a location under `from`, the shape the
      sign-in page reads. */
  function BookNowWithLocation(isAuthenticated: bool, equipmentId: string): (r: Navigation)
    ensures isAuthenticated ==> r == BookNow(isAuthenticated, equipmentId)
    ensures !isAuthenticated ==> r.to == LoginPath && r.state == FromLocation(Location(ItemPath(equipmentId), ""))
  {
    if isAuthenticated then BookNow(isAuthenticated, equipmentId)
    else Navigation(LoginPath, FromLocation(Location(ItemPath(equipmentId), "")), false)
  }
}
