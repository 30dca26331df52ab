/** The booking ledger: the list of bookings beside the equipment registry,
    the availability test, booking creation and status changes that keep each
    item's availability status in step with its bookings. */
module Ledger {
  import opened Wrappers
  import opened Seqs
  import opened Dates
  import opened Types
  import Registry

  /** The two lists the booking operations read and write together. */
  datatype Store = Store(equipment: seq<Equipment>, bookings: seq<Booking>)

  /** The reasons an operation throws, in the order they are checked. */
  datatype BookingError =
    | NotSignedIn
    | EquipmentNotFound
    | InvalidDates
    | StartNotBeforeEnd
    | Unavailable
    | BookingNotFound

  /** The text of the error thrown for each reason. */
  function Message(e: BookingError): string {
    match e
    case NotSignedIn => "You must be logged in to create a booking"
    case EquipmentNotFound => "Equipment not found"
    case InvalidDates => "Invalid dates"
    case StartNotBeforeEnd => "Start date must be before end date"
    case Unavailable => "Equipment is not available for the selected dates"
    case BookingNotFound => "Booking not found"
  }

  function IdFn(id: string): Booking -> bool {
    (b: Booking) => b.id == id
  }

  /** The position of the first booking with that id. */
  function BookingIndex(bs: seq<Booking>, id: string): (r: Option<nat>)
    ensures r.Some? ==> r.value < |bs| && bs[r.value].id == id
    ensures r.Some? ==> forall j :: 0 <= j < r.value ==> bs[j].id != id
    ensures r.None? <==> forall j :: 0 <= j < |bs| ==> bs[j].id != id
  {
    FindIndex(IdFn(id), bs)
  }

  function GetBookingById(bs: seq<Booking>, id: string): (r: Option<Booking>)
    ensures r.Some? <==> exists i :: 0 <= i < |bs| && bs[i].id == id
    ensures r.Some? ==> r.value in bs && r.value.id == id
  {
    match BookingIndex(bs, id)
    case None => None
    case Some(i) => Some(bs[i])
  }

  function CustomerFn(customerId: string): Booking -> bool {
    (b: Booking) => b.customerId == customerId
  }

  function GetBookingsByCustomerId(bs: seq<Booking>, customerId: string): (r: seq<Booking>)
    ensures IsSubseq(r, bs)
    ensures forall i :: 0 <= i < |r| ==> r[i].customerId == customerId
    ensures forall i :: 0 <= i < |bs| && bs[i].customerId == customerId ==> bs[i] in r
    ensures forall x {:trigger multiset(r)[x]} :: x in bs ==> multiset(r)[x] == if x.customerId == customerId then multiset(bs)[x] else 0
  {
    Filter(CustomerFn(customerId), bs)
  }

  function EquipmentFn(equipmentId: string): Booking -> bool {
    (b: Booking) => b.equipmentId == equipmentId
  }

  function GetBookingsByEquipmentId(bs: seq<Booking>, equipmentId: string): (r: seq<Booking>)
    ensures IsSubseq(r, bs)
    ensures forall i :: 0 <= i < |r| ==> r[i].equipmentId == equipmentId
    ensures forall i :: 0 <= i < |bs| && bs[i].equipmentId == equipmentId ==> bs[i] in r
    ensures forall x {:trigger multiset(r)[x]} :: x in bs ==> multiset(r)[x] == if x.equipmentId == equipmentId then multiset(bs)[x] else 0
  {
    Filter(EquipmentFn(equipmentId), bs)
  }

  /** The three-clause overlap test between a requested period and a booked
      one. For well-ordered periods it is closed-interval intersection, so a
      period starting on the day another ends conflicts with it; any `NaN`
      comparison is false. */
  function Overlaps(start: Instant, end: Instant, bStart: Instant, bEnd: Instant): (r: bool)
    ensures r ==> bStart.Valid? && bEnd.Valid?
    ensures start.Invalid? && end.Invalid? ==> !r
    ensures start.Valid? && end.Valid? && bStart.Valid? && bEnd.Valid?
            && start.ms <= end.ms && bStart.ms <= bEnd.ms ==>
              (r <==> start.ms <= bEnd.ms && bStart.ms <= end.ms)
  {
    || (Le(start, bEnd) && Le(bStart, start))
    || (Le(bStart, end) && Le(end, bEnd))
    || (Le(start, bStart) && Le(bEnd, end))
  }

  /** A booking that counts against the equipment: same item, not cancelled,
      and not the booking a present exclusion names. */
  predicate Blocks(b: Booking, equipmentId: string, exclude: Option<string>) {
    && b.equipmentId == equipmentId
    && b.status != Cancelled
    && (Present(exclude) ==> b.id != exclude.value)
  }

  function BlocksFn(equipmentId: string, exclude: Option<string>): Booking -> bool {
    (b: Booking) => Blocks(b, equipmentId, exclude)
  }

  function OverlapsFn(start: Instant, end: Instant): Booking -> bool {
    (b: Booking) => Overlaps(start, end, b.startDate, b.endDate)
  }

  /** Free exactly when no blocking booking overlaps the requested period. */
  function IsEquipmentAvailable(bs: seq<Booking>, equipmentId: string, start: Instant, end: Instant,
                                exclude: Option<string>): (r: bool)
    ensures r <==> forall i :: 0 <= i < |bs| && Blocks(bs[i], equipmentId, exclude) ==>
                     !Overlaps(start, end, bs[i].startDate, bs[i].endDate)
  {
    var candidates := Filter(BlocksFn(equipmentId, exclude), bs);
    var busy := Any(OverlapsFn(start, end), candidates);
    assert busy ==> exists i :: 0 <= i < |bs| && Blocks(bs[i], equipmentId, exclude)
                                && Overlaps(start, end, bs[i].startDate, bs[i].endDate) by {
      if busy {
        var k :| 0 <= k < |candidates| && OverlapsFn(start, end)(candidates[k]);
        assert candidates[k] in bs;
      }
    }
    !busy
  }

  datatype BookingRequest = BookingRequest(equipmentId: string, startDate: Instant, endDate: Instant, notes: Option<string>)

  datatype Created = Created(booking: Booking, store: Store)

  /** `user && user.id`. */
  predicate SignedIn(user: Option<User>) {
    user.Some? && user.value.id != ""
  }

  /** Whole days between two instants, any part of a day counting as a day. */
  function LedgerDays(startMs: int, endMs: int): (r: int)
    ensures DayMs * (r - 1) < endMs - startMs <= DayMs * r
    ensures startMs < endMs ==> r >= 1
  {
    CeilDiv(endMs - startMs, DayMs)
  }

  /** Every check `createBooking` makes before it commits. */
  predicate Accepts(s: Store, user: Option<User>, req: BookingRequest) {
    && SignedIn(user)
    && Registry.HasId(s.equipment, req.equipmentId)
    && req.startDate.Valid? && req.endDate.Valid?
    && req.startDate.ms < req.endDate.ms
    && forall i :: 0 <= i < |s.bookings| && Blocks(s.bookings[i], req.equipmentId, None) ==>
         !Overlaps(req.startDate, req.endDate, s.bookings[i].startDate, s.bookings[i].endDate)
  }

  /** Checks sign-in, the item, the dates and availability in that order;
      on success appends one pending booking priced by whole days and marks
      the item reserved. The clock is read twice: `now` stamps the booking,
      and `itemNow`, read by the registry after the simulated delay, stamps
      the item. */
  function CreateBooking(s: Store, user: Option<User>, req: BookingRequest, newId: string, now: int, itemNow: int)
    : (r: Result<Created, BookingError>)
    ensures r.Success? <==> Accepts(s, user, req)
    ensures !SignedIn(user) ==> r == Failure(NotSignedIn)
    ensures SignedIn(user) && !Registry.HasId(s.equipment, req.equipmentId) ==> r == Failure(EquipmentNotFound)
    ensures (SignedIn(user) && Registry.HasId(s.equipment, req.equipmentId)
             && (req.startDate.Invalid? || req.endDate.Invalid?)) ==> r == Failure(InvalidDates)
    ensures (SignedIn(user) && Registry.HasId(s.equipment, req.equipmentId)
             && req.startDate.Valid? && req.endDate.Valid? && req.startDate.ms >= req.endDate.ms)
            ==> r == Failure(StartNotBeforeEnd)
    ensures (SignedIn(user) && Registry.HasId(s.equipment, req.equipmentId)
             && req.startDate.Valid? && req.endDate.Valid? && req.startDate.ms < req.endDate.ms
             && !IsEquipmentAvailable(s.bookings, req.equipmentId, req.startDate, req.endDate, None))
            ==> r == Failure(Unavailable)
    ensures r.Failure? && r.error == Unavailable ==>
              exists i :: 0 <= i < |s.bookings| && Blocks(s.bookings[i], req.equipmentId, None)
                && Overlaps(req.startDate, req.endDate, s.bookings[i].startDate, s.bookings[i].endDate)
    ensures r.Failure? ==> r.error != BookingNotFound
    ensures r.Success? ==>
      var b := r.value.booking;
      && r.value.store.bookings == s.bookings + [b]
      && b.id == newId && b.equipmentId == req.equipmentId && b.customerId == user.value.id
      && b.startDate == req.startDate && b.endDate == req.endDate
      && b.status == Pending && b.paymentStatus == PaymentPending
      && b.notes.Some? && (Present(req.notes) ==> b.notes == req.notes) && (!Present(req.notes) ==> b.notes == Some(""))
      && b.createdAt == now && b.updatedAt == now
      && (exists item :: Registry.GetEquipmentById(s.equipment, req.equipmentId) == Some(item)
            && b.totalPrice == LedgerDays(req.startDate.ms, req.endDate.ms) * item.pricePerDay)
    ensures r.Success? ==>
      && |r.value.store.equipment| == |s.equipment|
      && forall i :: 0 <= i < |s.equipment| ==>
           r.value.store.equipment[i]
             == if s.equipment[i].id == req.equipmentId
                then s.equipment[i].(availabilityStatus := Reserved, updatedAt := itemNow)
                else s.equipment[i]
  {
    if !SignedIn(user) then Failure(NotSignedIn)
    else match Registry.GetEquipmentById(s.equipment, req.equipmentId)
      case None => Failure(EquipmentNotFound)
      case Some(item) =>
        if req.startDate.Invalid? || req.endDate.Invalid? then Failure(InvalidDates)
        else if req.startDate.ms >= req.endDate.ms then Failure(StartNotBeforeEnd)
        else if !IsEquipmentAvailable(s.bookings, req.equipmentId, req.startDate, req.endDate, None) then
          Failure(Unavailable)
        else
          var days := LedgerDays(req.startDate.ms, req.endDate.ms);
          var booking := Booking(newId, req.equipmentId, user.value.id, req.startDate, req.endDate,
                                 Pending, days * item.pricePerDay, PaymentPending,
                                 Some(req.notes.GetOr("")), now, now);
          var equipment := Registry.UpdateEquipment(s.equipment, req.equipmentId,
                                                    Registry.StatusPatch(Reserved), itemNow);
          Success(Created(booking, Store(equipment, s.bookings + [booking])))
  }

  /** Another booking on the item, not `id`, that is still outstanding. */
  predicate OutstandingOther(b: Booking, equipmentId: string, id: string) {
    && b.equipmentId == equipmentId
    && b.id != id
    && (b.status == Active || b.status == Confirmed || b.status == Pending)
  }

  function OutstandingFn(id: string): Booking -> bool {
    (b: Booking) => b.id != id && (b.status == Active || b.status == Confirmed || b.status == Pending)
  }

  function IsActiveFn(): Booking -> bool {
    (b: Booking) => b.status == Active
  }

  /** The availability an item takes when one of its bookings moves to
      `status`: rented while active, reserved while pending or confirmed;
      once completed or cancelled, whatever its other outstanding bookings
      imply. Never maintenance. */
  function DeriveStatus(status: BookingStatus, bs: seq<Booking>, equipmentId: string, id: string)
    : (r: Availability)
    ensures r != Maintenance
    ensures status == Active ==> r == Rented
    ensures status == Pending || status == Confirmed ==> r == Reserved
    ensures status == Completed || status == Cancelled ==>
      && (r == Rented <==> exists b :: b in bs && OutstandingOther(b, equipmentId, id) && b.status == Active)
      && (r == Available <==> forall b :: b in bs ==> !OutstandingOther(b, equipmentId, id))
  {
    match status
    case Active => Rented
    case Pending => Reserved
    case Confirmed => Reserved
    case _ =>
      var onItem := GetBookingsByEquipmentId(bs, equipmentId);
      var outstanding := Filter(OutstandingFn(id), onItem);
      OutstandingExactly(bs, equipmentId, id);
      if |outstanding| > 0 then
        if Any(IsActiveFn(), outstanding) then Rented else Reserved
      else Available
  }

  /** The bookings `DeriveStatus` consults are exactly the outstanding
      others on the item. */
  lemma {:induction false} OutstandingExactly(bs: seq<Booking>, equipmentId: string, id: string)
    ensures var outstanding := Filter(OutstandingFn(id), GetBookingsByEquipmentId(bs, equipmentId));
            forall b :: b in outstanding <==> b in bs && OutstandingOther(b, equipmentId, id)
  {
    var onItem := GetBookingsByEquipmentId(bs, equipmentId);
    var outstanding := Filter(OutstandingFn(id), onItem);
    forall b | b in outstanding
      ensures b in bs && OutstandingOther(b, equipmentId, id)
    {
      var k :| 0 <= k < |outstanding| && outstanding[k] == b;
      assert b in onItem;
      var m :| 0 <= m < |onItem| && onItem[m] == b;
    }
    forall b | b in bs && OutstandingOther(b, equipmentId, id)
      ensures b in outstanding
    {
      var k :| 0 <= k < |bs| && bs[k] == b;
      assert b in onItem;
      var m :| 0 <= m < |onItem| && onItem[m] == b;
    }
  }

  /** Sets the status and update time of every booking with that id. */
  function SetStatus(bs: seq<Booking>, id: string, status: BookingStatus, now: int): (r: seq<Booking>)
    ensures |r| == |bs|
    ensures forall i :: 0 <= i < |bs| && bs[i].id != id ==> r[i] == bs[i]
    ensures forall i :: 0 <= i < |bs| && bs[i].id == id ==>
              r[i].status == status && r[i].updatedAt == now
              && r[i].(status := bs[i].status, updatedAt := bs[i].updatedAt) == bs[i]
  {
    seq(|bs|, i requires 0 <= i < |bs| => if bs[i].id == id then bs[i].(status := status, updatedAt := now) else bs[i])
  }

  /** Fails when no booking has the id; otherwise sets that booking's status
      and re-derives its item's availability from the other bookings. The
      booking and the item are stamped by two clock reads, `now` and
      `itemNow`. */
  function UpdateBookingStatus(s: Store, id: string, status: BookingStatus, now: int, itemNow: int)
    : (r: Result<Store, BookingError>)
    ensures r.Failure? <==> forall i :: 0 <= i < |s.bookings| ==> s.bookings[i].id != id
    ensures r.Failure? ==> r.error == BookingNotFound
    ensures r.Success? ==> r.value.bookings == SetStatus(s.bookings, id, status, now)
    ensures r.Success? ==>
      exists k :: 0 <= k < |s.bookings| && s.bookings[k].id == id
        && (forall j :: 0 <= j < k ==> s.bookings[j].id != id)
        && var equipmentId := s.bookings[k].equipmentId;
           var derived := DeriveStatus(status, s.bookings, equipmentId, id);
           && |r.value.equipment| == |s.equipment|
           && forall i :: 0 <= i < |s.equipment| ==>
                r.value.equipment[i]
                  == if s.equipment[i].id == equipmentId
                     then s.equipment[i].(availabilityStatus := derived, updatedAt := itemNow)
                     else s.equipment[i]
  {
    match BookingIndex(s.bookings, id)
    case None => Failure(BookingNotFound)
    case Some(k) =>
      var equipmentId := s.bookings[k].equipmentId;
      var derived := DeriveStatus(status, s.bookings, equipmentId, id);
      Success(Store(
        Registry.UpdateEquipment(s.equipment, equipmentId, Registry.StatusPatch(derived), itemNow),
        SetStatus(s.bookings, id, status, now)))
  }

  /** How a cancellation leaves the item `after` of the cancelled booking,
      given it as `before`: stamped with `itemNow`, and available when no
      other booking on it is outstanding, rented when one of those is
      active, reserved otherwise; nothing else changes. */
  ghost predicate Released(before: Equipment, after: Equipment, bs: seq<Booking>, equipmentId: string, id: string,
                           itemNow: int)
  {
    && after == before.(availabilityStatus := after.availabilityStatus, updatedAt := itemNow)
    && after.availabilityStatus != Maintenance
    && (after.availabilityStatus == Available <==> forall b :: b in bs ==> !OutstandingOther(b, equipmentId, id))
    && (after.availabilityStatus == Rented <==>
          exists b :: b in bs && OutstandingOther(b, equipmentId, id) && b.status == Active)
  }

  /** The item side of a cancellation: the first matching booking's item is
      `Released`, every other item is unchanged. */
  ghost predicate ReleasesItem(s: Store, id: string, itemNow: int, equipment: seq<Equipment>) {
    exists k :: 0 <= k < |s.bookings| && s.bookings[k].id == id
      && (forall j :: 0 <= j < k ==> s.bookings[j].id != id)
      && |equipment| == |s.equipment|
      && forall i :: 0 <= i < |s.equipment| ==>
           if s.equipment[i].id == s.bookings[k].equipmentId
           then Released(s.equipment[i], equipment[i], s.bookings, s.bookings[k].equipmentId, id, itemNow)
           else equipment[i] == s.equipment[i]
  }

  /** `updateBookingStatus(id, 'cancelled')`: every booking with the id is
      cancelled and stamped, and the first one's item is released. */
  function CancelBooking(s: Store, id: string, now: int, itemNow: int): (r: Result<Store, BookingError>)
    ensures r.Failure? <==> forall i :: 0 <= i < |s.bookings| ==> s.bookings[i].id != id
    ensures r.Failure? ==> r.error == BookingNotFound
    ensures r.Success? ==>
      && |r.value.bookings| == |s.bookings|
      && forall i :: 0 <= i < |s.bookings| ==>
           (s.bookings[i].id == id ==> r.value.bookings[i] == s.bookings[i].(status := Cancelled, updatedAt := now))
           && (s.bookings[i].id != id ==> r.value.bookings[i] == s.bookings[i])
    ensures r.Success? ==> ReleasesItem(s, id, itemNow, r.value.equipment)
  {
    CancelReleases(s, id, now, itemNow);
    UpdateBookingStatus(s, id, Cancelled, now, itemNow)
  }

  /** The status `DeriveStatus` gives on cancellation releases the item. */
  lemma ReleasedByDerive(before: Equipment, bs: seq<Booking>, equipmentId: string, id: string, itemNow: int)
    ensures Released(before, before.(availabilityStatus := DeriveStatus(Cancelled, bs, equipmentId, id),
                                     updatedAt := itemNow), bs, equipmentId, id, itemNow)
  {
  }

  /** Re-deriving an item's status on cancellation releases that item and
      leaves every other item alone. */
  lemma {:induction false} ReleasedAll(eq: seq<Equipment>, bs: seq<Booking>, equipmentId: string, id: string,
                                       itemNow: int)
    ensures var eq1 := Registry.UpdateEquipment(eq, equipmentId,
                                                Registry.StatusPatch(DeriveStatus(Cancelled, bs, equipmentId, id)),
                                                itemNow);
            && |eq1| == |eq|
            && forall i :: 0 <= i < |eq| ==>
                 if eq[i].id == equipmentId then Released(eq[i], eq1[i], bs, equipmentId, id, itemNow)
                 else eq1[i] == eq[i]
  {
    var derived := DeriveStatus(Cancelled, bs, equipmentId, id);
    var eq1 := Registry.UpdateEquipment(eq, equipmentId, Registry.StatusPatch(derived), itemNow);
    forall i | 0 <= i < |eq| && eq[i].id == equipmentId
      ensures Released(eq[i], eq1[i], bs, equipmentId, id, itemNow)
    {
      assert eq1[i] == eq[i].(availabilityStatus := derived, updatedAt := itemNow);
      ReleasedByDerive(eq[i], bs, equipmentId, id, itemNow);
    }
  }

  lemma {:induction false} CancelReleases(s: Store, id: string, now: int, itemNow: int)
    ensures var r := UpdateBookingStatus(s, id, Cancelled, now, itemNow);
            r.Success? ==> ReleasesItem(s, id, itemNow, r.value.equipment)
  {
    match BookingIndex(s.bookings, id)
    case None =>
    case Some(k) =>
      var equipmentId := s.bookings[k].equipmentId;
      var derived := DeriveStatus(Cancelled, s.bookings, equipmentId, id);
      var eq1 := Registry.UpdateEquipment(s.equipment, equipmentId, Registry.StatusPatch(derived), itemNow);
      assert UpdateBookingStatus(s, id, Cancelled, now, itemNow).value.equipment == eq1;
      ReleasedAll(s.equipment, s.bookings, equipmentId, id, itemNow);
      assert forall j :: 0 <= j < k ==> s.bookings[j].id != id;
  }

  /** The derived status depends only on the outstanding other bookings. */
  lemma DeriveAgrees(status: BookingStatus, bs1: seq<Booking>, bs2: seq<Booking>, equipmentId: string, id: string)
    requires forall b :: OutstandingOther(b, equipmentId, id) ==> (b in bs1 <==> b in bs2)
    ensures DeriveStatus(status, bs1, equipmentId, id) == DeriveStatus(status, bs2, equipmentId, id)
  {
  }

  lemma SetStatusTwice(bs: seq<Booking>, id: string, status: BookingStatus, now: int)
    ensures SetStatus(SetStatus(bs, id, status, now), id, status, now) == SetStatus(bs, id, status, now)
  {
  }

  /** Setting the same status twice is the same as setting it once. */
  lemma {:induction false} UpdateBookingStatusIdempotent(s: Store, id: string, status: BookingStatus, now: int,
                                                         itemNow: int)
    requires UpdateBookingStatus(s, id, status, now, itemNow).Success?
    ensures UpdateBookingStatus(UpdateBookingStatus(s, id, status, now, itemNow).value, id, status, now, itemNow)
            == UpdateBookingStatus(s, id, status, now, itemNow)
  {
    var bs := s.bookings;
    var bs1 := SetStatus(bs, id, status, now);
    FindIndexAgree(IdFn(id), bs, IdFn(id), bs1);
    var k := BookingIndex(bs, id).value;
    var equipmentId := bs[k].equipmentId;
    var derived := DeriveStatus(status, bs, equipmentId, id);
    var eq1 := Registry.UpdateEquipment(s.equipment, equipmentId, Registry.StatusPatch(derived), itemNow);
    assert UpdateBookingStatus(s, id, status, now, itemNow) == Success(Store(eq1, bs1));
    assert bs1[k].equipmentId == equipmentId;
    forall b | OutstandingOther(b, equipmentId, id)
      ensures b in bs <==> b in bs1
    {
      if b in bs {
        var i :| 0 <= i < |bs| && bs[i] == b;
        assert bs1[i] == b;
      }
      if b in bs1 {
        var i :| 0 <= i < |bs1| && bs1[i] == b;
        assert bs[i] == b;
      }
    }
    DeriveAgrees(status, bs, bs1, equipmentId, id);
    SetStatusTwice(bs, id, status, now);
    Registry.StatusUpdateTwice(s.equipment, equipmentId, derived, itemNow);
  }

  /** A booking's period is a pair of parsed dates, the start not after the end. */
  predicate WellFormed(b: Booking) {
    b.startDate.Valid? && b.endDate.Valid? && b.startDate.ms <= b.endDate.ms
  }

  /** No item has two live bookings whose periods overlap. */
  predicate NoDoubleBooking(bs: seq<Booking>) {
    forall i, j ::
      (0 <= i < j < |bs| && bs[i].equipmentId == bs[j].equipmentId
       && bs[i].status != Cancelled && bs[j].status != Cancelled) ==>
         !Overlaps(bs[i].startDate, bs[i].endDate, bs[j].startDate, bs[j].endDate)
  }

  predicate Consistent(bs: seq<Booking>) {
    (forall i :: 0 <= i < |bs| ==> WellFormed(bs[i])) && NoDoubleBooking(bs)
  }

  /** Creating a booking never double-books an item. */
  lemma {:induction false} CreateBookingPreservesConsistency(s: Store, user: Option<User>, req: BookingRequest,
                                                             newId: string, now: int, itemNow: int)
    requires Consistent(s.bookings)
    requires CreateBooking(s, user, req, newId, now, itemNow).Success?
    ensures Consistent(CreateBooking(s, user, req, newId, now, itemNow).value.store.bookings)
  {
    var bs := s.bookings;
    var b := CreateBooking(s, user, req, newId, now, itemNow).value.booking;
    var bs2 := bs + [b];
    assert Accepts(s, user, req);
    forall i, j | 0 <= i < j < |bs2| && bs2[i].equipmentId == bs2[j].equipmentId
                  && bs2[i].status != Cancelled && bs2[j].status != Cancelled
      ensures !Overlaps(bs2[i].startDate, bs2[i].endDate, bs2[j].startDate, bs2[j].endDate)
    {
      if j == |bs| {
        assert bs2[i] == bs[i] && bs2[j] == b;
        assert Blocks(bs[i], req.equipmentId, None);
        assert !Overlaps(b.startDate, b.endDate, bs[i].startDate, bs[i].endDate);
        assert WellFormed(bs[i]);
      } else {
        assert bs2[i] == bs[i] && bs2[j] == bs[j];
      }
    }
  }

  /** Changing statuses keeps the ledger consistent as long as no cancelled
      booking is brought back to life. */
  lemma {:induction false} UpdateKeepsConsistency(s: Store, id: string, status: BookingStatus, now: int, itemNow: int)
    requires Consistent(s.bookings)
    requires forall i :: 0 <= i < |s.bookings| && s.bookings[i].id == id ==>
               status == Cancelled || s.bookings[i].status != Cancelled
    requires UpdateBookingStatus(s, id, status, now, itemNow).Success?
    ensures Consistent(UpdateBookingStatus(s, id, status, now, itemNow).value.bookings)
  {
    var bs := s.bookings;
    var bs1 := UpdateBookingStatus(s, id, status, now, itemNow).value.bookings;
    forall i, j | 0 <= i < j < |bs1| && bs1[i].equipmentId == bs1[j].equipmentId
                  && bs1[i].status != Cancelled && bs1[j].status != Cancelled
      ensures !Overlaps(bs1[i].startDate, bs1[i].endDate, bs1[j].startDate, bs1[j].endDate)
    {
      assert bs[i].status != Cancelled && bs[j].status != Cancelled;
    }
    assert forall i :: 0 <= i < |bs1| ==> WellFormed(bs1[i]) by {
      forall i | 0 <= i < |bs1| ensures WellFormed(bs1[i]) {
        assert WellFormed(bs[i]);
      }
    }
  }

  /** Cancelling never double-books an item: it only ever takes bookings
      out of the overlap check. */
  lemma {:induction false} CancelKeepsConsistency(s: Store, id: string, now: int, itemNow: int)
    requires Consistent(s.bookings)
    requires CancelBooking(s, id, now, itemNow).Success?
    ensures Consistent(CancelBooking(s, id, now, itemNow).value.bookings)
  {
    UpdateKeepsConsistency(s, id, Cancelled, now, itemNow);
  }

  /** Reviving a cancelled booking is not checked against the other bookings:
      two identical periods on one item, one cancelled, become a double
      booking when the cancelled one is set back to pending. */
  lemma RevivingCancelledBookingDoubleBooks()
    ensures
      var period := Booking("a", "e1", "c1", Valid(0), Valid(DayMs), Cancelled, 0, PaymentPending, None, 0, 0);
      var s := Store([], [period, period.(id := "b", status := Pending)]);
      && Consistent(s.bookings)
      && UpdateBookingStatus(s, "a", Pending, 1, 1).Success?
      && !Consistent(UpdateBookingStatus(s, "a", Pending, 1, 1).value.bookings)
  {
    var period := Booking("a", "e1", "c1", Valid(0), Valid(DayMs), Cancelled, 0, PaymentPending, None, 0, 0);
    var s := Store([], [period, period.(id := "b", status := Pending)]);
    var bs1 := UpdateBookingStatus(s, "a", Pending, 1, 1).value.bookings;
    assert bs1[0].status == Pending && bs1[1].status == Pending;
    assert Overlaps(bs1[0].startDate, bs1[0].endDate, bs1[1].startDate, bs1[1].endDate);
  }
}
