/**
 * The owner-scoped REST handlers of app/api/endpoints/bookings.py. The caller's
 * identity (resolved from its token outside this model) is a parameter.
 */
module BookingsApi {
  import opened Store

  /** `my_bookings`: exactly the rows the current user owns, read only. */
  method MyBookings(table: BookingTable, currentUser: UserId) returns (r: Rows)
    ensures forall k :: k in r <==> k in table.rows && table.rows[k].owner == Some(currentUser)
    ensures forall k :: k in r ==> r[k] == table.rows[k]
  {
    r := OwnedBy(table.rows, currentUser);
  }

  /** `list_bookings`: every row, whoever owns it, read only. */
  method ListBookings(table: BookingTable) returns (r: Rows)
    ensures r == table.rows
  {
    r := table.rows;
  }

  /** `get_booking`: by id alone, whoever owns it, or 404. */
  method GetBooking(table: BookingTable, bookingId: int) returns (r: HttpResult<BookingOut>)
    ensures r.Ok? <==> bookingId in table.rows
    ensures r.Ok? ==> r.value == ToOut(bookingId, table.rows[bookingId])
    ensures r.HttpError? ==> r.status == StatusNotFound
  {
    if bookingId in table.rows {
      r := Ok(ToOut(bookingId, table.rows[bookingId]));
    } else {
      r := HttpError(StatusNotFound);
    }
  }

  /** `delete_booking`: removes the row only when id and owner both match, else 404. */
  method DeleteBooking(table: BookingTable, bookingId: int, currentUser: UserId) returns (r: HttpResult<int>)
    requires table.Valid()
    modifies table
    ensures table.Valid()
    ensures r.Ok? <==> IsOwned(old(table.rows), bookingId, currentUser)
    ensures r.Ok? ==> r.value == bookingId && table.rows == old(table.rows) - {bookingId}
    ensures r.HttpError? ==> r.status == StatusNotFound && table.rows == old(table.rows)
  {
    if !IsOwned(table.rows, bookingId, currentUser) {
      return HttpError(StatusNotFound);
    }
    table.Delete(bookingId);
    r := Ok(bookingId);
  }

  /**
   * `schedule_booking`: refused with 400 when any row, whoever owns it, has this
   * technician at exactly this datetime; otherwise one row owned by the caller.
   */
  method ScheduleBooking(table: BookingTable, bookingIn: BookingIn, currentUser: UserId) returns (r: HttpResult<BookingOut>)
    requires table.Valid()
    modifies table
    ensures table.Valid()
    ensures (r, table.rows) == ScheduleOutcome(old(table.rows), bookingIn, Some(currentUser), old(table.nextId))
  {
    if ExactConflict(table.rows, bookingIn.technicianName, bookingIn.bookingDatetime) {
      return HttpError(StatusBadRequest);
    }
    var b := Booking(bookingIn.technicianName, bookingIn.service, bookingIn.bookingDatetime, Some(currentUser));
    var id := table.Create(b);
    r := Ok(ToOut(id, b));
  }

  /**
   * A booking created through `schedule_booking` is then returned, field for field,
   * by `get_booking` on the id it was given; a refused create leaves the table as it was.
   */
  method ScheduleThenGet(table: BookingTable, bookingIn: BookingIn, currentUser: UserId)
    returns (created: HttpResult<BookingOut>, fetched: HttpResult<BookingOut>)
    requires table.Valid()
    modifies table
    ensures table.Valid()
    ensures created.Ok? ==>
              && created.value == BookingOut(old(table.nextId), bookingIn.technicianName, bookingIn.service, bookingIn.bookingDatetime)
              && fetched == Ok(created.value)
    ensures created.HttpError? ==> fetched == created && table.rows == old(table.rows)
  {
    created := ScheduleBooking(table, bookingIn, currentUser);
    if created.Ok? {
      fetched := GetBooking(table, created.value.id);
    } else {
      fetched := created;
    }
  }
}
