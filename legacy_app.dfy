/**
 * The single-file application of backend/main.py: its chat dispatcher, which has
 * no notion of a user, and its REST handlers.
 *
 * That file's own table has no owner column; in this model its rows are stored
 * with owner None. Its agent knows three action types and no edit.
 */
module LegacyApp {
  import opened Store

  datatype ActionType = NewBooking | CancelBooking | GetBookingId

  datatype BookingAction = BookingAction(
    actionType: ActionType,
    bookingId: Option<int>,
    service: Option<string>,
    bookingDatetime: Option<Minutes>,
    technicianName: Option<string>)

  /**
   * The agent's result for one turn. Here a falsy result is not tested for: reading
   * `action.action_type` of nothing raises, and every exception becomes `Error`.
   */
  datatype Extraction = Extracted(action: BookingAction) | NoAction | ExtractionFailed

  /** One variant per string the dispatcher returns, carrying the values it reports. */
  datatype Reply =
    | NoBookingIdProvided
    | Cancelled(id: int)
    | NotFound(id: int)
    | YourBookingId(id: int)
    | NoBookingsFound
    | MissingServiceOrTime
    | InPast(currentDatetime: Minutes)
    | SlotUnavailable(bookingDatetime: Minutes, service: string)
    | Confirmed(bookingDatetime: Minutes, id: int)
    | Error

  datatype Outcome = Outcome(reply: Reply, rows: Rows)

  /** Cancel by id alone: whoever owns it, a booking with that id is removed. */
  function CancelOutcome(rows: Rows, bookingId: Option<int>): (o: Outcome)
    ensures bookingId.None? ==> o == Outcome(NoBookingIdProvided, rows)
    ensures bookingId.Some? ==> (o.reply.Cancelled? <==> bookingId.value in rows)
    ensures o.reply.Cancelled? ==> o.reply.id == bookingId.value && o.rows == rows - {bookingId.value}
    ensures bookingId.Some? && bookingId.value !in rows ==> o == Outcome(NotFound(bookingId.value), rows)
  {
    match bookingId
    case None => Outcome(NoBookingIdProvided, rows)
    case Some(id) =>
      if id in rows then Outcome(Cancelled(id), rows - {id}) else Outcome(NotFound(id), rows)
  }

  /** "Get booking id": the highest id in the table, whatever was asked. */
  function BookingIdReply(rows: Rows): (r: Reply)
    ensures r == NoBookingsFound <==> rows == map[]
    ensures r != NoBookingsFound ==> r.YourBookingId? && r.id in rows && forall k :: k in rows ==> k <= r.id
  {
    match LatestId(rows)
    case None => NoBookingsFound
    case Some(m) => YourBookingId(m)
  }

  /**
   * New booking: missing fields, then a time before now, then a booking of the
   * service's name within the hour window. The row stores the service as its
   * technician; an extracted technician name is ignored.
   */
  function NewBookingOutcome(rows: Rows, service: Option<string>, dt: Option<Minutes>, now: Minutes, freshId: int): (o: Outcome)
    requires freshId !in rows
    ensures !Present(service) || dt.None? ==> o == Outcome(MissingServiceOrTime, rows)
    ensures Present(service) && dt.Some? && dt.value < now ==> o == Outcome(InPast(now), rows)
    ensures Present(service) && dt.Some? && now <= dt.value && WindowConflict(rows, service.value, dt.value) ==>
              o == Outcome(SlotUnavailable(dt.value, service.value), rows)
    ensures o.reply.Confirmed? <==>
              Present(service) && dt.Some? && now <= dt.value && !WindowConflict(rows, service.value, dt.value)
    ensures o.reply.Confirmed? ==>
              && o.reply == Confirmed(dt.value, freshId)
              && o.rows == rows[freshId := Booking(service.value, service.value, dt.value, None)]
    ensures !o.reply.Confirmed? ==> o.rows == rows
  {
    if !Present(service) || dt.None? then
      Outcome(MissingServiceOrTime, rows)
    else if dt.value < now then
      Outcome(InPast(now), rows)
    else if WindowConflict(rows, service.value, dt.value) then
      Outcome(SlotUnavailable(dt.value, service.value), rows)
    else
      Outcome(Confirmed(dt.value, freshId), rows[freshId := Booking(service.value, service.value, dt.value, None)])
  }

  /** One turn of the dispatcher. */
  function Respond(rows: Rows, extraction: Extraction, now: Minutes, freshId: int): (o: Outcome)
    requires freshId !in rows
    ensures !extraction.Extracted? ==> o == Outcome(Error, rows)
    ensures extraction.Extracted? && extraction.action.actionType == GetBookingId ==> o.rows == rows
    ensures o.rows != rows ==> o.reply.Cancelled? || o.reply.Confirmed?
    ensures forall k :: k in o.rows ==> k in rows || k == freshId
  {
    match extraction
    case ExtractionFailed => Outcome(Error, rows)
    case NoAction => Outcome(Error, rows)
    case Extracted(a) =>
      match a.actionType
      case CancelBooking => CancelOutcome(rows, a.bookingId)
      case GetBookingId => Outcome(BookingIdReply(rows), rows)
      case NewBooking => NewBookingOutcome(rows, a.service, a.bookingDatetime, now, freshId)
  }

  /** `process_message`: performs the turn on the table in place. */
  method ProcessMessage(table: BookingTable, extraction: Extraction, now: Minutes) returns (reply: Reply)
    requires table.Valid()
    modifies table
    ensures table.Valid()
    ensures var o := Respond(old(table.rows), extraction, now, old(table.nextId));
            reply == o.reply && table.rows == o.rows
  {
    if !extraction.Extracted? {
      return Error;
    }
    var action := extraction.action;
    match action.actionType {
      case CancelBooking =>
        if action.bookingId.None? {
          return NoBookingIdProvided;
        }
        var id := action.bookingId.value;
        if id in table.rows {
          table.Delete(id);
          reply := Cancelled(id);
        } else {
          reply := NotFound(id);
        }
      case GetBookingId =>
        var latest := LatestId(table.rows);
        if latest.Some? {
          reply := YourBookingId(latest.value);
        } else {
          reply := NoBookingsFound;
        }
      case NewBooking =>
        if !Present(action.service) || action.bookingDatetime.None? {
          return MissingServiceOrTime;
        }
        var service, dt := action.service.value, action.bookingDatetime.value;
        if dt < now {
          return InPast(now);
        }
        if WindowConflict(table.rows, service, dt) {
          return SlotUnavailable(dt, service);
        }
        var id := table.Create(Booking(service, service, dt, None));
        reply := Confirmed(dt, id);
    }
  }

  /** Every turn keeps the table free of double bookings. */
  lemma RespondKeepsNoDoubleBooking(rows: Rows, extraction: Extraction, now: Minutes, freshId: int)
    requires freshId !in rows && NoDoubleBooking(rows)
    ensures NoDoubleBooking(Respond(rows, extraction, now, freshId).rows)
  {
  }

  /**
   * With autoincrement ids (every id below the fresh one) the booking just made is
   * the one "get booking id" reports next.
   */
  lemma NewThenBookingId(rows: Rows, service: Option<string>, dt: Option<Minutes>, now: Minutes, freshId: int)
    requires forall k :: k in rows ==> k < freshId
    requires NewBookingOutcome(rows, service, dt, now, freshId).reply.Confirmed?
    ensures BookingIdReply(NewBookingOutcome(rows, service, dt, now, freshId).rows) == YourBookingId(freshId)
  {
    var rows' := NewBookingOutcome(rows, service, dt, now, freshId).rows;
    assert freshId in rows';
    var r := BookingIdReply(rows');
    assert r.id <= freshId && freshId <= r.id;
  }

  /** `list_bookings`: every row, read only. */
  method ListBookings(table: BookingTable) returns (r: Rows)
    ensures r == table.rows
  {
    r := table.rows;
  }

  /** `get_booking`: by id alone, or 404. */
  method GetBooking(table: BookingTable, bookingId: int) returns (r: HttpResult<BookingOut>)
    ensures r.Ok? <==> bookingId in table.rows
    ensures r.Ok? ==> r.value == ToOut(bookingId, table.rows[bookingId])
    ensures r.HttpError? ==> r.status == StatusNotFound
  {
    if bookingId in table.rows {
      r := Ok(ToOut(bookingId, table.rows[bookingId]));
    } else {
      r := HttpError(StatusNotFound);
    }
  }

  /** `delete_booking`: by id alone, or 404; the reply carries the cancelled id. */
  method DeleteBooking(table: BookingTable, bookingId: int) returns (r: HttpResult<int>)
    requires table.Valid()
    modifies table
    ensures table.Valid()
    ensures r.Ok? <==> bookingId in old(table.rows)
    ensures r.Ok? ==> r.value == bookingId && table.rows == old(table.rows) - {bookingId}
    ensures r.HttpError? ==> r.status == StatusNotFound && table.rows == old(table.rows)
  {
    if bookingId !in table.rows {
      return HttpError(StatusNotFound);
    }
    table.Delete(bookingId);
    r := Ok(bookingId);
  }

  /** `schedule_booking`: refused only on an exact technician-and-datetime match; stores no owner. */
  method ScheduleBooking(table: BookingTable, bookingIn: BookingIn) returns (r: HttpResult<BookingOut>)
    requires table.Valid()
    modifies table
    ensures table.Valid()
    ensures (r, table.rows) == ScheduleOutcome(old(table.rows), bookingIn, None, old(table.nextId))
  {
    if ExactConflict(table.rows, bookingIn.technicianName, bookingIn.bookingDatetime) {
      return HttpError(StatusBadRequest);
    }
    var b := Booking(bookingIn.technicianName, bookingIn.service, bookingIn.bookingDatetime, None);
    var id := table.Create(b);
    r := Ok(ToOut(id, b));
  }
}
