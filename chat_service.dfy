/**
 * The user-scoped chat dispatcher of app/services/chat.py.
 *
 * The extraction agent is outside the model: its result for the turn (an action,
 * nothing, or a failure together with what the general-information agent said) is
 * an input. `Respond` is the decision as a function of the table before the turn;
 * `ProcessMessage` performs it on the table in place and is proved against it.
 */
module ChatService {
  import opened Store

  datatype ActionType = NewBooking | CancelBooking | GetBookingId | EditBooking

  /** The structured action the agent extracts; every field but the type is optional. */
  datatype BookingAction = BookingAction(
    actionType: ActionType,
    bookingId: Option<int>,
    service: Option<string>,
    bookingDatetime: Option<Minutes>,
    technicianName: Option<string>)

  /**
   * What the agents are given. The business hours (minutes after midnight) travel
   * only inside this value; no handler reads them.
   */
  datatype BookingDependencies = BookingDependencies(currentDatetime: Minutes, businessHoursStart: int, businessHoursEnd: int)

  /** The dependencies a turn builds from its clock reading: open 9:00 to 17:00. */
  function Dependencies(now: Minutes): BookingDependencies
  {
    BookingDependencies(now, 9 * 60, 17 * 60)
  }

  /** The extraction agent's result for one turn. */
  datatype Extraction =
    | Extracted(action: BookingAction)
      /** `result.data` was falsy: no action at all. */
    | NoAction
      /** The agent raised; the general agent then answered (Some) or raised too (None). */
    | ExtractionFailed(generalAnswer: Option<string>)

  datatype BookingDetails = BookingDetails(id: int, service: string, technicianName: string, bookingDatetime: Minutes)

  /** One variant per reply the dispatcher can give, carrying the values it reports. */
  datatype ChatResponse =
    | NoBookingIdProvided
    | Cancelled(id: int)
    | NotFoundForUser(id: int)
    | Details(details: BookingDetails)
    | NoBookingFound
    | MissingServiceOrTime
    | InPast(currentDatetime: Minutes)
    | SlotUnavailable(bookingDatetime: Minutes, service: string)
    | Confirmed(details: BookingDetails)
    | MissingIdOrDatetime
    | EditNotFound(id: int)
    | EditInPast
    | Updated(details: BookingDetails)
    | GeneralAnswer(text: string)
    | Error
    | NoResponse

  /** A reply together with the table after the turn. */
  datatype Outcome = Outcome(response: ChatResponse, rows: Rows)

  function DetailsOf(id: int, b: Booking): BookingDetails
  {
    BookingDetails(id, b.service, b.technicianName, b.bookingDatetime)
  }

  /** `bookings_info`: the current user's bookings as given to the agent, by id. */
  function BookingsInfo(rows: Rows, user: UserId): (info: map<int, BookingDetails>)
    ensures forall k :: k in info <==> IsOwned(rows, k, user)
    ensures forall k :: k in info ==> k in rows && info[k] == DetailsOf(k, rows[k])
  {
    map k | k in rows && rows[k].owner == Some(user) :: DetailsOf(k, rows[k])
  }

  /** `action.technician_name or action.service` */
  function ResolvedTechnician(technicianName: Option<string>, service: string): string
  {
    if Present(technicianName) then technicianName.value else service
  }

  /** Cancel: only a booking with this id AND this owner is removed. */
  function CancelOutcome(rows: Rows, bookingId: Option<int>, user: UserId): (o: Outcome)
    ensures bookingId.None? ==> o == Outcome(NoBookingIdProvided, rows)
    ensures bookingId.Some? ==> (o.response.Cancelled? <==> IsOwned(rows, bookingId.value, user))
    ensures o.response.Cancelled? ==> o.response.id == bookingId.value && o.rows == rows - {bookingId.value}
    ensures bookingId.Some? && !IsOwned(rows, bookingId.value, user) ==> o == Outcome(NotFoundForUser(bookingId.value), rows)
  {
    match bookingId
    case None => Outcome(NoBookingIdProvided, rows)
    case Some(id) =>
      if IsOwned(rows, id, user) then Outcome(Cancelled(id), rows - {id})
      else Outcome(NotFoundForUser(id), rows)
  }

  /** Get-booking: details only for a booking with this id AND this owner. */
  function GetResponse(rows: Rows, bookingId: Option<int>, user: UserId): (r: ChatResponse)
    ensures r.Details? <==> bookingId.Some? && IsOwned(rows, bookingId.value, user)
    ensures r.Details? ==> r.details == DetailsOf(bookingId.value, rows[bookingId.value])
    ensures !r.Details? ==> r == NoBookingFound
  {
    if bookingId.Some? && IsOwned(rows, bookingId.value, user) then
      Details(DetailsOf(bookingId.value, rows[bookingId.value]))
    else
      NoBookingFound
  }

  /**
   * New booking: missing fields, then a time before now, then a same-name booking
   * within the hour window; only when all three pass is one row added.
   */
  function NewBookingOutcome(rows: Rows, service: Option<string>, dt: Option<Minutes>, technicianName: Option<string>,
                             now: Minutes, user: UserId, freshId: int): (o: Outcome)
    requires freshId !in rows
    ensures !Present(service) || dt.None? ==> o == Outcome(MissingServiceOrTime, rows)
    ensures Present(service) && dt.Some? && dt.value < now ==> o == Outcome(InPast(now), rows)
    ensures Present(service) && dt.Some? && now <= dt.value && WindowConflict(rows, service.value, dt.value) ==>
              o == Outcome(SlotUnavailable(dt.value, service.value), rows)
    ensures o.response.Confirmed? <==>
              Present(service) && dt.Some? && now <= dt.value && !WindowConflict(rows, service.value, dt.value)
    ensures o.response.Confirmed? ==>
              && o.rows == rows[freshId := Booking(ResolvedTechnician(technicianName, service.value), service.value, dt.value, Some(user))]
              && o.response.details == DetailsOf(freshId, o.rows[freshId])
    ensures !o.response.Confirmed? ==> o.rows == rows
  {
    if !Present(service) || dt.None? then
      Outcome(MissingServiceOrTime, rows)
    else if dt.value < now then
      Outcome(InPast(now), rows)
    else if WindowConflict(rows, service.value, dt.value) then
      Outcome(SlotUnavailable(dt.value, service.value), rows)
    else
      var b := Booking(ResolvedTechnician(technicianName, service.value), service.value, dt.value, Some(user));
      Outcome(Confirmed(DetailsOf(freshId, b)), rows[freshId := b])
  }

  /**
   * Edit: missing id or time, then not found for this user, then a time before
   * now; a successful edit moves only that booking's start.
   */
  function EditOutcome(rows: Rows, bookingId: Option<int>, dt: Option<Minutes>, now: Minutes, user: UserId): (o: Outcome)
    ensures bookingId.None? || dt.None? ==> o == Outcome(MissingIdOrDatetime, rows)
    ensures bookingId.Some? && dt.Some? && !IsOwned(rows, bookingId.value, user) ==>
              o == Outcome(EditNotFound(bookingId.value), rows)
    ensures bookingId.Some? && dt.Some? && IsOwned(rows, bookingId.value, user) && dt.value < now ==>
              o == Outcome(EditInPast, rows)
    ensures o.response.Updated? <==>
              bookingId.Some? && dt.Some? && IsOwned(rows, bookingId.value, user) && now <= dt.value
    ensures o.response.Updated? ==>
              && o.rows == rows[bookingId.value := rows[bookingId.value].(bookingDatetime := dt.value)]
              && o.response.details == DetailsOf(bookingId.value, o.rows[bookingId.value])
    ensures !o.response.Updated? ==> o.rows == rows
  {
    if bookingId.None? || dt.None? then
      Outcome(MissingIdOrDatetime, rows)
    else if !IsOwned(rows, bookingId.value, user) then
      Outcome(EditNotFound(bookingId.value), rows)
    else if dt.value < now then
      Outcome(EditInPast, rows)
    else
      var b := rows[bookingId.value].(bookingDatetime := dt.value);
      Outcome(Updated(DetailsOf(bookingId.value, b)), rows[bookingId.value := b])
  }

  /** One turn of the dispatcher, from the table before it to the reply and the table after. */
  function Respond(rows: Rows, extraction: Extraction, now: Minutes, user: UserId, freshId: int): (o: Outcome)
    requires freshId !in rows
    ensures extraction.ExtractionFailed? ==>
              o == Outcome(if extraction.generalAnswer.Some? then GeneralAnswer(extraction.generalAnswer.value) else Error, rows)
    ensures extraction.NoAction? ==> o == Outcome(NoResponse, rows)
    ensures extraction.Extracted? && extraction.action.actionType == GetBookingId ==> o.rows == rows
    ensures o.rows != rows ==> o.response.Cancelled? || o.response.Confirmed? || o.response.Updated?
    ensures forall k :: k in rows && rows[k].owner != Some(user) ==> k in o.rows && o.rows[k] == rows[k]
    ensures forall k :: k in o.rows ==> k in rows || k == freshId
  {
    match extraction
    case ExtractionFailed(answer) =>
      Outcome(if answer.Some? then GeneralAnswer(answer.value) else Error, rows)
    case NoAction =>
      Outcome(NoResponse, rows)
    case Extracted(a) =>
      match a.actionType
      case CancelBooking => CancelOutcome(rows, a.bookingId, user)
      case GetBookingId => Outcome(GetResponse(rows, a.bookingId, user), rows)
      case NewBooking => NewBookingOutcome(rows, a.service, a.bookingDatetime, a.technicianName, now, user, freshId)
      case EditBooking => EditOutcome(rows, a.bookingId, a.bookingDatetime, now, user)
  }

  /**
   * `process_message`: performs the turn on the table in place. `now` is the turn's
   * clock reading; the dependencies built from it are what the agent runs with, and
   * `extraction` is that run's result.
   */
  method ProcessMessage(table: BookingTable, extraction: Extraction, now: Minutes, currentUser: UserId)
    returns (response: ChatResponse)
    requires table.Valid()
    modifies table
    ensures table.Valid()
    ensures var o := Respond(old(table.rows), extraction, now, currentUser, old(table.nextId));
            response == o.response && table.rows == o.rows
  {
    var deps := Dependencies(now);
    match extraction {
      case ExtractionFailed(answer) =>
        response := if answer.Some? then GeneralAnswer(answer.value) else Error;
      case NoAction =>
        response := NoResponse;
      case Extracted(action) =>
        match action.actionType {
          case CancelBooking =>
            if action.bookingId.None? {
              return NoBookingIdProvided;
            }
            var id := action.bookingId.value;
            if IsOwned(table.rows, id, currentUser) {
              table.Delete(id);
              response := Cancelled(id);
            } else {
              response := NotFoundForUser(id);
            }
          case GetBookingId =>
            var id := action.bookingId;
            if id.Some? && IsOwned(table.rows, id.value, currentUser) {
              response := Details(DetailsOf(id.value, table.rows[id.value]));
            } else {
              response := NoBookingFound;
            }
          case NewBooking =>
            if !Present(action.service) || action.bookingDatetime.None? {
              return MissingServiceOrTime;
            }
            var service, dt := action.service.value, action.bookingDatetime.value;
            if dt < now {
              return InPast(now);
            }
            if WindowConflict(table.rows, service, dt) {
              return SlotUnavailable(dt, service);
            }
            var b := Booking(ResolvedTechnician(action.technicianName, service), service, dt, Some(currentUser));
            var id := table.Create(b);
            response := Confirmed(DetailsOf(id, b));
          case EditBooking =>
            if action.bookingId.None? || action.bookingDatetime.None? {
              return MissingIdOrDatetime;
            }
            var id, dt := action.bookingId.value, action.bookingDatetime.value;
            if !IsOwned(table.rows, id, currentUser) {
              return EditNotFound(id);
            }
            if dt < now {
              return EditInPast;
            }
            table.SetDatetime(id, dt);
            response := Updated(DetailsOf(id, table.rows[id]));
        }
    }
  }

  /** A confirmed booking is then found, with the same details, by its owner. */
  lemma NewThenGet(rows: Rows, action: BookingAction, now: Minutes, user: UserId, freshId: int)
    requires freshId !in rows && action.actionType == NewBooking
    requires Respond(rows, Extracted(action), now, user, freshId).response.Confirmed?
    ensures var o := Respond(rows, Extracted(action), now, user, freshId);
            && o.response.details.id == freshId
            && GetResponse(o.rows, Some(freshId), user) == Details(o.response.details)
  {
  }

  /** A cancelled booking is gone for its owner; cancelling it again reports not found. */
  lemma CancelThenGet(rows: Rows, id: int, user: UserId)
    requires CancelOutcome(rows, Some(id), user).response.Cancelled?
    ensures var o := CancelOutcome(rows, Some(id), user);
            && GetResponse(o.rows, Some(id), user) == NoBookingFound
            && CancelOutcome(o.rows, Some(id), user) == Outcome(NotFoundForUser(id), o.rows)
  {
  }

  /** After an edit the owner sees the new time and the unchanged service and technician. */
  lemma EditThenGet(rows: Rows, id: int, dt: Minutes, now: Minutes, user: UserId)
    requires EditOutcome(rows, Some(id), Some(dt), now, user).response.Updated?
    ensures var o := EditOutcome(rows, Some(id), Some(dt), now, user);
            GetResponse(o.rows, Some(id), user)
              == Details(BookingDetails(id, rows[id].service, rows[id].technicianName, dt))
  {
  }

  /**
   * Without an explicit technician the stored technician is the service name the
   * window was checked against, so a confirmed booking keeps the table free of
   * double bookings.
   */
  lemma NewWithoutTechnicianKeepsNoDoubleBooking(rows: Rows, action: BookingAction, now: Minutes, user: UserId, freshId: int)
    requires freshId !in rows && NoDoubleBooking(rows)
    requires action.actionType == NewBooking && !Present(action.technicianName)
    ensures NoDoubleBooking(Respond(rows, Extracted(action), now, user, freshId).rows)
  {
  }

  /**
   * With an explicit technician the window is still checked against the service
   * name, so the named technician can be booked twice for the same hour.
   */
  lemma NamedTechnicianCanBeDoubleBooked()
    ensures var rows := map[1 := Booking("Bob", "Repair", 600, Some(1))];
            var action := BookingAction(NewBooking, None, Some("Plumbing"), Some(600), Some("Bob"));
            var o := Respond(rows, Extracted(action), 0, 2, 2);
            NoDoubleBooking(rows) && o.response.Confirmed? && !NoDoubleBooking(o.rows)
  {
    var rows := map[1 := Booking("Bob", "Repair", 600, Some(1))];
    assert !WindowConflict(rows, "Plumbing", 600);
    var o := Respond(rows, Extracted(BookingAction(NewBooking, None, Some("Plumbing"), Some(600), Some("Bob"))), 0, 2, 2);
    assert Overlap(o.rows[1], o.rows[2]);
  }

  /** An edit is not checked for conflicts, so it can move a booking onto another's slot. */
  lemma EditCanDoubleBook()
    ensures var rows := map[1 := Booking("Plumbing", "Plumbing", 600, Some(1)), 2 := Booking("Plumbing", "Plumbing", 900, Some(2))];
            var o := EditOutcome(rows, Some(2), Some(600), 0, 2);
            NoDoubleBooking(rows) && o.response.Updated? && !NoDoubleBooking(o.rows)
  {
    var rows := map[1 := Booking("Plumbing", "Plumbing", 600, Some(1)), 2 := Booking("Plumbing", "Plumbing", 900, Some(2))];
    var o := EditOutcome(rows, Some(2), Some(600), 0, 2);
    assert Overlap(o.rows[1], o.rows[2]);
  }

  /**
   * The window `[dt - 1h, dt + 1h)` has a closed lower bound, so it also refuses a
   * slot that starts exactly when an existing one ends, though the two do not
   * intersect; a slot ending exactly when the existing one starts is confirmed.
   */
  lemma WindowRefusesAdjacentLaterSlot()
    ensures var existing := Booking("Plumbing", "Plumbing", 600, Some(1));
            var rows := map[1 := existing];
            && !Overlap(existing, Booking("Plumbing", "Plumbing", 660, Some(2)))
            && NewBookingOutcome(rows, Some("Plumbing"), Some(660), None, 0, 2, 2) == Outcome(SlotUnavailable(660, "Plumbing"), rows)
            && !Overlap(existing, Booking("Plumbing", "Plumbing", 540, Some(2)))
            && NewBookingOutcome(rows, Some("Plumbing"), Some(540), None, 0, 2, 2).response.Confirmed?
  {
    var rows := map[1 := Booking("Plumbing", "Plumbing", 600, Some(1))];
    assert InWindow(rows[1].bookingDatetime, 660);
    assert !WindowConflict(rows, "Plumbing", 540);
  }
}
