# Technician booking: the booking decision logic

This project models the part of the technician booking backend that decides what to do with a booking action. It takes an action that has already been extracted from a chat message (or a REST request body), the current time and the calling user. It produces a structured reply and the new state of the booking table.

That logic exists in three places, and the copies differ:

- **`ChatService`** (`backend/app/services/chat.py`) is the user-scoped chat dispatcher. Cancel, get and edit look a booking up by id *and* owner. A new booking is checked in this order: missing fields, then a time before now, then a one-hour conflict window on `technician_name == service`. If all pass, one row is inserted. An edit overwrites only the booking's datetime.
- **`LegacyApp`** (`backend/main.py`) is the older single-file application. Its chat cancel works by id alone. "Get booking id" reports the highest id. A new booking always stores the service as its technician. Its REST `schedule_booking` refuses only an exact technician-and-datetime match.
- **`BookingsApi`** (`backend/app/api/endpoints/bookings.py`) holds the owner-scoped REST handlers: list mine, list all, get by id (not scoped), delete (scoped) and create (exact-match conflict check).

**`Store`** holds what they share:
- the row (`Booking`, with a nullable owner);
- the REST schemas;
- the filters the handlers issue, as functions over `map<int, Booking>`;
- the scheduling invariant `NoDoubleBooking`;
- the class `BookingTable`, which stands for the ORM table. It holds the rows and an autoincrement counter, so a new id is always larger than every id present.

Datetimes are whole minutes, so one hour is 60. Each chat module has a pure function `Respond` giving the reply and the table after the turn. `ChatService.Respond(rows, extraction, now, user, freshId)` takes the calling user. `LegacyApp.Respond(rows, extraction, now, freshId)` takes none, because `main.py`'s dispatcher has no notion of a caller. Each module's imperative `ProcessMessage` deletes, inserts or updates the `BookingTable` in place and is proved to agree with `Respond`. The REST handlers are methods on the same table.

The language-model agents are not modelled. Their result for the turn is an input:
- `Extracted(action)`: an action came back;
- `NoAction`: a falsy result;
- `ExtractionFailed`: the agent raised. In `ChatService` this variant also carries the general agent's answer, or nothing when that agent raised too.

The clock reading is a parameter `now` of both dispatchers. `ChatService.ProcessMessage` builds the agent's `BookingDependencies` from it, as `chat.py` does. The caller's identity is a parameter too.

The code applies fewer rules than a reader might expect:
- no business-hours check: no handler reads the hours in `BookingDependencies`, and only `main.py`'s prompt text states them (9:00 to 17:00);
- no same-day duplicate check;
- no conflict check on edit;
- `main.py`'s chat cancel and REST delete, and both `get_booking` handlers, look a booking up by id alone, not by owner;
- the REST creates refuse only an exact technician-and-datetime match;
- the chat window is checked against the service name, even when a technician is named;
- the chat window `[dt-60, dt+60)` also refuses a slot that starts exactly when an existing one ends.

The model keeps these gaps and states some of them as lemmas: `ChatService.EditCanDoubleBook`, `Store.ExactCheckAdmitsOverlap`, `ChatService.NamedTechnicianCanBeDoubleBooked` and `ChatService.WindowRefusesAdjacentLaterSlot`.

## Model

| member | source | states |
|---|---|---|
| `Store.OwnedBy` | backend/app/api/endpoints/bookings.py:15 | The result holds exactly the rows whose owner is the given user, each under its own id with its own value. |
| `Store.LatestId` | backend/main.py:268 | `order_by("-id").first()`. The result is None exactly when the table is empty. Otherwise it is an id in the table, and no id in the table is larger. |
| `Store.MaxExists` | backend/main.py:268 | Every non-empty finite set of ids has a largest element. Proved by induction; `LatestId` rests on it. |
| `Store.ScheduleOutcome` | backend/main.py:145-160 | The exact-match create rule of both REST handlers. A 400 comes back exactly when some row, whoever owns it, has this technician at exactly this datetime, and then the table is unchanged. Otherwise the table gains exactly the fresh id, holding the three given fields and the given owner. Every other row is unchanged, and the reply echoes the new row. |
| `Store.ExactCheckAdmitsOverlap` | backend/main.py:145-148 | The exact-match check accepts a second booking of the same technician 30 minutes into an existing one, which breaks the no-double-booking invariant. |
| `Store.InsertOutsideWindowKeepsNoDoubleBooking` | backend/main.py:282-289 | Suppose the table has no double booking, and the new row's technician has no row starting in `[dt-60, dt+60)`. Then inserting the row keeps the table free of double bookings. |
| `Store.BookingTable.Create` | backend/app/models/booking.py:4-8 | `Booking.create`. It inserts the row under the counter's value. That id was not present and is larger than every id present, and nothing else changes. |
| `Store.BookingTable.Delete` | backend/app/services/chat.py:139 | `booking.delete()`. Exactly that id is removed. |
| `Store.BookingTable.SetDatetime` | backend/app/services/chat.py:202-203 | `booking.booking_datetime = dt; save()`. Only that row's datetime changes. |
| `ChatService.BookingsInfo` | backend/app/services/chat.py:112-121 | The context handed to the agent. Its ids are exactly the current user's bookings, and each carries that booking's service, technician and datetime. |
| `ChatService.CancelOutcome` | backend/app/services/chat.py:134-142 | With no id the reply is "no booking ID" and the table is unchanged. With an id, the booking is cancelled exactly when a row has that id and is owned by the current user. Then exactly that row is removed. Otherwise the reply is "not found for the current user" with the id, and the table is unchanged, even when another user owns that id. |
| `ChatService.GetResponse` | backend/app/services/chat.py:144-156 | Details come back exactly when the id is given and that row is owned by the current user. They are that row's id, service, technician and datetime. Otherwise the reply is "No booking found". |
| `ChatService.NewBookingOutcome` | backend/app/services/chat.py:158-192 | The checks are ordered. A missing or empty service, or a missing datetime, is rejected whatever the time and the table. Otherwise a datetime strictly before now is rejected, and a datetime equal to now passes. Otherwise the request is rejected exactly when some row, whoever owns it, has `technician_name == service` and a start in `[dt-60, dt+60)`. A rejection leaves the table unchanged. The booking is confirmed exactly when all three checks pass. The table then gains one row under the fresh id, with the explicit technician (else the service), the service, the datetime and the current user as owner. The reply echoes that row. |
| `ChatService.EditOutcome` | backend/app/services/chat.py:194-213 | The checks are ordered: a missing id or datetime, then not found or not owned, then a time before now. Each rejection leaves the table unchanged. The edit succeeds exactly when all three pass. Then only that row's datetime changes: no other field, no other row, and no overlap check. The reply echoes the updated row. |
| `ChatService.Respond` | backend/app/services/chat.py:128-222 | An extraction failure gives the general agent's answer, or `Error` when that agent failed too. A falsy action gives `NoResponse`. Neither changes the table, and neither does get-booking. The table changes only on a confirmed, cancelled or updated booking. No row owned by anyone else (or by no one) is removed or altered. The only id that can appear is the fresh one. |
| `ChatService.ProcessMessage` | backend/app/services/chat.py:106-225 | Doing the turn on the table in place gives exactly the reply and the table that `Respond` gives for the table before the turn, with the counter's value as the fresh id. The table stays valid. |
| `ChatService.NewThenGet` | backend/app/services/chat.py:176-192 | A confirmed booking carries the fresh id. Its owner's get-booking then returns exactly the confirmed details. |
| `ChatService.CancelThenGet` | backend/app/services/chat.py:137-142 | After a cancel, its owner's get-booking reports "No booking found". A second cancel reports "not found for the current user" and changes nothing. |
| `ChatService.EditThenGet` | backend/app/services/chat.py:202-213 | After an edit, its owner's get-booking shows the new datetime with the old service and technician. |
| `ChatService.NewWithoutTechnicianKeepsNoDoubleBooking` | backend/app/services/chat.py:164-181 | When no technician name is given, the stored technician is the name the window was checked against. So a new booking keeps a table without double bookings that way. |
| `ChatService.NamedTechnicianCanBeDoubleBooked` | backend/app/services/chat.py:164-181 | When a technician name is given, the window is still checked against the service name. So "Bob" can be booked twice for the same hour. |
| `ChatService.WindowRefusesAdjacentLaterSlot` | backend/app/services/chat.py:164-171 | The window's closed lower bound also refuses a slot that starts exactly when an existing one ends. With a booking at 10:00 for one hour, a new booking at 11:00 is refused, though the two do not overlap. A booking at 9:00, which ends as the other starts, is confirmed. |
| `ChatService.EditCanDoubleBook` | backend/app/services/chat.py:194-203 | An edit is not conflict-checked. It can move a booking onto another booking's slot. |
| `LegacyApp.CancelOutcome` | backend/main.py:257-265 | With no id the reply is "no booking ID". With an id, the booking is cancelled exactly when that id is in the table, whatever its owner. Then exactly that row is removed. Otherwise the reply is "not found" and the table is unchanged. |
| `LegacyApp.BookingIdReply` | backend/main.py:267-272 | The reply is "No bookings found" exactly when the table is empty. Otherwise it reports an id in the table that no id in the table exceeds. |
| `LegacyApp.NewBookingOutcome` | backend/main.py:274-301 | The same three ordered checks as the user-scoped dispatcher, on the window `[dt-60, dt+60)` and `technician_name == service`. Each rejection leaves the table unchanged. A confirmed booking reports its datetime and the fresh id. It adds exactly one row, storing the service as both technician and service, with no owner, and ignores any extracted technician. |
| `LegacyApp.Respond` | backend/main.py:247-304 | A falsy action and an agent failure both give `Error` and leave the table unchanged. Get-booking-id never changes the table. The table changes only on a cancel or a confirmed booking, and the only id that can appear is the fresh one. |
| `LegacyApp.ProcessMessage` | backend/main.py:243-304 | Doing the turn on the table in place gives exactly the reply and table that `Respond` gives. The table stays valid. |
| `LegacyApp.RespondKeepsNoDoubleBooking` | backend/main.py:281-299 | Every turn of this dispatcher keeps a table free of double bookings. |
| `LegacyApp.NewThenBookingId` | backend/main.py:267-301 | With autoincrement ids, right after a confirmed booking, "get booking id" reports that booking's id. |
| `LegacyApp.ListBookings` | backend/main.py:116-119 | Returns every row and changes nothing. |
| `LegacyApp.GetBooking` | backend/main.py:121-127 | Succeeds exactly when the id is present, returning that row. Otherwise the status is 404. It changes nothing. |
| `LegacyApp.DeleteBooking` | backend/main.py:129-136 | Succeeds exactly when the id is present, whatever its owner. Then it removes that row and nothing else. Otherwise it returns 404 with the table unchanged. |
| `LegacyApp.ScheduleBooking` | backend/main.py:138-160 | Gives exactly the reply and table of `ScheduleOutcome` with no owner and the counter's value as the new id. |
| `BookingsApi.MyBookings` | backend/app/api/endpoints/bookings.py:10-17 | Returns exactly the rows owned by the current user, with their values. It changes nothing. |
| `BookingsApi.ListBookings` | backend/app/api/endpoints/bookings.py:25-28 | Returns every row and changes nothing. |
| `BookingsApi.GetBooking` | backend/app/api/endpoints/bookings.py:30-36 | Looks up by id alone, whoever owns the row. It returns that row, or 404 when the id is absent. It changes nothing. |
| `BookingsApi.DeleteBooking` | backend/app/api/endpoints/bookings.py:38-45 | Succeeds exactly when the id is present and owned by the current user. Then exactly that row is removed. Otherwise the status is 404 and the table is unchanged. |
| `BookingsApi.ScheduleBooking` | backend/app/api/endpoints/bookings.py:47-66 | Gives exactly the reply and table of `ScheduleOutcome`, owned by the current user. So there is a 400 with the table unchanged on an exact technician-and-datetime match from any user. Otherwise one row is added with the given fields. |
| `BookingsApi.ScheduleThenGet` | backend/app/api/endpoints/bookings.py:30-66 | Calls `schedule_booking` and then `get_booking` on the same table. After a create, the record returned carries the counter's value as its id and the three given fields, and `get_booking` on that id returns exactly that record. After a refused create the table is unchanged. |

## Left out

- The language-model agents (`chat_agent`, `general_info_agent`, their prompts and `run` calls) are foreign calls. Their result for a turn is an input of the model. For the same reason, the context strings and the `bookings_info` list are built (`ChatService.BookingsInfo`) but never read by the decision.
- Business hours: `BookingDependencies` carries them, but no code checks them, so the model checks none. There is no same-day duplicate check either.
- Exceptions are left out beyond one `Error` reply. This covers the outer catch-all of both dispatchers and the extraction-failure fallback. Database errors inside a handler, and the 500 path of `my_bookings`, are not modelled.
- Message wording and `strftime` formatting are left out. The replies carry the ids, times and fields they report. The `message_type` strings ("text", "booking_details", "markdown", "error") follow from the variant and are not modelled separately.
- The order of listed rows is not modelled: lists are returned as maps from id to row.
- `main.py` keeps its own table without an owner column. The model uses one table type for all three handlers and stores `main.py`'s rows with owner None.
- Get-booking in `chat.py` with no id filters on `id=None`. The model treats that as matching no row.
- Concurrency is not modelled. Concurrent requests can interleave between the conflict check and the insert, and a sequential model cannot express that race. Each method runs against a table nobody else changes during the call.
- FastAPI routing, CORS, HTTPException wiring, Tortoise configuration and registration, `init_db` seeding, the console loops, authentication and token handling (`app.core.security` is not part of this model), configuration and logging are all left out.
- ChatService.ProcessMessage and LegacyApp.ProcessMessage: these take the clock reading as a parameter, where the source calls `datetime.now()` itself.
- ChatService.NewBookingOutcome, LegacyApp.NewBookingOutcome and Store.ScheduleOutcome do not model the 100-character limit of `technician_name` and `service` (`CharField(max_length=100)` in `app/models/booking.py` and `main.py`). With a longer service or technician, `Booking.create` raises. In `chat.py` the reply is then the general agent's answer, in `main.py`'s chat it is `Error`, and the REST creates return a 500. In each case no row is added. The model instead confirms the booking and inserts the row, because strings are unbounded here.
- ChatService.CancelOutcome, ChatService.GetResponse, ChatService.EditOutcome, LegacyApp.CancelOutcome and the REST get and delete handlers do not model SQLite's 64-bit INTEGER range. An id outside it makes the driver raise, which in the chat dispatchers becomes the failure reply and in REST a 500. The model answers "not found" or 404 instead, because ids are unbounded integers here.
- ChatService.NewBookingOutcome, ChatService.EditOutcome and LegacyApp.NewBookingOutcome do not model two error paths of Python's `datetime`, because `Minutes` is an unbounded, zone-free integer.
  - Overflow: for a `booking_datetime` within one hour of `datetime.max`, adding `timedelta(hours=1)` in the conflict query raises `OverflowError`. In `chat.py` the reply is then the general agent's answer, and in `main.py` it is `Error`. No row is added, where the model confirms the booking.
  - Time zones: an agent value with an offset (`Z`, `+02:00`) parses to an aware datetime. Comparing it with the naive `datetime.now()` in the "in the past" check raises `TypeError`, giving the general answer or `Error` with the table unchanged. `Minutes` cannot express such a value.
- ChatService.NewBookingOutcome, ChatService.EditOutcome and LegacyApp.NewBookingOutcome compare whole minutes. `datetime.now()` has sub-minute precision, so a requested time in the current minute, but earlier than the clock's seconds, is "in the past" in the source and accepted here.
