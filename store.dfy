/**
 * The booking table and the queries the handlers run against it.
 *
 * The ORM table (app/models/booking.py, and the owner-less copy in main.py) is a
 * class holding a map from id to row; the filters the handlers issue
 * (`Booking.filter(...).first()`, `.exists()`, `order_by("-id")`) are functions
 * over that map. Datetimes are whole minutes on one naive clock.
 */
module Store {

  datatype Option<T> = None | Some(value: T)

  /** A naive datetime, in minutes. */
  type Minutes = int

  /** Every booking is taken to last one hour. */
  const OneHour: int := 60

  type UserId = int

  /** One row of the booking table; `owner` is the nullable `user` foreign key. */
  datatype Booking = Booking(technicianName: string, service: string, bookingDatetime: Minutes, owner: Option<UserId>)

  /** The request body of the REST create handlers. */
  datatype BookingIn = BookingIn(technicianName: string, service: string, bookingDatetime: Minutes)

  /** The serialised booking the REST handlers return (no owner). */
  datatype BookingOut = BookingOut(id: int, technicianName: string, service: string, bookingDatetime: Minutes)

  /** A REST handler either returns a value or raises an HTTPException with a status code. */
  datatype HttpResult<T> = Ok(value: T) | HttpError(status: int)

  const StatusNotFound: int := 404
  const StatusBadRequest: int := 400

  type Rows = map<int, Booking>

  function ToOut(id: int, b: Booking): BookingOut
  {
    BookingOut(id, b.technicianName, b.service, b.bookingDatetime)
  }

  /** Python truthiness of an `Optional[str]`: neither None nor the empty string. */
  predicate Present(s: Option<string>)
  {
    s.Some? && s.value != ""
  }

  /** `Booking.filter(id=id, user_id=user).first()` finds a row. */
  predicate IsOwned(rows: Rows, id: int, user: UserId)
  {
    id in rows && rows[id].owner == Some(user)
  }

  /** `Booking.filter(user_id=user)`: the rows owned by `user`, under their ids. */
  function OwnedBy(rows: Rows, user: UserId): (r: Rows)
    ensures forall k :: k in r <==> IsOwned(rows, k, user)
    ensures forall k :: k in r ==> k in rows && r[k] == rows[k]
  {
    map k | k in rows && rows[k].owner == Some(user) :: rows[k]
  }

  /** The chat handlers' conflict window: a start in [dt - 1h, dt + 1h). */
  predicate InWindow(start: Minutes, dt: Minutes)
  {
    dt - OneHour <= start < dt + OneHour
  }

  /** `Booking.filter(technician_name=t, booking_datetime__gte=dt-1h, booking_datetime__lt=dt+1h).exists()` */
  predicate WindowConflict(rows: Rows, technician: string, dt: Minutes)
  {
    exists k :: k in rows && rows[k].technicianName == technician && InWindow(rows[k].bookingDatetime, dt)
  }

  /** `Booking.filter(technician_name=t, booking_datetime=dt).exists()` */
  predicate ExactConflict(rows: Rows, technician: string, dt: Minutes)
  {
    exists k :: k in rows && rows[k].technicianName == technician && rows[k].bookingDatetime == dt
  }

  /** Two one-hour slots of the same technician intersect. */
  predicate Overlap(a: Booking, b: Booking)
  {
    a.technicianName == b.technicianName
    && a.bookingDatetime < b.bookingDatetime + OneHour
    && b.bookingDatetime < a.bookingDatetime + OneHour
  }

  /** The scheduling invariant: no technician holds two intersecting slots. */
  ghost predicate NoDoubleBooking(rows: Rows)
  {
    forall i, j :: i in rows && j in rows && i != j ==> !Overlap(rows[i], rows[j])
  }

  predicate IsMaxOf(m: int, ids: set<int>)
  {
    m in ids && forall j :: j in ids ==> j <= m
  }

  /** A set with no element is the empty set. */
  lemma NoElementIsEmpty(ids: set<int>)
    ensures (forall x :: x !in ids) ==> ids == {}
  {
    if forall x :: x !in ids {
      forall x
        ensures x !in ids
      {
      }
    }
  }

  /** Every non-empty finite set of ids has a largest one. */
  lemma {:induction false} MaxExists(ids: set<int>)
    requires ids != {}
    ensures exists m :: IsMaxOf(m, ids)
  {
    NoElementIsEmpty(ids);
    var x :| x in ids;
    if ids == {x} {
      assert IsMaxOf(x, ids);
    } else {
      var rest := ids - {x};
      NoElementIsEmpty(rest);
      assert exists y :: y in rest by {
        assert forall y :: y in ids && y != x ==> y in rest;
        assert ids != {x};
      }
      MaxExists(rest);
      var m :| IsMaxOf(m, rest);
      var top := if x <= m then m else x;
      forall j | j in ids
        ensures j <= top
      {
        if j != x {
          assert j in rest;
        }
      }
      assert IsMaxOf(top, ids);
    }
  }

  /** `Booking.all().order_by("-id").first()`: the highest id present, if any. */
  function LatestId(rows: Rows): (r: Option<int>)
    ensures r.None? <==> rows == map[]
    ensures r.Some? ==> r.value in rows && forall k :: k in rows ==> k <= r.value
  {
    if rows.Keys == {} then
      assert rows == map[];
      None
    else
      MaxExists(rows.Keys);
      var m :| m in rows.Keys && IsMaxOf(m, rows.Keys);
      Some(m)
  }

  /**
   * The REST create rule of both schedule handlers: refuse with 400 when a row has
   * exactly this technician and datetime, otherwise insert the three fields under
   * `freshId` with the given owner.
   */
  function ScheduleOutcome(rows: Rows, bookingIn: BookingIn, owner: Option<UserId>, freshId: int): (o: (HttpResult<BookingOut>, Rows))
    requires freshId !in rows
    ensures o.0.HttpError? <==> ExactConflict(rows, bookingIn.technicianName, bookingIn.bookingDatetime)
    ensures o.0.HttpError? ==> o.0.status == StatusBadRequest && o.1 == rows
    ensures o.0.Ok? ==>
      && o.1.Keys == rows.Keys + {freshId}
      && o.1[freshId] == Booking(bookingIn.technicianName, bookingIn.service, bookingIn.bookingDatetime, owner)
      && (forall k :: k in rows ==> o.1[k] == rows[k])
      && o.0.value == ToOut(freshId, o.1[freshId])
  {
    if ExactConflict(rows, bookingIn.technicianName, bookingIn.bookingDatetime) then
      (HttpError(StatusBadRequest), rows)
    else
      var b := Booking(bookingIn.technicianName, bookingIn.service, bookingIn.bookingDatetime, owner);
      (Ok(ToOut(freshId, b)), rows[freshId := b])
  }

  /** Exact-match refusal lets a technician be booked twice in one hour. */
  lemma ExactCheckAdmitsOverlap()
    ensures var rows := map[1 := Booking("Franky Flay", "Electrician", 600, None)];
            var o := ScheduleOutcome(rows, BookingIn("Franky Flay", "Electrician", 630), None, 2);
            NoDoubleBooking(rows) && o.0.Ok? && !NoDoubleBooking(o.1)
  {
    var rows := map[1 := Booking("Franky Flay", "Electrician", 600, None)];
    var o := ScheduleOutcome(rows, BookingIn("Franky Flay", "Electrician", 630), None, 2);
    assert !ExactConflict(rows, "Franky Flay", 630);
    assert Overlap(o.1[1], o.1[2]);
  }

  /** Inserting a slot whose technician has nothing in its window keeps the invariant. */
  lemma InsertOutsideWindowKeepsNoDoubleBooking(rows: Rows, freshId: int, b: Booking)
    requires freshId !in rows
    requires NoDoubleBooking(rows)
    requires !WindowConflict(rows, b.technicianName, b.bookingDatetime)
    ensures NoDoubleBooking(rows[freshId := b])
  {
  }

  /**
   * The ORM table. Ids are handed out by an autoincrement counter, so every id
   * present is below `nextId` and a new row never reuses one.
   */
  class BookingTable {
    var rows: Rows
    var nextId: int

    ghost predicate Valid()
      reads this
    {
      1 <= nextId && forall k :: k in rows ==> 1 <= k < nextId
    }

    constructor ()
      ensures Valid() && rows == map[]
    {
      rows := map[];
      nextId := 1;
    }

    /** `Booking.create(...)`: inserts `b` under a fresh, larger-than-all id. */
    method Create(b: Booking) returns (id: int)
      requires Valid()
      modifies this
      ensures Valid()
      ensures id == old(nextId) && id !in old(rows)
      ensures forall k :: k in old(rows) ==> k < id
      ensures rows == old(rows)[id := b]
    {
      id := nextId;
      rows := rows[id := b];
      nextId := nextId + 1;
    }

    /** `booking.delete()` on a fetched row. */
    method Delete(id: int)
      requires Valid() && id in rows
      modifies this
      ensures Valid() && nextId == old(nextId)
      ensures rows == old(rows) - {id}
    {
      rows := rows - {id};
    }

    /** `booking.booking_datetime = dt; booking.save()` on a fetched row. */
    method SetDatetime(id: int, dt: Minutes)
      requires Valid() && id in rows
      modifies this
      ensures Valid() && nextId == old(nextId)
      ensures rows == old(rows)[id := old(rows)[id].(bookingDatetime := dt)]
    {
      rows := rows[id := rows[id].(bookingDatetime := dt)];
    }
  }
}
