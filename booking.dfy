/** The table booking endpoints: create a booking, a user's bookings, all bookings. */
module Booking {
  import opened Wrappers
  import opened Text
  import opened Sorting
  import opened Eav

  /** The request body of `POST /booking`; a missing comment is "". */
  datatype BookingIn = BookingIn(userId: int, datetime: string, tableId: int, guests: int, comment: Option<string>)

  /** The six rows of a booking; `now` is the server's clock in ISO form. */
  function BookingFields(b: BookingIn, now: string): seq<(string, string)> {
    [ ("user_id", IntToStr(b.userId)), ("datetime", b.datetime), ("table_id", IntToStr(b.tableId)),
      ("guests", IntToStr(b.guests)), ("comment", b.comment.GetOr("")), ("created_at", now) ]
  }

  /** The six names differ in their first letter, or, for comment and created_at, in their second. */
  lemma BookingFieldsDistinct(b: BookingIn, now: string)
    ensures DistinctNames(BookingFields(b, now))
  {
    var f := BookingFields(b, now);
    assert f[0].0[0] == 'u' && f[1].0[0] == 'd' && f[2].0[0] == 't' && f[3].0[0] == 'g';
    assert f[4].0[0] == 'c' && f[4].0[1] == 'o' && f[5].0[0] == 'c' && f[5].0[1] == 'r';
  }

  /** Some row of the table gives its `seats`. */
  predicate HasSeatsRow(rows: seq<Row>, tableId: int) {
    exists x :: x in rows && x.ent == "table" && x.attr == "seats" && x.inst == tableId
  }

  /**
    The capacity check of `POST /booking`: 404 when the table has no seats
    row, 500 when the first one does not read as an integer, 400 when the
    guests do not fit; otherwise the seats. A party exactly the size of the
    table fits.
  */
  function SeatsCheck(rows: seq<Row>, tableId: int, guests: int): (r: Result<int>)
    ensures r == Err(NotFound) <==> !HasSeatsRow(rows, tableId)
    ensures r.Ok? <==> HasSeatsRow(rows, tableId) && exists seats ::
              StrToInt(FirstValue(rows, "table", "seats", tableId).value) == Some(seats) && guests <= seats
    ensures r.Ok? ==> guests <= r.value && StrToInt(FirstValue(rows, "table", "seats", tableId).value) == Some(r.value)
    ensures r == Err(BadRequest) ==> exists seats ::
              StrToInt(FirstValue(rows, "table", "seats", tableId).value) == Some(seats) && seats < guests
  {
    var w := AttrIn("table", "seats", {tableId});
    var first := FirstRow(rows, w);
    if first.None? then
      assert !HasSeatsRow(rows, tableId) by {
        forall x | x in rows ensures !(x.ent == "table" && x.attr == "seats" && x.inst == tableId) {
          var i :| 0 <= i < |rows| && rows[i] == x;
          assert !Matches(rows[i], w);
        }
      }
      Err(NotFound)
    else
      assert HasSeatsRow(rows, tableId) by {
        var i :| 0 <= i < |rows| && rows[i] == first.value && Matches(rows[i], w);
        assert rows[i] in rows;
      }
      match StrToInt(first.value.value)
      case None => Err(ServerError)
      case Some(seats) => if guests > seats then Err(BadRequest) else Ok(seats)
  }

  /**
    `POST /booking`: the capacity check; on failure its status with the
    store unchanged, otherwise the six rows under the next booking id,
    which is returned.
  */
  method CreateBooking(db: Store, b: BookingIn, now: string) returns (r: Result<int>)
    requires db.Valid()
    modifies db
    ensures db.Valid() && db.sysEnt == old(db.sysEnt)
    ensures SeatsCheck(old(db.rows), b.tableId, b.guests).Err? ==>
              && r == Err(SeatsCheck(old(db.rows), b.tableId, b.guests).status)
              && db.rows == old(db.rows) && db.nextValId == old(db.nextValId)
    ensures SeatsCheck(old(db.rows), b.tableId, b.guests).Ok? ==>
              && r == Ok(NextId(old(db.rows), "booking"))
              && db.rows == old(db.rows) + Stamp(old(db.nextValId), "booking", r.value, BookingFields(b, now))
              && db.nextValId == old(db.nextValId) + |BookingFields(b, now)|
  {
    var row := FirstValue(db.rows, "table", "seats", b.tableId);
    if row.None? {
      return Err(NotFound);
    }
    var seats := StrToInt(row.value);
    if seats.None? {
      return Err(ServerError);
    }
    if b.guests > seats.value {
      return Err(BadRequest);
    }
    var bookingId := NextId(db.rows, "booking");
    db.InsertMany("booking", bookingId, BookingFields(b, now));
    r := Ok(bookingId);
  }

  /** Rows of other types leave the capacity check as it was. */
  lemma SeatsCheckIgnoresOthers(rows: seq<Row>, added: seq<Row>, tableId: int, guests: int)
    requires forall x :: x in added ==> x.ent != "table"
    ensures SeatsCheck(rows + added, tableId, guests) == SeatsCheck(rows, tableId, guests)
  {
    var w := AttrIn("table", "seats", {tableId});
    FirstRowAppend(rows, added, w);
    NoRowMatches(added, w);
  }

  /**
    Nothing checks the time or the other bookings of the table: once a
    booking is accepted, the same booking again is accepted too.
  */
  lemma BookingAgainAccepted(rows: seq<Row>, start: nat, b: BookingIn, now: string)
    requires SeatsCheck(rows, b.tableId, b.guests).Ok?
    ensures var after := rows + Stamp(start, "booking", NextId(rows, "booking"), BookingFields(b, now));
      SeatsCheck(after, b.tableId, b.guests).Ok?
  {
    var s := Stamp(start, "booking", NextId(rows, "booking"), BookingFields(b, now));
    StampAllOf(start, "booking", NextId(rows, "booking"), BookingFields(b, now));
    SeatsCheckIgnoresOthers(rows, s, b.tableId, b.guests);
  }

  // ---------------------------------------------------------------------
  // The booking records
  // ---------------------------------------------------------------------

  /** The table of a booking record. */
  datatype TableRef = TableRef(id: int, number: int, seats: int, location: string)

  /**
    The table's dict of rows: number and seats default to 0 and must read as
    integers (500 otherwise), the location defaults to "".
  */
  function TableRefOf(rows: seq<Row>, tableId: int): (r: Result<TableRef>)
    ensures r.Err? ==> r.status == ServerError
    ensures var attrs := DictPivot(EntityRows(rows, "table", tableId));
      r.Ok? <==> IntOr(attrs, "number").Some? && IntOr(attrs, "seats").Some?
    ensures r.Ok? ==> r.value.id == tableId
    ensures (forall x :: x in rows ==> x.ent != "table" || x.inst != tableId) ==> r == Ok(TableRef(tableId, 0, 0, ""))
  {
    var attrs := DictPivot(EntityRows(rows, "table", tableId));
    var number := IntOr(attrs, "number");
    var seats := IntOr(attrs, "seats");
    if number.None? || seats.None? then Err(ServerError)
    else Ok(TableRef(tableId, number.value, seats.value, Lookup(attrs, "location").GetOr("")))
  }

  /** One booking as both lists show it (the full list adds the user id). */
  datatype BookingView = BookingView(bookingId: int, datetime: Option<string>, guests: int, table: TableRef,
                                     comment: string, createdAt: Option<string>)

  /**
    The record of one booking from its dict of rows: the table id and the
    guests default to 0 and must read as integers, the comment defaults to
    "", the datetime and the creation time are null when missing; the table
    is looked up by the table id read.
  */
  function BookingViewOf(rows: seq<Row>, bookingId: int): (r: Result<BookingView>)
    ensures r.Err? ==> r.status == ServerError
    ensures var attrs := DictPivot(EntityRows(rows, "booking", bookingId));
      r.Ok? <==> IntOr(attrs, "table_id").Some? && IntOr(attrs, "guests").Some?
                 && TableRefOf(rows, IntOr(attrs, "table_id").value).Ok?
    ensures r.Ok? ==> r.value.bookingId == bookingId
  {
    var attrs := DictPivot(EntityRows(rows, "booking", bookingId));
    var tableId := IntOr(attrs, "table_id");
    if tableId.None? then Err(ServerError)
    else
      var table := TableRefOf(rows, tableId.value);
      var guests := IntOr(attrs, "guests");
      if table.Err? || guests.None? then Err(ServerError)
      else Ok(BookingView(bookingId, Lookup(attrs, "datetime"), guests.value, table.value,
                          Lookup(attrs, "comment").GetOr(""), Lookup(attrs, "created_at")))
  }

  // ---------------------------------------------------------------------
  // GET /booking/{user_id}
  // ---------------------------------------------------------------------

  /**
    The ids the first query returns: the instance of every booking row whose
    `user_id` holds str(userId), in table order (one per such row).
  */
  function UserBookingIds(rows: seq<Row>, userId: int): (ids: seq<int>)
    ensures forall id :: id in ids <==>
      exists x :: x in rows && x.ent == "booking" && x.attr == "user_id" && x.value == IntToStr(userId) && x.inst == id
  {
    var rs := Select(rows, WithValue("booking", "user_id", IntToStr(userId)));
    InstListMembers(rs);
    InstList(rs)
  }

  /** The record of each of some bookings, in their order. */
  function BookingViews(rows: seq<Row>, ids: seq<int>): (rs: seq<Result<BookingView>>)
    ensures |rs| == |ids|
    ensures forall i :: 0 <= i < |ids| ==> rs[i] == BookingViewOf(rows, ids[i])
  {
    seq(|ids|, i requires 0 <= i < |ids| => BookingViewOf(rows, ids[i]))
  }

  /**
    What `GET /booking/{user_id}` answers: `[]` when no booking names the
    user; otherwise one record per id found, in that order, or 500 at the
    first record that fails.
  */
  function GetUserBookingsSpec(rows: seq<Row>, userId: int): (r: Result<seq<BookingView>>)
    ensures r.Err? ==> r.status == ServerError
    ensures (forall x :: x in rows ==> !(x.ent == "booking" && x.attr == "user_id" && x.value == IntToStr(userId))) ==> r == Ok([])
  {
    var ids := UserBookingIds(rows, userId);
    if ids == [] then Ok([])
    else
      assert ids[0] in ids;
      Collect(BookingViews(rows, ids))
  }

  /** A successful answer holds one record per id found, in the order of the ids. */
  lemma UserBookingsListed(rows: seq<Row>, userId: int)
    requires GetUserBookingsSpec(rows, userId).Ok?
    ensures var all := GetUserBookingsSpec(rows, userId).value;
      var ids := UserBookingIds(rows, userId);
      && |all| == |ids|
      && forall i :: 0 <= i < |ids| ==> all[i].bookingId == ids[i] && BookingViewOf(rows, ids[i]) == Ok(all[i])
  {
    var ids := UserBookingIds(rows, userId);
    if ids != [] {
      var all := GetUserBookingsSpec(rows, userId).value;
      var rs := BookingViews(rows, ids);
      forall i | 0 <= i < |ids| ensures all[i].bookingId == ids[i] && BookingViewOf(rows, ids[i]) == Ok(all[i]) {
        assert rs[i] == Ok(all[i]);
      }
    }
  }

  /** The loop over the booking ids; the first record that fails ends the call with 500. */
  method GetUserBookings(db: Store, userId: int) returns (r: Result<seq<BookingView>>)
    ensures r == GetUserBookingsSpec(db.rows, userId)
  {
    var rows := db.rows;
    var bookingIds := UserBookingIds(rows, userId);
    if bookingIds == [] {
      return Ok([]);
    }
    ghost var steps := BookingViews(rows, bookingIds);
    var result: seq<BookingView> := [];
    var k := 0;
    while k < |bookingIds|
      invariant 0 <= k <= |bookingIds|
      invariant Collect(steps[..k]) == Ok(result)
    {
      var view := BookingViewOf(rows, bookingIds[k]);
      if view.Err? {
        CollectErr(steps, k, result, view.status);
        return Err(view.status);
      }
      CollectOk(steps, k, result, view.value);
      result := result + [view.value];
      k := k + 1;
    }
    assert steps[..k] == steps;
    r := Ok(result);
  }

  // ---------------------------------------------------------------------
  // GET /booking
  // ---------------------------------------------------------------------

  /** One entry of the full list: the booking's record and its user id (0 when missing). */
  datatype BookingEntry = BookingEntry(userId: int, view: BookingView)

  /**
    `SELECT DISTINCT ent_instance_id ... WHERE ent_name = 'booking'`: every
    booking id once, in the order of first appearance.
  */
  function AllBookingIds(rows: seq<Row>): (ids: seq<int>)
    ensures NoDuplicates(ids)
    ensures forall id :: id in ids <==> id in InstanceIds(rows, "booking")
  {
    DistinctIds(Select(rows, OfType("booking")))
  }

  /** The record of a booking with its user id, which must read as an integer (500 otherwise). */
  function BookingEntryOf(rows: seq<Row>, bookingId: int): (r: Result<BookingEntry>)
    ensures r.Err? ==> r.status == ServerError
    ensures r.Ok? <==> IntOr(DictPivot(EntityRows(rows, "booking", bookingId)), "user_id").Some?
                       && BookingViewOf(rows, bookingId).Ok?
    ensures r.Ok? ==> r.value.view == BookingViewOf(rows, bookingId).value
  {
    var userId := IntOr(DictPivot(EntityRows(rows, "booking", bookingId)), "user_id");
    var view := BookingViewOf(rows, bookingId);
    if userId.None? || view.Err? then Err(ServerError)
    else Ok(BookingEntry(userId.value, view.value))
  }

  /** The entry of each of some bookings, in their order. */
  function BookingEntries(rows: seq<Row>, ids: seq<int>): (rs: seq<Result<BookingEntry>>)
    ensures |rs| == |ids|
    ensures forall i :: 0 <= i < |ids| ==> rs[i] == BookingEntryOf(rows, ids[i])
  {
    seq(|ids|, i requires 0 <= i < |ids| => BookingEntryOf(rows, ids[i]))
  }

  /**
    What `GET /booking` answers: `[]` when there is no booking, otherwise
    one entry per booking id, or 500 at the first entry that fails.
  */
  function GetAllBookingsSpec(rows: seq<Row>): (r: Result<seq<BookingEntry>>)
    ensures r.Err? ==> r.status == ServerError
    ensures InstanceIds(rows, "booking") == {} ==> r == Ok([])
  {
    var ids := AllBookingIds(rows);
    if ids == [] then Ok([])
    else
      assert ids[0] in ids;
      Collect(BookingEntries(rows, ids))
  }

  /** A successful list holds one entry per booking id, in the order of the ids. */
  lemma AllBookingsListed(rows: seq<Row>)
    requires GetAllBookingsSpec(rows).Ok?
    ensures var all := GetAllBookingsSpec(rows).value;
      var ids := AllBookingIds(rows);
      && |all| == |ids|
      && forall i :: 0 <= i < |ids| ==> all[i].view.bookingId == ids[i] && BookingEntryOf(rows, ids[i]) == Ok(all[i])
  {
    var ids := AllBookingIds(rows);
    if ids != [] {
      var all := GetAllBookingsSpec(rows).value;
      var rs := BookingEntries(rows, ids);
      forall i | 0 <= i < |ids| ensures all[i].view.bookingId == ids[i] && BookingEntryOf(rows, ids[i]) == Ok(all[i]) {
        assert rs[i] == Ok(all[i]);
      }
    }
  }

  /** A successful list names every booking exactly once. */
  lemma AllBookingsOnce(rows: seq<Row>)
    requires GetAllBookingsSpec(rows).Ok?
    ensures var all := GetAllBookingsSpec(rows).value;
      && (forall i, j :: 0 <= i < j < |all| ==> all[i].view.bookingId != all[j].view.bookingId)
      && (forall id :: id in InstanceIds(rows, "booking") <==> exists i :: 0 <= i < |all| && all[i].view.bookingId == id)
  {
    var all := GetAllBookingsSpec(rows).value;
    var ids := AllBookingIds(rows);
    AllBookingsListed(rows);
    forall id | id in InstanceIds(rows, "booking") ensures exists i :: 0 <= i < |all| && all[i].view.bookingId == id {
      var i :| 0 <= i < |ids| && ids[i] == id;
      assert all[i].view.bookingId == id;
    }
  }

  /** `GET /booking`: the distinct booking ids, then one entry per id. */
  method GetAllBookings(db: Store) returns (r: Result<seq<BookingEntry>>)
    ensures r == GetAllBookingsSpec(db.rows)
  {
    var rows := db.rows;
    var bookingIds := AllBookingIds(rows);
    if bookingIds == [] {
      return Ok([]);
    }
    ghost var steps := BookingEntries(rows, bookingIds);
    var result: seq<BookingEntry> := [];
    var k := 0;
    while k < |bookingIds|
      invariant 0 <= k <= |bookingIds|
      invariant Collect(steps[..k]) == Ok(result)
    {
      var entry := BookingEntryOf(rows, bookingIds[k]);
      if entry.Err? {
        CollectErr(steps, k, result, entry.status);
        return Err(entry.status);
      }
      CollectOk(steps, k, result, entry.value);
      result := result + [entry.value];
      k := k + 1;
    }
    assert steps[..k] == steps;
    r := Ok(result);
  }

  // ---------------------------------------------------------------------
  // A created booking, as the lists show it
  // ---------------------------------------------------------------------

  /** The booking's rows leave every table as it was. */
  lemma TablesUnchanged(rows: seq<Row>, start: nat, id: int, fields: seq<(string, string)>, tableId: int)
    ensures TableRefOf(rows + Stamp(start, "booking", id, fields), tableId) == TableRefOf(rows, tableId)
  {
    InsertInvisible(rows, start, "booking", id, fields, OfEntity("table", tableId));
  }

  /** The six fields read back from their dict as the booking was made. */
  lemma BookingFieldsRead(b: BookingIn, now: string)
    ensures var m := FieldMap(BookingFields(b, now));
      && IntOr(m, "user_id") == Some(b.userId)
      && Lookup(m, "datetime") == Some(b.datetime)
      && IntOr(m, "table_id") == Some(b.tableId)
      && IntOr(m, "guests") == Some(b.guests)
      && Lookup(m, "comment") == Some(b.comment.GetOr(""))
      && Lookup(m, "created_at") == Some(now)
  {
    var fields := BookingFields(b, now);
    BookingFieldsDistinct(b, now);
    FieldMapDistinct(fields, 0);
    FieldMapDistinct(fields, 1);
    FieldMapDistinct(fields, 2);
    FieldMapDistinct(fields, 3);
    FieldMapDistinct(fields, 4);
    FieldMapDistinct(fields, 5);
    IntToStrRoundTrip(b.userId);
    IntToStrRoundTrip(b.tableId);
    IntToStrRoundTrip(b.guests);
  }

  /** A booking whose rows pivot to the six fields shows them, with its table as it stands. */
  lemma BookingViewOfFields(rows: seq<Row>, id: int, b: BookingIn, now: string)
    requires DictPivot(EntityRows(rows, "booking", id)) == FieldMap(BookingFields(b, now))
    ensures BookingViewOf(rows, id).Ok? <==> TableRefOf(rows, b.tableId).Ok?
    ensures TableRefOf(rows, b.tableId).Ok? ==>
              BookingViewOf(rows, id) == Ok(BookingView(id, Some(b.datetime), b.guests, TableRefOf(rows, b.tableId).value,
                                                        b.comment.GetOr(""), Some(now)))
  {
    BookingFieldsRead(b, now);
  }

  /**
    Create then read: the new booking is among the user's, and its record
    shows the datetime, the guests, the comment (or "") and the creation time
    as written, with the table as it stands, whenever that table reads.
  */
  lemma CreatedBookingView(rows: seq<Row>, start: nat, b: BookingIn, now: string)
    ensures var id := NextId(rows, "booking");
      var after := rows + Stamp(start, "booking", id, BookingFields(b, now));
      && id in UserBookingIds(after, b.userId)
      && (BookingViewOf(after, id).Ok? <==> TableRefOf(rows, b.tableId).Ok?)
      && (TableRefOf(rows, b.tableId).Ok? ==>
            BookingViewOf(after, id) == Ok(BookingView(id, Some(b.datetime), b.guests, TableRefOf(rows, b.tableId).value,
                                                       b.comment.GetOr(""), Some(now))))
  {
    var id := NextId(rows, "booking");
    var fields := BookingFields(b, now);
    var s := Stamp(start, "booking", id, fields);
    var after := rows + s;
    ReadBack(rows, start, "booking", fields);
    TablesUnchanged(rows, start, id, fields, b.tableId);
    BookingViewOfFields(after, id, b, now);
    assert s[0] in after;
  }

  /** The full list shows the new booking's user id as well. */
  lemma CreatedBookingEntry(rows: seq<Row>, start: nat, b: BookingIn, now: string)
    requires TableRefOf(rows, b.tableId).Ok?
    ensures var id := NextId(rows, "booking");
      var after := rows + Stamp(start, "booking", id, BookingFields(b, now));
      && id in AllBookingIds(after)
      && BookingEntryOf(after, id)
         == Ok(BookingEntry(b.userId, BookingView(id, Some(b.datetime), b.guests, TableRefOf(rows, b.tableId).value,
                                                  b.comment.GetOr(""), Some(now))))
  {
    var id := NextId(rows, "booking");
    var fields := BookingFields(b, now);
    var s := Stamp(start, "booking", id, fields);
    var after := rows + s;
    ReadBack(rows, start, "booking", fields);
    TablesUnchanged(rows, start, id, fields, b.tableId);
    BookingViewOfFields(after, id, b, now);
    BookingFieldsRead(b, now);
    assert s[0] in after;
  }
}
