/**
  The table endpoints: the table list, availability at one datetime text, and
  the free tables for a time window. Datetimes are microseconds on one time
  line, the resolution of Python's `datetime`; `parse` stands for
  `datetime.fromisoformat`, None where it raises.
*/
module Tables {
  import opened Wrappers
  import opened Text
  import opened Sorting
  import opened Eav
  import Booking

  // ---------------------------------------------------------------------
  // GET /tables
  // ---------------------------------------------------------------------

  /** One row of the MAX(CASE ...) pivot of a table; a field is NULL when the table has no such row. */
  datatype TableRow = TableRow(tableId: int, number: Option<string>, seats: Option<string>, location: Option<string>)

  function TableRowOf(rows: seq<Row>, id: int): (t: TableRow)
    ensures t.tableId == id
    ensures var g := EntityRows(rows, "table", id);
      IsMax(g, "number", t.number) && IsMax(g, "seats", t.seats) && IsMax(g, "location", t.location)
  {
    var g := EntityRows(rows, "table", id);
    TableRow(id, MaxOf(g, "number"), MaxOf(g, "seats"), MaxOf(g, "location"))
  }

  function Number(t: TableRow): Option<string> {
    t.number
  }

  function TableIdOf(t: TableRow): int {
    t.tableId
  }

  /**
    `... WHERE ent_name = 'table' GROUP BY ent_instance_id ORDER BY number`:
    one record per table, ordered by the number as TEXT (NULL first);
    tables with equal numbers stay in id order.
  */
  function GetAllTables(rows: seq<Row>): (all: seq<TableRow>)
    ensures SortedBy(all, Number, false)
    ensures DistinctBy(all, TableIdOf)
    ensures forall id :: id in InstanceIds(rows, "table") <==> exists i :: 0 <= i < |all| && all[i].tableId == id
    ensures forall i :: 0 <= i < |all| ==> all[i] == TableRowOf(rows, all[i].tableId)
  {
    var ids := TypeGroups(rows, "table");
    AscendingNoDuplicates(ids);
    var f := (id: int) => TableRowOf(rows, id);
    SortedRecords(ids, f, TableIdOf, Number, false);
    SortBy(Records(ids, f), Number, false)
  }

  /** The numbers compare as text: table "10" is listed before table "2". */
  lemma NumbersCompareAsText()
    ensures InOrder(Some("10"), Some("2"), false) && !InOrder(Some("2"), Some("10"), false)
  {
    assert "10"[0] == '1' && "2"[0] == '2';
  }

  // ---------------------------------------------------------------------
  // GET /tables/availability
  // ---------------------------------------------------------------------

  /** Some booking of the table has a `datetime` row holding exactly the text `dt`. */
  ghost predicate Busy(rows: seq<Row>, tableId: int, dt: string) {
    exists x, y :: x in rows && y in rows && x.ent == "booking" && x.attr == "table_id" && x.value == IntToStr(tableId)
                   && y.ent == "booking" && y.attr == "datetime" && y.value == dt && y.inst == x.inst
  }

  /**
    The availability query: a booking `table_id` row holding str(tableId) whose
    instance is among those with a `datetime` row equal to `dt`.
  */
  function BusyCheck(rows: seq<Row>, tableId: int, dt: string): (busy: bool)
    ensures busy <==> Busy(rows, tableId, dt)
  {
    var at := FindIds(rows, "booking", "datetime", dt);
    var w := Where("booking", Some("table_id"), Some(at), Some(IntToStr(tableId)));
    var first := FirstRow(rows, w);
    if first.Some? then
      assert Busy(rows, tableId, dt) by {
        var i :| 0 <= i < |rows| && rows[i] == first.value && Matches(rows[i], w);
        assert rows[i] in rows;
      }
      true
    else
      assert !Busy(rows, tableId, dt) by {
        forall x | x in rows && x.ent == "booking" && x.attr == "table_id" && x.value == IntToStr(tableId)
          ensures x.inst !in at
        {
          var i :| 0 <= i < |rows| && rows[i] == x;
          assert !Matches(rows[i], w);
        }
      }
      false
  }

  /** One availability record. */
  datatype Availability = Availability(tableId: int, number: Option<string>, seats: int, location: Option<string>,
                                       isAvailable: bool)

  /** The record of one table: its seats must read as an integer (500 otherwise). */
  function AvailabilityOf(rows: seq<Row>, t: TableRow, dt: string): (r: Result<Availability>)
    ensures r.Err? <==> IntOf(t.seats).None?
    ensures r.Err? ==> r.status == ServerError
    ensures r.Ok? ==> r.value == Availability(t.tableId, t.number, IntOf(t.seats).value, t.location, !Busy(rows, t.tableId, dt))
  {
    var seats := IntOf(t.seats);
    if seats.None? then Err(ServerError)
    else Ok(Availability(t.tableId, t.number, seats.value, t.location, !BusyCheck(rows, t.tableId, dt)))
  }

  function AvailabilitySteps(rows: seq<Row>, tables: seq<TableRow>, dt: string): (rs: seq<Result<Availability>>)
    ensures |rs| == |tables|
    ensures forall i :: 0 <= i < |tables| ==> rs[i] == AvailabilityOf(rows, tables[i], dt)
  {
    seq(|tables|, i requires 0 <= i < |tables| => AvailabilityOf(rows, tables[i], dt))
  }

  /** What `GET /tables/availability` answers: one record per listed table, or 500 at the first that fails. */
  function TableAvailabilitySpec(rows: seq<Row>, dt: string): (r: Result<seq<Availability>>)
    ensures r.Err? ==> r.status == ServerError
    ensures r.Ok? ==> |r.value| == |GetAllTables(rows)|
  {
    Collect(AvailabilitySteps(rows, GetAllTables(rows), dt))
  }

  /**
    Every table is listed once, in the order of the table list, and is
    available exactly when no booking of it has the requested datetime text.
  */
  lemma AvailabilityExact(rows: seq<Row>, dt: string)
    requires TableAvailabilitySpec(rows, dt).Ok?
    ensures var all := TableAvailabilitySpec(rows, dt).value;
      var tables := GetAllTables(rows);
      && |all| == |tables|
      && forall i :: 0 <= i < |all| ==>
           && all[i].tableId == tables[i].tableId
           && all[i].number == tables[i].number && all[i].location == tables[i].location
           && Some(all[i].seats) == IntOf(tables[i].seats)
           && (all[i].isAvailable <==> !Busy(rows, tables[i].tableId, dt))
  {
    var all := TableAvailabilitySpec(rows, dt).value;
    var tables := GetAllTables(rows);
    var rs := AvailabilitySteps(rows, tables, dt);
    forall i | 0 <= i < |all|
      ensures all[i] == Availability(tables[i].tableId, tables[i].number, IntOf(tables[i].seats).value,
                                     tables[i].location, !Busy(rows, tables[i].tableId, dt))
    {
      assert rs[i] == Ok(all[i]);
    }
  }

  /** The loop over the table list, one check query per table. */
  method GetTableAvailability(db: Store, dt: string) returns (r: Result<seq<Availability>>)
    ensures r == TableAvailabilitySpec(db.rows, dt)
  {
    var rows := db.rows;
    var tables := GetAllTables(rows);
    ghost var steps := AvailabilitySteps(rows, tables, dt);
    var result: seq<Availability> := [];
    var k := 0;
    while k < |tables|
      invariant 0 <= k <= |tables|
      invariant Collect(steps[..k]) == Ok(result)
    {
      var entry := AvailabilityOf(rows, tables[k], dt);
      if entry.Err? {
        CollectErr(steps, k, result, entry.status);
        return Err(entry.status);
      }
      CollectOk(steps, k, result, entry.value);
      result := result + [entry.value];
      k := k + 1;
    }
    assert steps[..k] == steps;
    r := Ok(result);
  }

  /** A booking just made makes its table busy at exactly its datetime text. */
  lemma BookedTableBusy(rows: seq<Row>, start: nat, b: Booking.BookingIn, now: string)
    ensures Busy(rows + Stamp(start, "booking", NextId(rows, "booking"), Booking.BookingFields(b, now)), b.tableId, b.datetime)
  {
    var s := Stamp(start, "booking", NextId(rows, "booking"), Booking.BookingFields(b, now));
    assert s[2] in rows + s && s[1] in rows + s;
  }

  /** The one `datetime` row of a new booking holds the booking's datetime text. */
  lemma StampedDatetime(start: nat, id: int, b: Booking.BookingIn, now: string, y: Row)
    requires y in Stamp(start, "booking", id, Booking.BookingFields(b, now)) && y.attr == "datetime"
    ensures y.value == b.datetime && y.inst == id
  {
    var f := Booking.BookingFields(b, now);
    var s := Stamp(start, "booking", id, f);
    var i :| 0 <= i < |s| && s[i] == y;
    assert f[0].0[0] == 'u' && f[2].0[0] == 't' && f[3].0[0] == 'g' && f[4].0[0] == 'c' && f[5].0[0] == 'c';
    assert y.attr[0] == 'd';
    assert i == 1;
  }

  /**
    The match is on the text: a booking made with another datetime text,
    even one naming the same moment, leaves every table's availability at
    `dt` as it was.
  */
  lemma OtherTextNotBusy(rows: seq<Row>, start: nat, b: Booking.BookingIn, now: string, tableId: int, dt: string)
    requires b.datetime != dt
    ensures Busy(rows + Stamp(start, "booking", NextId(rows, "booking"), Booking.BookingFields(b, now)), tableId, dt)
            == Busy(rows, tableId, dt)
  {
    var id := NextId(rows, "booking");
    var s := Stamp(start, "booking", id, Booking.BookingFields(b, now));
    var after := rows + s;
    StampAllOf(start, "booking", id, Booking.BookingFields(b, now));
    if Busy(after, tableId, dt) {
      var x, y :| x in after && y in after && x.ent == "booking" && x.attr == "table_id" && x.value == IntToStr(tableId)
                  && y.ent == "booking" && y.attr == "datetime" && y.value == dt && y.inst == x.inst;
      if y in s {
        StampedDatetime(start, id, b, now, y);
      }
      assert x in rows && y in rows;
    }
  }

  // ---------------------------------------------------------------------
  // GET /tables/free
  // ---------------------------------------------------------------------

  /** One minute in microseconds. */
  const MicrosPerMinute := 60_000_000

  /** `timedelta(minutes=m)` in microseconds. */
  function Window(m: int): int {
    m * MicrosPerMinute
  }

  /** The window [start, start + d) meets the booking's window [b, b + d). */
  predicate Overlaps(start: int, b: int, d: int) {
    start < b + d && start + d > b
  }

  /** The overlap rule is a distance test, so a window of no length never conflicts. */
  lemma OverlapsIsDistance(start: int, b: int, d: int)
    ensures Overlaps(start, b, d) <==> (if start >= b then start - b else b - start) < d
    ensures d <= 0 ==> !Overlaps(start, b, d)
  {
  }

  /** Some booking datetime of the table parses to a window that meets the request's. */
  predicate HasConflict(times: seq<string>, parse: string -> Option<int>, start: int, d: int) {
    exists i :: 0 <= i < |times| && parse(times[i]).Some? && Overlaps(start, parse(times[i]).value, d)
  }

  /**
    The loop over a table's booking datetimes: a text that does not parse is
    skipped, the first overlapping one sets the flag and ends the loop.
  */
  method FindConflict(times: seq<string>, parse: string -> Option<int>, start: int, d: int) returns (conflict: bool)
    ensures conflict <==> HasConflict(times, parse, start, d)
  {
    conflict := false;
    var k := 0;
    while k < |times|
      invariant 0 <= k <= |times|
      invariant !conflict
      invariant forall i :: 0 <= i < k ==> !(parse(times[i]).Some? && Overlaps(start, parse(times[i]).value, d))
    {
      var bStart := parse(times[k]);
      if bStart.Some? {
        var bEnd := bStart.value + d;
        if start < bEnd && start + d > bStart.value {
          conflict := true;
          break;
        }
      }
      k := k + 1;
    }
  }

  /** A booking datetime that does not parse never causes a conflict. */
  lemma UnparsedSkipped(times: seq<string>, parse: string -> Option<int>, start: int, d: int, t: string)
    requires parse(t).None?
    ensures HasConflict(times + [t], parse, start, d) == HasConflict(times, parse, start, d)
  {
    var all := times + [t];
    if HasConflict(all, parse, start, d) {
      var i :| 0 <= i < |all| && parse(all[i]).Some? && Overlaps(start, parse(all[i]).value, d);
      assert i < |times| && all[i] == times[i];
    }
    if HasConflict(times, parse, start, d) {
      var i :| 0 <= i < |times| && parse(times[i]).Some? && Overlaps(start, parse(times[i]).value, d);
      assert all[i] == times[i];
    }
  }

  /**
    Seconds count: with a booking at 21:00 and the default two hours, a
    request at 19:00:30 conflicts (its window ends at 21:00:30) and one at
    19:00:00 does not (times in microseconds of the day).
  */
  lemma TwoHourWindow(parse: string -> Option<int>, t: string)
    requires parse(t) == Some(Window(21 * 60))
    ensures HasConflict([t], parse, Window(19 * 60) + 30_000_000, Window(120))
    ensures !HasConflict([t], parse, Window(19 * 60), Window(120))
  {
    assert [t][0] == t;
  }

  /** `HAVING CAST(MAX(seats) AS INT) >= min_seats [AND MAX(location) = location]`; an empty location filters nothing. */
  predicate Qualifies(t: TableRow, minSeats: int, location: Option<string>) {
    && t.seats.Some? && SqlCastInt(t.seats.value) >= minSeats
    && (location.Some? && location.value != "" ==> t.location == location)
  }

  /**
    For a table whose seats are stored as `str(n)`, the HAVING clause admits
    it exactly when `n >= min_seats` and, with a non-empty location filter,
    its location is that one.
  */
  lemma QualifiesOfInt(t: TableRow, n: int, minSeats: int, location: Option<string>)
    requires t.seats == Some(IntToStr(n))
    ensures Qualifies(t, minSeats, location) <==>
              n >= minSeats && (location.Some? && location.value != "" ==> t.location == location)
  {
    SqlCastIntOfInt(n);
  }

  /** The table qualifies as a candidate. */
  predicate Candidate(rows: seq<Row>, minSeats: int, location: Option<string>, id: int) {
    Qualifies(TableRowOf(rows, id), minSeats, location)
  }

  /** The candidate table ids, in GROUP BY (ascending id) order. */
  function Candidates(rows: seq<Row>, ids: seq<int>, minSeats: int, location: Option<string>): seq<int>
  {
    Filter(ids, id => Candidate(rows, minSeats, location, id))
  }

  /** The candidates are the ids that qualify, still in ascending order. */
  lemma CandidatesMeaning(rows: seq<Row>, ids: seq<int>, minSeats: int, location: Option<string>)
    ensures var r := Candidates(rows, ids, minSeats, location);
      && (forall id :: id in r <==> id in ids && Candidate(rows, minSeats, location, id))
      && (Ascending(ids) ==> Ascending(r))
  {
    FilterMeaning(ids, id => Candidate(rows, minSeats, location, id));
  }

  /** The datetime texts of the table's bookings: the `datetime` rows of the bookings whose `table_id` is str(id). */
  function BookingTimes(rows: seq<Row>, tableId: int): seq<string> {
    Values(Select(rows, AttrIn("booking", "datetime", FindIds(rows, "booking", "table_id", IntToStr(tableId)))))
  }

  /** One free table. */
  datatype FreeTable = FreeTable(tableId: int, number: Option<string>, seats: int, location: Option<string>)

  /**
    One candidate: None when one of its bookings conflicts; otherwise its
    record, whose seats must read as an integer for Python's `int()` (500
    otherwise, though the SQL cast let them through).
  */
  function FreeTableOf(rows: seq<Row>, id: int, parse: string -> Option<int>, start: int, d: int): (r: Result<Option<FreeTable>>)
    ensures r.Err? ==> r.status == ServerError
  {
    var t := TableRowOf(rows, id);
    if HasConflict(BookingTimes(rows, id), parse, start, d) then Ok(None)
    else
      match IntOf(t.seats)
      case None => Err(ServerError)
      case Some(seats) => Ok(Some(FreeTable(id, t.number, seats, t.location)))
  }

  /** The test of one candidate, as a step of the loop over them. */
  function FreeCheck(rows: seq<Row>, parse: string -> Option<int>, start: int, d: int): int -> Result<Option<FreeTable>>
  {
    id => FreeTableOf(rows, id, parse, start, d)
  }

  /**
    The loop over some candidates: the records of those without a conflict,
    in the candidates' order, or the failure of the first that fails.
  */
  function FreeRun(rows: seq<Row>, ids: seq<int>, parse: string -> Option<int>, start: int, d: int)
    : Result<seq<FreeTable>>
  {
    Gather(ids, FreeCheck(rows, parse, start, d))
  }

  /** The loop over the candidates can only fail with a 500. */
  lemma FreeRunFailure(rows: seq<Row>, ids: seq<int>, parse: string -> Option<int>, start: int, d: int)
    ensures FreeRun(rows, ids, parse, start, d).Err? ==> FreeRun(rows, ids, parse, start, d).status == ServerError
  {
    GatherMeaning(ids, FreeCheck(rows, parse, start, d));
  }

  /** A table's record carries its id. */
  lemma FreeTableOfId(rows: seq<Row>, id: int, parse: string -> Option<int>, start: int, d: int)
    ensures var r := FreeTableOf(rows, id, parse, start, d);
      r.Ok? && r.value.Some? ==> r.value.value.tableId == id
  {
  }

  /** A successful run gives each of its tables' own records. */
  lemma FreeRunRecords(rows: seq<Row>, ids: seq<int>, parse: string -> Option<int>, start: int, d: int)
    requires FreeRun(rows, ids, parse, start, d).Ok?
    ensures forall f :: f in FreeRun(rows, ids, parse, start, d).value ==>
      FreeTableOf(rows, f.tableId, parse, start, d) == Ok(Some(f))
  {
    var step := FreeCheck(rows, parse, start, d);
    GatherMeaning(ids, step);
    forall f | f in FreeRun(rows, ids, parse, start, d).value
      ensures FreeTableOf(rows, f.tableId, parse, start, d) == Ok(Some(f))
    {
      var j :| 0 <= j < |ids| && step(ids[j]) == Ok(Some(f));
      FreeTableOfId(rows, ids[j], parse, start, d);
    }
  }

  /** A successful run keeps exactly the candidates without a conflict. */
  lemma FreeRunIds(rows: seq<Row>, ids: seq<int>, parse: string -> Option<int>, start: int, d: int)
    requires FreeRun(rows, ids, parse, start, d).Ok?
    ensures var fs := FreeRun(rows, ids, parse, start, d).value;
      forall id :: (exists i :: 0 <= i < |fs| && fs[i].tableId == id) <==>
        id in ids && !HasConflict(BookingTimes(rows, id), parse, start, d)
  {
    var step := FreeCheck(rows, parse, start, d);
    var fs := FreeRun(rows, ids, parse, start, d).value;
    FreeRunRecords(rows, ids, parse, start, d);
    GatherMeaning(ids, step);
    forall id ensures (exists i :: 0 <= i < |fs| && fs[i].tableId == id) <==>
      id in ids && !HasConflict(BookingTimes(rows, id), parse, start, d)
    {
      if exists i :: 0 <= i < |fs| && fs[i].tableId == id {
        var i :| 0 <= i < |fs| && fs[i].tableId == id;
        assert fs[i] in fs;
        var j :| 0 <= j < |ids| && step(ids[j]) == Ok(Some(fs[i]));
        FreeTableOfId(rows, ids[j], parse, start, d);
        FreeTableOfSkips(rows, id, parse, start, d);
      }
      if id in ids && !HasConflict(BookingTimes(rows, id), parse, start, d) {
        var j :| 0 <= j < |ids| && ids[j] == id;
        FreeTableOfSkips(rows, id, parse, start, d);
        FreeTableOfId(rows, id, parse, start, d);
        var f := step(ids[j]).value.value;
        var i :| 0 <= i < |fs| && fs[i] == f;
      }
    }
  }

  /** A table is skipped exactly when one of its bookings conflicts. */
  lemma FreeTableOfSkips(rows: seq<Row>, id: int, parse: string -> Option<int>, start: int, d: int)
    ensures FreeTableOf(rows, id, parse, start, d) == Ok(None) <==> HasConflict(BookingTimes(rows, id), parse, start, d)
  {
  }

  /** A run over ascending candidates lists its tables in ascending id order. */
  lemma FreeRunOrdered(rows: seq<Row>, ids: seq<int>, parse: string -> Option<int>, start: int, d: int)
    requires FreeRun(rows, ids, parse, start, d).Ok? && Ascending(ids)
    ensures var fs := FreeRun(rows, ids, parse, start, d).value;
      forall i, j :: 0 <= i < j < |fs| ==> fs[i].tableId < fs[j].tableId
  {
    var step := FreeCheck(rows, parse, start, d);
    forall i | 0 <= i < |ids| ensures step(ids[i]).Ok? && step(ids[i]).value.Some? ==>
      step(ids[i]).value.value.tableId == ids[i]
    {
      FreeTableOfId(rows, ids[i], parse, start, d);
    }
    GatherAscending(ids, step, (f: FreeTable) => f.tableId);
  }

  /**
    What `GET /tables/free` answers: 400 when the datetime does not parse;
    otherwise the run over the candidates, in id order, with windows of
    `d` minutes.
  */
  function FreeTablesSpec(rows: seq<Row>, dt: string, d: int, minSeats: int, location: Option<string>,
                          parse: string -> Option<int>): (r: Result<seq<FreeTable>>)
    ensures r == Err(BadRequest) <==> parse(dt).None?
    ensures r.Err? && parse(dt).Some? ==> r.status == ServerError
  {
    match parse(dt)
    case None => Err(BadRequest)
    case Some(start) =>
      var ids := Candidates(rows, TypeGroups(rows, "table"), minSeats, location);
      FreeRunFailure(rows, ids, parse, start, Window(d));
      FreeRun(rows, ids, parse, start, Window(d))
  }

  /**
    The free tables are each table that qualifies on seats and location and
    has no conflicting booking, once each and in ascending id order.
  */
  lemma FreeTablesExact(rows: seq<Row>, dt: string, d: int, minSeats: int, location: Option<string>,
                        parse: string -> Option<int>)
    requires FreeTablesSpec(rows, dt, d, minSeats, location, parse).Ok?
    ensures var free := FreeTablesSpec(rows, dt, d, minSeats, location, parse).value;
      && (forall id :: (exists i :: 0 <= i < |free| && free[i].tableId == id) <==>
            && id in InstanceIds(rows, "table")
            && Candidate(rows, minSeats, location, id)
            && !HasConflict(BookingTimes(rows, id), parse, parse(dt).value, Window(d)))
      && (forall i, j :: 0 <= i < j < |free| ==> free[i].tableId < free[j].tableId)
  {
    var ids := Candidates(rows, TypeGroups(rows, "table"), minSeats, location);
    CandidatesMeaning(rows, TypeGroups(rows, "table"), minSeats, location);
    FreeRunIds(rows, ids, parse, parse(dt).value, Window(d));
    FreeRunOrdered(rows, ids, parse, parse(dt).value, Window(d));
  }

  /** The body of the loop over the candidates: the conflict loop, then the record. */
  method CheckCandidate(rows: seq<Row>, id: int, parse: string -> Option<int>, start: int, d: int)
    returns (r: Result<Option<FreeTable>>)
    ensures r == FreeTableOf(rows, id, parse, start, d)
  {
    var t := TableRowOf(rows, id);
    var conflict := FindConflict(BookingTimes(rows, id), parse, start, d);
    if conflict {
      return Ok(None);
    }
    var seats := IntOf(t.seats);
    if seats.None? {
      return Err(ServerError);
    }
    r := Ok(Some(FreeTable(id, t.number, seats.value, t.location)));
  }

  /** The loop of `GET /tables/free` over the candidates. */
  method CheckCandidates(rows: seq<Row>, ids: seq<int>, parse: string -> Option<int>, start: int, d: int)
    returns (r: Result<seq<FreeTable>>)
    ensures r == FreeRun(rows, ids, parse, start, d)
  {
    var result: seq<FreeTable> := [];
    var k := 0;
    while k < |ids|
      invariant 0 <= k <= |ids|
      invariant FreeRun(rows, ids[..k], parse, start, d) == Ok(result)
    {
      var step := CheckCandidate(rows, ids[k], parse, start, d);
      if step.Err? {
        GatherFails(ids, FreeCheck(rows, parse, start, d), k);
        return Err(step.status);
      }
      GatherStep(ids, FreeCheck(rows, parse, start, d), k, result, step.value);
      result := result + if step.value.Some? then [step.value.value] else [];
      k := k + 1;
    }
    assert ids[..k] == ids;
    r := Ok(result);
  }

  /** `GET /tables/free`: parse the time, query the candidates, then test each one's bookings. */
  method GetFreeTables(db: Store, dt: string, d: int, minSeats: int, location: Option<string>,
                       parse: string -> Option<int>) returns (r: Result<seq<FreeTable>>)
    ensures r == FreeTablesSpec(db.rows, dt, d, minSeats, location, parse)
  {
    var start := parse(dt);
    if start.None? {
      return Err(BadRequest);
    }
    var ids := Candidates(db.rows, TypeGroups(db.rows, "table"), minSeats, location);
    r := CheckCandidates(db.rows, ids, parse, start.value, Window(d));
  }
}
