/** The user endpoints: registration, profile, the user list and login by phone. */
module Users {
  import opened Wrappers
  import opened Sorting
  import opened Eav

  /** The registration body; a missing `building`, `floor` or `flat` defaults to "". */
  datatype UserRegisterIn = UserRegisterIn(
    name: string, phone: string, city: string, street: string, house: string,
    building: Option<string>, floor: Option<string>, flat: Option<string>)

  /** Some user row already holds this phone. */
  predicate PhoneTaken(rows: seq<Row>, phone: string) {
    exists x :: x in rows && x.ent == "user" && x.attr == "phone" && x.value == phone
  }

  /** The eleven rows a user is stored as: the profile, the creation time and the loyalty seed. */
  function RegisterFields(u: UserRegisterIn, now: string): seq<(string, string)> {
    [ ("name", u.name), ("phone", u.phone), ("city", u.city), ("street", u.street), ("house", u.house),
      ("building", u.building.GetOr("")), ("floor", u.floor.GetOr("")), ("flat", u.flat.GetOr("")),
      ("created_at", now), ("loyalty_discount", "3"), ("loyalty_total", "0") ]
  }

  /**
    `POST /register`: 400 with the store unchanged when the phone is taken;
    otherwise the eleven rows under the next user id, which is returned.
  */
  method RegisterUser(db: Store, u: UserRegisterIn, now: string) returns (r: Result<int>)
    requires db.Valid()
    modifies db
    ensures db.Valid() && db.sysEnt == old(db.sysEnt)
    ensures PhoneTaken(old(db.rows), u.phone) ==>
              r == Err(BadRequest) && db.rows == old(db.rows) && db.nextValId == old(db.nextValId)
    ensures !PhoneTaken(old(db.rows), u.phone) ==>
              && r == Ok(NextId(old(db.rows), "user"))
              && db.rows == old(db.rows) + Stamp(old(db.nextValId), "user", r.value, RegisterFields(u, now))
              && db.nextValId == old(db.nextValId) + |RegisterFields(u, now)|
  {
    var existing := FirstRow(db.rows, WithValue("user", "phone", u.phone));
    if existing.Some? {
      return Err(BadRequest);
    }
    assert !PhoneTaken(db.rows, u.phone) by {
      forall x | x in db.rows ensures !(x.ent == "user" && x.attr == "phone" && x.value == u.phone) {
        var i :| 0 <= i < |db.rows| && db.rows[i] == x;
      }
    }
    var userId := NextId(db.rows, "user");
    db.InsertMany("user", userId, RegisterFields(u, now));
    r := Ok(userId);
  }

  /** A new user starts with a 3% discount and a zero order total. */
  lemma RegisterSeedsLoyalty(u: UserRegisterIn, now: string)
    ensures |RegisterFields(u, now)| == 11
    ensures "loyalty_discount" in FieldMap(RegisterFields(u, now))
    ensures FieldMap(RegisterFields(u, now))["loyalty_discount"] == "3"
    ensures "loyalty_total" in FieldMap(RegisterFields(u, now))
    ensures FieldMap(RegisterFields(u, now))["loyalty_total"] == "0"
  {
    var f := RegisterFields(u, now);
    var f10, f9 := f[..10], f[..9];
    assert f10[..9] == f9;
    assert FieldMap(f10) == FieldMap(f9)["loyalty_discount" := "3"];
    assert FieldMap(f) == FieldMap(f10)["loyalty_total" := "0"];
  }

  // ---------------------------------------------------------------------
  // GET /user/{user_id}
  // ---------------------------------------------------------------------

  /**
    404 when the user has no rows; otherwise `{attr_name: value}` over the
    user's rows with `user_id` set afterwards, so it is always the requested id.
  */
  function GetUserProfile(rows: seq<Row>, userId: int): (r: Result<map<string, Value>>)
    ensures r.Err? <==> forall x :: x in rows ==> x.ent != "user" || x.inst != userId
    ensures r.Err? ==> r.status == NotFound
    ensures r.Ok? ==> "user_id" in r.value && r.value["user_id"] == Num(userId)
    ensures r.Ok? ==> forall k :: k in r.value <==>
              k == "user_id" || exists x :: x in rows && x.ent == "user" && x.inst == userId && x.attr == k
  {
    var rs := EntityRows(rows, "user", userId);
    SelectPivotKeys(rows, OfEntity("user", userId));
    if rs == [] then Err(NotFound)
    else
      assert rs[0] in rs;
      Ok(AsText(DictPivot(rs))["user_id" := Num(userId)])
  }

  /** Every other attribute shows the value of the user's last row with that name. */
  lemma ProfileLastWins(rows: seq<Row>, userId: int, i: nat)
    requires i < |rows| && rows[i].ent == "user" && rows[i].inst == userId && rows[i].attr != "user_id"
    requires forall j :: i < j < |rows| && rows[j].ent == "user" && rows[j].inst == userId ==> rows[j].attr != rows[i].attr
    ensures GetUserProfile(rows, userId).Ok?
    ensures GetUserProfile(rows, userId).value[rows[i].attr] == Str(rows[i].value)
  {
    assert rows[i] in rows;
    SelectPivotLastWins(rows, OfEntity("user", userId), i);
  }

  /**
    Register then read the profile: the fields as registered (so a 3%
    discount and a zero total, by RegisterSeedsLoyalty), plus `user_id`.
  */
  lemma RegisterThenProfile(rows: seq<Row>, start: nat, u: UserRegisterIn, now: string)
    ensures var id := NextId(rows, "user");
      GetUserProfile(rows + Stamp(start, "user", id, RegisterFields(u, now)), id)
        == Ok(AsText(FieldMap(RegisterFields(u, now)))["user_id" := Num(id)])
  {
    var id := NextId(rows, "user");
    var fields := RegisterFields(u, now);
    ReadBack(rows, start, "user", fields);
    InsertedEntity(rows, start, "user", fields);
    assert EntityRows(rows + Stamp(start, "user", id, fields), "user", id) != [];
  }

  // ---------------------------------------------------------------------
  // GET /users
  // ---------------------------------------------------------------------

  datatype UserSummary = UserSummary(
    userId: int, name: Option<string>, phone: Option<string>, city: Option<string>,
    loyaltyDiscount: Option<string>, loyaltyTotal: Option<string>)

  /** One list entry: `attrs.get(...)` over the user's dict pivot. */
  function UserSummaryOf(rows: seq<Row>, id: int): (s: UserSummary)
    ensures s.userId == id
  {
    var attrs := DictPivot(EntityRows(rows, "user", id));
    UserSummary(id, Lookup(attrs, "name"), Lookup(attrs, "phone"), Lookup(attrs, "city"),
                Lookup(attrs, "loyalty_discount"), Lookup(attrs, "loyalty_total"))
  }

  /**
    The distinct user ids in ascending order, then one summary per id: every
    user once, in id order.
  */
  method GetAllUsers(db: Store) returns (result: seq<UserSummary>)
    ensures forall i, j :: 0 <= i < j < |result| ==> result[i].userId < result[j].userId
    ensures forall id :: id in InstanceIds(db.rows, "user") <==> exists i :: 0 <= i < |result| && result[i].userId == id
    ensures forall i :: 0 <= i < |result| ==> result[i] == UserSummaryOf(db.rows, result[i].userId)
  {
    var rows := db.rows;
    var users := TypeGroups(rows, "user");
    result := [];
    var k := 0;
    while k < |users|
      invariant 0 <= k <= |users|
      invariant |result| == k
      invariant forall i :: 0 <= i < k ==> result[i].userId == users[i]
      invariant forall i :: 0 <= i < k ==> result[i] == UserSummaryOf(rows, users[i])
    {
      var userId := users[k];
      result := result + [UserSummaryOf(rows, userId)];
      k := k + 1;
    }
    forall id | id in users ensures exists i :: 0 <= i < |result| && result[i].userId == id {
      var i :| 0 <= i < |users| && users[i] == id;
      assert result[i].userId == id;
    }
  }

  // ---------------------------------------------------------------------
  // POST /login
  // ---------------------------------------------------------------------

  datatype Login = Login(userId: int, name: string)

  /**
    404 when no user row holds the phone; otherwise the instance of the first
    such row in table order, with its name or "" when it has no name row.
  */
  function LoginUser(rows: seq<Row>, phone: string): (r: Result<Login>)
    ensures r.Err? <==> !PhoneTaken(rows, phone)
    ensures r.Err? ==> r.status == NotFound
    ensures r.Ok? ==> exists i :: (0 <= i < |rows| && rows[i] == Row(rows[i].valId, "user", "phone", r.value.userId, phone)
                                   && forall j :: 0 <= j < i ==> !Matches(rows[j], WithValue("user", "phone", phone)))
    ensures r.Ok? ==> (r.value.name == "" <== forall x :: x in rows ==> !(x.ent == "user" && x.attr == "name" && x.inst == r.value.userId))
  {
    match FirstRow(rows, WithValue("user", "phone", phone))
    case None =>
      assert !PhoneTaken(rows, phone) by {
        forall x | x in rows ensures !(x.ent == "user" && x.attr == "phone" && x.value == phone) {
          var i :| 0 <= i < |rows| && rows[i] == x;
        }
      }
      Err(NotFound)
    case Some(row) =>
      assert row in rows;
      var name := FirstValue(rows, "user", "name", row.inst);
      if name.None? then
        Ok(Login(row.inst, ""))
      else
        Ok(Login(row.inst, name.value))
  }

  /** Login reads the first phone row's instance, then that instance's first name row. */
  lemma LoginOf(rows: seq<Row>, phone: string, row: Row, name: string)
    requires FirstRow(rows, WithValue("user", "phone", phone)) == Some(row)
    requires FirstValue(rows, "user", "name", row.inst) == Some(name)
    ensures LoginUser(rows, phone) == Ok(Login(row.inst, name))
  {
  }

  /** The phone row is the first of the new rows to hold the phone. */
  lemma RegisteredPhoneFirst(rows: seq<Row>, start: nat, u: UserRegisterIn, now: string)
    requires !PhoneTaken(rows, u.phone)
    ensures var id := NextId(rows, "user");
      var after := rows + Stamp(start, "user", id, RegisterFields(u, now));
      FirstRow(after, WithValue("user", "phone", u.phone)) == Some(Row(start + 1, "user", "phone", id, u.phone))
  {
    var id := NextId(rows, "user");
    var fields := RegisterFields(u, now);
    var phoneRows := WithValue("user", "phone", u.phone);
    assert fields[0].0 == "name" && fields[1] == ("phone", u.phone);
    forall x | x in rows ensures !Matches(x, phoneRows) {
      assert !(x.ent == "user" && x.attr == "phone" && x.value == u.phone);
    }
    assert !Matches(Row(start, "user", fields[0].0, id, fields[0].1), phoneRows);
    FirstStampRow(rows, start, "user", id, fields, phoneRows, 1);
  }

  /** The name row is the first of the new rows to hold the user's name. */
  lemma RegisteredNameFirst(rows: seq<Row>, start: nat, u: UserRegisterIn, now: string)
    ensures var id := NextId(rows, "user");
      var after := rows + Stamp(start, "user", id, RegisterFields(u, now));
      FirstValue(after, "user", "name", id) == Some(u.name)
  {
    var id := NextId(rows, "user");
    var fields := RegisterFields(u, now);
    var nameRows := AttrIn("user", "name", {id});
    assert fields[0] == ("name", u.name);
    NextIdFresh(rows, "user");
    FirstStampRow(rows, start, "user", id, fields, nameRows, 0);
  }

  /** After registering with a fresh phone, logging in with it returns the new user and name. */
  lemma RegisterThenLogin(rows: seq<Row>, start: nat, u: UserRegisterIn, now: string)
    requires !PhoneTaken(rows, u.phone)
    ensures var id := NextId(rows, "user");
      LoginUser(rows + Stamp(start, "user", id, RegisterFields(u, now)), u.phone) == Ok(Login(id, u.name))
  {
    var id := NextId(rows, "user");
    RegisteredPhoneFirst(rows, start, u, now);
    RegisteredNameFirst(rows, start, u, now);
    LoginOf(rows + Stamp(start, "user", id, RegisterFields(u, now)), u.phone, Row(start + 1, "user", "phone", id, u.phone), u.name);
  }
}
