/**
  The admin endpoints: dish and category maintenance, the generic
  get / replace / delete of any `(ent_name, ent_instance_id)`, the list of
  all instances of a type, and the t_sys_ent catalogue.
*/
module Admin {
  import opened Wrappers
  import opened Sorting
  import opened Eav

  // ---------------------------------------------------------------------
  // Dishes
  // ---------------------------------------------------------------------

  /** The dish body; a missing `description` or `image_url` is "", a missing `is_active` is true. */
  datatype DishIn = DishIn(name: string, price: real, description: Option<string>, category: string,
                           imageUrl: Option<string>, isActive: Option<bool>)

  /** How `is_active` is stored. */
  function ActiveText(dish: DishIn): (t: string)
    ensures t == "true" <==> dish.isActive.GetOr(true)
    ensures t == "true" || t == "false"
  {
    if dish.isActive.GetOr(true) then "true" else "false"
  }

  /**
    The seven rows of a dish: six from the body (`fmt` is Python's `str()`
    of the price) and the time stamp, named `created_at` on create and
    `updated_at` on update.
  */
  function DishFields(dish: DishIn, fmt: real -> string, stamp: string, now: string): seq<(string, string)> {
    [ ("name", dish.name), ("price", fmt(dish.price)), ("description", dish.description.GetOr("")),
      ("category", dish.category), ("image_url", dish.imageUrl.GetOr("")), ("is_active", ActiveText(dish)),
      (stamp, now) ]
  }

  /** The six body fields have distinct names (first letters n, p, d, c, i and the second letter of "image_url"). */
  lemma DishFieldsDistinct(dish: DishIn, fmt: real -> string, stamp: string, now: string)
    requires stamp == "created_at" || stamp == "updated_at"
    ensures DistinctNames(DishFields(dish, fmt, stamp, now))
  {
    var f := DishFields(dish, fmt, stamp, now);
    assert f[0].0[0] == 'n' && f[1].0[0] == 'p' && f[2].0[0] == 'd' && f[3].0[0] == 'c' && f[4].0[0] == 'i';
    assert f[5].0[0] == 'i' && f[4].0[1] == 'm' && f[5].0[1] == 's';
    assert |f[3].0| == 8 && |f[6].0| == 10;
    assert f[6].0[0] == 'c' || f[6].0[0] == 'u';
  }

  /** A dish stores seven rows, `is_active` as "true" or "false" and the price as `str()` of it. */
  lemma DishFieldsRead(dish: DishIn, fmt: real -> string, stamp: string, now: string)
    requires stamp == "created_at" || stamp == "updated_at"
    ensures var m := FieldMap(DishFields(dish, fmt, stamp, now));
      && |DishFields(dish, fmt, stamp, now)| == 7
      && "name" in m && "price" in m && "description" in m && "category" in m
      && "image_url" in m && "is_active" in m && stamp in m
      && m["name"] == dish.name && m["price"] == fmt(dish.price)
      && m["description"] == dish.description.GetOr("") && m["category"] == dish.category
      && m["image_url"] == dish.imageUrl.GetOr("") && m[stamp] == now
      && (m["is_active"] == "true" <==> dish.isActive.GetOr(true))
  {
    var f := DishFields(dish, fmt, stamp, now);
    DishFieldsDistinct(dish, fmt, stamp, now);
    FieldMapDistinct(f, 0);
    FieldMapDistinct(f, 1);
    FieldMapDistinct(f, 2);
    FieldMapDistinct(f, 3);
    FieldMapDistinct(f, 4);
    FieldMapDistinct(f, 5);
    FieldMapDistinct(f, 6);
  }

  /** `POST /admin/dish`: the seven rows under the next dish id, which is returned. */
  method CreateDish(db: Store, dish: DishIn, fmt: real -> string, now: string) returns (dishId: int)
    requires db.Valid()
    modifies db
    ensures db.Valid() && db.sysEnt == old(db.sysEnt)
    ensures dishId == NextId(old(db.rows), "dish")
    ensures db.rows == old(db.rows) + Stamp(old(db.nextValId), "dish", dishId, DishFields(dish, fmt, "created_at", now))
    ensures db.nextValId == old(db.nextValId) + |DishFields(dish, fmt, "created_at", now)|
  {
    dishId := NextId(db.rows, "dish");
    db.InsertMany("dish", dishId, DishFields(dish, fmt, "created_at", now));
  }

  /** Create then read: the new dish reads back as its seven fields (DishFieldsRead) under the header. */
  lemma CreateDishThenGet(rows: seq<Row>, start: nat, dish: DishIn, fmt: real -> string, now: string)
    ensures var id := NextId(rows, "dish");
      var after := rows + Stamp(start, "dish", id, DishFields(dish, fmt, "created_at", now));
      && id !in InstanceIds(rows, "dish")
      && EntityOf(after, "dish", id) == Ok(EntityHeader("dish", id) + AsText(FieldMap(DishFields(dish, fmt, "created_at", now))))
  {
    var id := NextId(rows, "dish");
    var fields := DishFields(dish, fmt, "created_at", now);
    NextIdFresh(rows, "dish");
    ReadBack(rows, start, "dish", fields);
    InsertedEntity(rows, start, "dish", fields);
    var st := Stamp(start, "dish", id, fields);
    assert st[0] in EntityRows(rows + st, "dish", id);
  }

  /**
    `PUT /admin/dish/{dish_id}`: every row of the dish is deleted, then the
    seven new rows are written under the same id, whether or not it existed.
  */
  method UpdateDish(db: Store, dishId: int, dish: DishIn, fmt: real -> string, now: string)
    requires db.Valid()
    modifies db
    ensures db.Valid() && db.sysEnt == old(db.sysEnt)
    ensures db.rows == Delete(old(db.rows), OfEntity("dish", dishId))
                       + Stamp(old(db.nextValId), "dish", dishId, DishFields(dish, fmt, "updated_at", now))
    ensures db.nextValId == old(db.nextValId) + |DishFields(dish, fmt, "updated_at", now)|
  {
    db.DeleteWhere(OfEntity("dish", dishId));
    db.InsertMany("dish", dishId, DishFields(dish, fmt, "updated_at", now));
  }

  /** After a delete-then-insert of one instance, its rows are exactly the ones inserted. */
  lemma ReplacedRows(rows: seq<Row>, start: nat, ent: string, id: int, fields: seq<(string, string)>)
    ensures EntityRows(Delete(rows, OfEntity(ent, id)) + Stamp(start, ent, id, fields), ent, id)
            == Stamp(start, ent, id, fields)
  {
    var kept := Delete(rows, OfEntity(ent, id));
    var added := Stamp(start, ent, id, fields);
    var w := OfEntity(ent, id);
    assert Select(kept, w) == [] by {
      DeleteEntityGone(rows, ent, id);
    }
    assert Select(added, w) == added by {
      StampAllOf(start, ent, id, fields);
      SelectEverything(added, w);
    }
    SelectAppend(kept, added, w);
  }

  /** A delete-then-insert of one instance leaves every query that cannot match it alone. */
  lemma ReplacedFrame(rows: seq<Row>, start: nat, ent: string, id: int, fields: seq<(string, string)>, w: Where)
    requires w.ent != ent || (w.ids.Some? && id !in w.ids.value)
    ensures Select(Delete(rows, OfEntity(ent, id)) + Stamp(start, ent, id, fields), w) == Select(rows, w)
  {
    InsertInvisible(Delete(rows, OfEntity(ent, id)), start, ent, id, fields, w);
    DeleteEntityEffect(rows, ent, id, w);
  }

  /**
    After an update the dish's rows are the six body fields and `updated_at`
    and nothing else: an earlier `created_at`, or any other attribute, is gone.
  */
  lemma UpdateDishReplaces(rows: seq<Row>, start: nat, dishId: int, dish: DishIn, fmt: real -> string, now: string)
    ensures var after := Delete(rows, OfEntity("dish", dishId)) + Stamp(start, "dish", dishId, DishFields(dish, fmt, "updated_at", now));
      && EntityRows(after, "dish", dishId) == Stamp(start, "dish", dishId, DishFields(dish, fmt, "updated_at", now))
      && DictPivot(EntityRows(after, "dish", dishId)) == FieldMap(DishFields(dish, fmt, "updated_at", now))
      && "created_at" !in DictPivot(EntityRows(after, "dish", dishId))
  {
    var fields := DishFields(dish, fmt, "updated_at", now);
    ReplacedRows(rows, start, "dish", dishId, fields);
    DictPivotStamp(start, "dish", dishId, fields);
    NoCreatedAt(dish, fmt, now);
  }

  /** An updated dish has no `created_at` field: no name written by an update is "created_at". */
  lemma NoCreatedAt(dish: DishIn, fmt: real -> string, now: string)
    ensures "created_at" !in FieldMap(DishFields(dish, fmt, "updated_at", now))
  {
    var f := DishFields(dish, fmt, "updated_at", now);
    assert |f[0].0| == 4 && |f[1].0| == 5 && |f[2].0| == 11 && |f[3].0| == 8 && |f[4].0| == 9 && |f[5].0| == 9;
    assert f[6].0[0] == 'u' && "created_at"[0] == 'c' && |"created_at"| == 10;
  }

  /**
    `DELETE /admin/{ent_name}/{ent_id}`, and `DELETE /admin/dish/{dish_id}`
    with `ent_name` "dish": every row of the instance goes; it succeeds
    whether or not there were any.
  */
  method DeleteEntity(db: Store, ent: string, id: int)
    requires db.Valid()
    modifies db
    ensures db.Valid() && db.sysEnt == old(db.sysEnt) && db.nextValId == old(db.nextValId)
    ensures db.rows == Delete(old(db.rows), OfEntity(ent, id))
  {
    db.DeleteWhere(OfEntity(ent, id));
  }

  /** A delete removes exactly the instance's rows: a row survives iff it belongs to another instance. */
  lemma DeleteEntityExact(rows: seq<Row>, ent: string, id: int)
    ensures EntityRows(Delete(rows, OfEntity(ent, id)), ent, id) == []
    ensures forall x :: x in Delete(rows, OfEntity(ent, id)) <==> x in rows && (x.ent != ent || x.inst != id)
    ensures (forall x :: x in rows ==> x.ent != ent || x.inst != id) ==> Delete(rows, OfEntity(ent, id)) == rows
  {
    DeleteEntityGone(rows, ent, id);
    if forall x :: x in rows ==> x.ent != ent || x.inst != id {
      forall i | 0 <= i < |rows| ensures !Matches(rows[i], OfEntity(ent, id)) {
        assert rows[i] in rows;
      }
      DeleteNothing(rows, OfEntity(ent, id));
    }
  }

  // ---------------------------------------------------------------------
  // Categories
  // ---------------------------------------------------------------------

  /** `POST /admin/category`: one `name` row under the next category id. */
  method CreateCategory(db: Store, name: string) returns (catId: int)
    requires db.Valid()
    modifies db
    ensures db.Valid() && db.sysEnt == old(db.sysEnt)
    ensures catId == NextId(old(db.rows), "category")
    ensures db.rows == old(db.rows) + [Row(old(db.nextValId), "category", "name", catId, name)]
    ensures db.nextValId == old(db.nextValId) + 1
  {
    catId := NextId(db.rows, "category");
    db.InsertMany("category", catId, [("name", name)]);
  }

  /** `DELETE /admin/category/{name}`: the `name` rows of the categories with that name. */
  method DeleteCategory(db: Store, name: string)
    requires db.Valid()
    modifies db
    ensures db.Valid() && db.sysEnt == old(db.sysEnt) && db.nextValId == old(db.nextValId)
    ensures db.rows == Delete(old(db.rows), WithValue("category", "name", name))
  {
    db.DeleteWhere(WithValue("category", "name", name));
  }

  /**
    Deleting a category by name removes the `name` row of every category
    holding that name and nothing else.
  */
  lemma DeleteCategoryExact(rows: seq<Row>, name: string)
    ensures forall x :: x in Delete(rows, WithValue("category", "name", name)) <==>
              x in rows && !(x.ent == "category" && x.attr == "name" && x.value == name)
    ensures FindIds(Delete(rows, WithValue("category", "name", name)), "category", "name", name) == {}
  {
  }

  /**
    A category just created under the name is among those deleted: creating
    it and then deleting the name leaves the table the delete alone leaves.
  */
  lemma CreateThenDeleteCategory(rows: seq<Row>, valId: nat, catId: int, name: string)
    ensures var w := WithValue("category", "name", name);
      Delete(rows + [Row(valId, "category", "name", catId, name)], w) == Delete(rows, w)
  {
    var w := WithValue("category", "name", name);
    var x := Row(valId, "category", "name", catId, name);
    DeleteAppend(rows, [x], w);
    assert Delete([x], w) == [];
  }

  // ---------------------------------------------------------------------
  // GET /admin/{ent_name}/{ent_id}
  // ---------------------------------------------------------------------

  /** The dict the instance is read into, before its rows: its type and id. */
  function EntityHeader(ent: string, id: int): map<string, Value> {
    map["ent_name" := Str(ent), "ent_id" := Num(id)]
  }

  /**
    404 when the instance has no rows; otherwise `ent_name` and `ent_id`
    followed by every attribute, a later row overwriting an earlier one and
    a row named `ent_name` or `ent_id` overwriting the header.
  */
  function EntityOf(rows: seq<Row>, ent: string, id: int): (r: Result<map<string, Value>>)
    ensures r.Err? <==> forall x :: x in rows ==> x.ent != ent || x.inst != id
    ensures r.Err? ==> r.status == NotFound
    ensures r.Ok? ==> forall k :: k in r.value <==>
              k == "ent_name" || k == "ent_id" || exists x :: x in rows && x.ent == ent && x.inst == id && x.attr == k
  {
    var rs := EntityRows(rows, ent, id);
    SelectPivotKeys(rows, OfEntity(ent, id));
    if rs == [] then Err(NotFound)
    else
      assert rs[0] in rs;
      Ok(EntityHeader(ent, id) + AsText(DictPivot(rs)))
  }

  /** The endpoint: fetch the instance's rows, then fill the dict row by row. */
  method GetEntity(db: Store, ent: string, id: int) returns (r: Result<map<string, Value>>)
    ensures r == EntityOf(db.rows, ent, id)
  {
    var rs := EntityRows(db.rows, ent, id);
    if rs == [] {
      return Err(NotFound);
    }
    var result := FillDict(EntityHeader(ent, id), rs);
    r := Ok(result);
  }

  /** Each attribute shows the value of the instance's last row with that name. */
  lemma EntityLastWins(rows: seq<Row>, ent: string, id: int, i: nat)
    requires i < |rows| && rows[i].ent == ent && rows[i].inst == id
    requires forall j :: i < j < |rows| && rows[j].ent == ent && rows[j].inst == id ==> rows[j].attr != rows[i].attr
    ensures EntityOf(rows, ent, id).Ok?
    ensures rows[i].attr in EntityOf(rows, ent, id).value
    ensures EntityOf(rows, ent, id).value[rows[i].attr] == Str(rows[i].value)
  {
    assert rows[i] in rows;
    SelectPivotLastWins(rows, OfEntity(ent, id), i);
  }

  /** Without rows named after them, `ent_name` and `ent_id` are the requested type and id. */
  lemma EntityHeaderKept(rows: seq<Row>, ent: string, id: int)
    requires EntityOf(rows, ent, id).Ok?
    requires forall x :: x in rows && x.ent == ent && x.inst == id ==> x.attr != "ent_name" && x.attr != "ent_id"
    ensures EntityOf(rows, ent, id).value["ent_name"] == Str(ent)
    ensures EntityOf(rows, ent, id).value["ent_id"] == Num(id)
  {
    var rs := EntityRows(rows, ent, id);
    var m := DictPivot(rs);
    forall k | k in m ensures k != "ent_name" && k != "ent_id" {
      var i :| 0 <= i < |rs| && rs[i].attr == k;
      assert rs[i] in rs;
    }
  }

  // ---------------------------------------------------------------------
  // PUT /admin/{ent_name}/{ent_id}
  // ---------------------------------------------------------------------

  /** The rows a replace writes: the supplied fields in dict order, then `updated_at`. */
  function UpdateItems(fields: seq<(string, string)>, now: string): seq<(string, string)> {
    fields + [("updated_at", now)]
  }

  /**
    `PUT /admin/{ent_name}/{ent_id}`: every row of the instance is deleted,
    then the supplied fields and `updated_at` are written under the same id.
  */
  method UpdateEntity(db: Store, ent: string, id: int, fields: seq<(string, string)>, now: string)
    requires db.Valid()
    modifies db
    ensures db.Valid() && db.sysEnt == old(db.sysEnt)
    ensures db.rows == Delete(old(db.rows), OfEntity(ent, id)) + Stamp(old(db.nextValId), ent, id, UpdateItems(fields, now))
    ensures db.nextValId == old(db.nextValId) + |UpdateItems(fields, now)|
  {
    db.DeleteWhere(OfEntity(ent, id));
    db.InsertMany(ent, id, UpdateItems(fields, now));
  }

  /** The dict of the rows a replace writes: the supplied fields, then `updated_at` over them. */
  lemma UpdateItemsMap(fields: seq<(string, string)>, now: string)
    ensures FieldMap(UpdateItems(fields, now)) == FieldMap(fields)["updated_at" := now]
    ensures forall k :: k in FieldMap(UpdateItems(fields, now)) <==>
              k == "updated_at" || exists i :: 0 <= i < |fields| && fields[i].0 == k
  {
    var items := UpdateItems(fields, now);
    assert items[..|items| - 1] == fields;
  }

  /**
    Replace then read: the instance exists afterwards even if it did not
    before, and reads back as the header with exactly the rows just
    written over it: the supplied fields and `updated_at` (UpdateItemsMap),
    so an attribute not resupplied is gone.
  */
  lemma UpdateThenGet(rows: seq<Row>, start: nat, ent: string, id: int, fields: seq<(string, string)>, now: string)
    ensures var after := Delete(rows, OfEntity(ent, id)) + Stamp(start, ent, id, UpdateItems(fields, now));
      EntityOf(after, ent, id) == Ok(EntityHeader(ent, id) + AsText(FieldMap(UpdateItems(fields, now))))
  {
    var items := UpdateItems(fields, now);
    var after := Delete(rows, OfEntity(ent, id)) + Stamp(start, ent, id, items);
    ReplacedRows(rows, start, ent, id, items);
    DictPivotStamp(start, ent, id, items);
    var st := Stamp(start, ent, id, items);
    assert st[|fields|] in EntityRows(after, ent, id);
  }

  /** A replace leaves every other instance's rows alone. */
  lemma UpdateEntityFrame(rows: seq<Row>, start: nat, ent: string, id: int, fields: seq<(string, string)>, now: string,
                          other: string, otherId: int)
    requires other != ent || otherId != id
    ensures var after := Delete(rows, OfEntity(ent, id)) + Stamp(start, ent, id, UpdateItems(fields, now));
      EntityRows(after, other, otherId) == EntityRows(rows, other, otherId)
  {
    ReplacedFrame(rows, start, ent, id, UpdateItems(fields, now), OfEntity(other, otherId));
  }

  // ---------------------------------------------------------------------
  // GET /admin/{ent_name}
  // ---------------------------------------------------------------------

  /** One list entry: the MAX(CASE ...) of `name`, `title` and `created_at`, NULL when absent. */
  datatype EntitySummary = EntitySummary(instId: int, name: Option<string>, title: Option<string>, createdAt: Option<string>)

  function EntitySummaryOf(rows: seq<Row>, ent: string, id: int): (s: EntitySummary)
    ensures s.instId == id
    ensures var rs := EntityRows(rows, ent, id);
      IsMax(rs, "name", s.name) && IsMax(rs, "title", s.title) && IsMax(rs, "created_at", s.createdAt)
  {
    var rs := EntityRows(rows, ent, id);
    EntitySummary(id, MaxOf(rs, "name"), MaxOf(rs, "title"), MaxOf(rs, "created_at"))
  }

  /**
    `... WHERE ent_name = ? GROUP BY ent_instance_id ORDER BY ent_instance_id DESC`:
    one entry per instance of the type, highest id first.
  */
  function GetEntityList(rows: seq<Row>, ent: string): (list: seq<EntitySummary>)
    ensures forall i, j :: 0 <= i < j < |list| ==> list[i].instId > list[j].instId
    ensures forall id :: id in InstanceIds(rows, ent) <==> exists i :: 0 <= i < |list| && list[i].instId == id
    ensures forall i :: 0 <= i < |list| ==> list[i] == EntitySummaryOf(rows, ent, list[i].instId)
  {
    var asc := TypeGroups(rows, ent);
    ReverseAscending(asc);
    var ids := Reverse(asc);
    var list := seq(|ids|, i requires 0 <= i < |ids| => EntitySummaryOf(rows, ent, ids[i]));
    assert forall i :: 0 <= i < |list| ==> list[i].instId == ids[i];
    forall id | id in ids ensures exists i :: 0 <= i < |list| && list[i].instId == id {
      var i :| 0 <= i < |ids| && ids[i] == id;
      assert list[i].instId == id;
    }
    list
  }

  // ---------------------------------------------------------------------
  // t_sys_ent
  // ---------------------------------------------------------------------

  /** The catalogue without the entries of one name, in their order. */
  function WithoutName(cat: seq<(string, string)>, name: string): (r: seq<(string, string)>)
    ensures |r| <= |cat|
    ensures forall p :: p in r <==> p in cat && p.0 != name
  {
    if cat == [] then []
    else (if cat[0].0 == name then [] else [cat[0]]) + WithoutName(cat[1..], name)
  }

  /** `POST /admin/_ent`: one catalogue entry appended; the attribute table is untouched. */
  method CreateSysEnt(db: Store, name: string, app: string)
    requires db.Valid()
    modifies db
    ensures db.Valid() && db.rows == old(db.rows) && db.nextValId == old(db.nextValId)
    ensures db.sysEnt == old(db.sysEnt) + [(name, app)]
  {
    db.sysEnt := db.sysEnt + [(name, app)];
  }

  /** `DELETE /admin/_ent/{ent_name}`: every catalogue entry of that name goes; the attribute table is untouched. */
  method DeleteSysEnt(db: Store, name: string)
    requires db.Valid()
    modifies db
    ensures db.Valid() && db.rows == old(db.rows) && db.nextValId == old(db.nextValId)
    ensures db.sysEnt == WithoutName(old(db.sysEnt), name)
  {
    db.sysEnt := WithoutName(db.sysEnt, name);
  }

  /** Registering a name then deleting it leaves the other names' entries as they were. */
  lemma {:induction false} SysEntRoundTrip(cat: seq<(string, string)>, name: string, app: string)
    ensures WithoutName(cat + [(name, app)], name) == WithoutName(cat, name)
  {
    if cat == [] {
      assert WithoutName([(name, app)][1..], name) == [];
    } else {
      assert (cat + [(name, app)])[1..] == cat[1..] + [(name, app)];
      SysEntRoundTrip(cat[1..], name, app);
    }
  }
}
