/** The news endpoints: publications stored as `news` instances. */
module News {
  import opened Wrappers
  import opened Sorting
  import opened Eav

  /** The request body; a missing `type`, `image_url` or `tags` takes its declared default. */
  datatype NewsIn = NewsIn(title: string, body: string, kind: Option<string>, imageUrl: Option<string>, tags: Option<string>)

  /** The six rows a publication is stored as; `now` is `datetime.now().isoformat()`. */
  function NewsFields(data: NewsIn, now: string): seq<(string, string)> {
    [ ("title", data.title), ("body", data.body), ("type", data.kind.GetOr("news")),
      ("image_url", data.imageUrl.GetOr("")), ("tags", data.tags.GetOr("")), ("created_at", now) ]
  }

  /** `POST /news`: stores the publication under the next news id and returns that id. */
  method CreateNews(db: Store, data: NewsIn, now: string) returns (newsId: int)
    requires db.Valid()
    modifies db
    ensures db.Valid()
    ensures newsId == NextId(old(db.rows), "news")
    ensures db.rows == old(db.rows) + Stamp(old(db.nextValId), "news", newsId, NewsFields(data, now))
    ensures db.nextValId == old(db.nextValId) + |NewsFields(data, now)|
    ensures db.sysEnt == old(db.sysEnt)
  {
    newsId := NextId(db.rows, "news");
    db.InsertMany("news", newsId, NewsFields(data, now));
  }

  // ---------------------------------------------------------------------
  // GET /news
  // ---------------------------------------------------------------------

  datatype NewsRecord = NewsRecord(
    newsId: int, title: Option<string>, body: Option<string>, kind: Option<string>,
    imageUrl: Option<string>, tags: Option<string>, createdAt: Option<string>)

  /** The MAX(CASE ...) pivot of one news instance. */
  function NewsRecordOf(rows: seq<Row>, id: int): (n: NewsRecord)
    ensures n.newsId == id
    ensures IsMax(EntityRows(rows, "news", id), "created_at", n.createdAt)
  {
    var rs := EntityRows(rows, "news", id);
    NewsRecord(id, MaxOf(rs, "title"), MaxOf(rs, "body"), MaxOf(rs, "type"),
               MaxOf(rs, "image_url"), MaxOf(rs, "tags"), MaxOf(rs, "created_at"))
  }

  function CreatedAt(n: NewsRecord): Option<string> {
    n.createdAt
  }

  function NewsIdOf(n: NewsRecord): int {
    n.newsId
  }

  /**
    `... WHERE ent_name = 'news' GROUP BY ent_instance_id ORDER BY created_at DESC`:
    one record per news instance, newest first (NULL last); instances with
    equal dates stay in id order.
  */
  function GetAllNews(rows: seq<Row>): (all: seq<NewsRecord>)
    ensures SortedBy(all, CreatedAt, true)
    ensures DistinctBy(all, NewsIdOf)
    ensures forall id :: id in InstanceIds(rows, "news") <==> exists i :: 0 <= i < |all| && all[i].newsId == id
    ensures forall i :: 0 <= i < |all| ==> all[i] == NewsRecordOf(rows, all[i].newsId)
  {
    var ids := TypeGroups(rows, "news");
    AscendingNoDuplicates(ids);
    var f := (id: int) => NewsRecordOf(rows, id);
    SortedRecords(ids, f, NewsIdOf, CreatedAt, true);
    SortBy(Records(ids, f), CreatedAt, true)
  }

  // ---------------------------------------------------------------------
  // GET /news/{news_id}
  // ---------------------------------------------------------------------

  /**
    404 when the instance has no rows; otherwise `news_id` followed by
    every attribute of the instance, later rows overwriting earlier ones.
  */
  function NewsItemOf(rows: seq<Row>, newsId: int): (r: Result<map<string, Value>>)
    ensures r.Err? <==> forall x :: x in rows ==> x.ent != "news" || x.inst != newsId
    ensures r.Err? ==> r.status == NotFound
    ensures r.Ok? ==> forall k :: k in r.value <==>
              k == "news_id" || exists x :: x in rows && x.ent == "news" && x.inst == newsId && x.attr == k
  {
    var rs := EntityRows(rows, "news", newsId);
    SelectPivotKeys(rows, OfEntity("news", newsId));
    if rs == [] then Err(NotFound)
    else
      assert rs[0] in rs;
      Ok(map["news_id" := Num(newsId)] + AsText(DictPivot(rs)))
  }

  /** The endpoint: fetch the instance's rows, then fill the dict row by row. */
  method GetNewsItem(db: Store, newsId: int) returns (r: Result<map<string, Value>>)
    ensures r == NewsItemOf(db.rows, newsId)
  {
    var rs := EntityRows(db.rows, "news", newsId);
    if rs == [] {
      return Err(NotFound);
    }
    var result := FillDict(map["news_id" := Num(newsId)], rs);
    r := Ok(result);
  }

  /**
    Each attribute shows the value of the instance's last row with that
    name; `news_id` is the requested id unless a row named news_id overrides it.
  */
  lemma NewsItemLastWins(rows: seq<Row>, newsId: int, i: nat)
    requires i < |rows| && rows[i].ent == "news" && rows[i].inst == newsId
    requires forall j :: i < j < |rows| && rows[j].ent == "news" && rows[j].inst == newsId ==> rows[j].attr != rows[i].attr
    ensures NewsItemOf(rows, newsId).Ok?
    ensures rows[i].attr in NewsItemOf(rows, newsId).value
    ensures NewsItemOf(rows, newsId).value[rows[i].attr] == Str(rows[i].value)
  {
    assert rows[i] in rows;
    SelectPivotLastWins(rows, OfEntity("news", newsId), i);
  }

  lemma NewsFieldsMap(data: NewsIn, now: string)
    ensures FieldMap(NewsFields(data, now)) == map[
      "title" := data.title, "body" := data.body, "type" := data.kind.GetOr("news"),
      "image_url" := data.imageUrl.GetOr(""), "tags" := data.tags.GetOr(""), "created_at" := now]
  {
    var f := NewsFields(data, now);
    var f1, f2, f3, f4, f5 := f[..1], f[..2], f[..3], f[..4], f[..5];
    assert f1[..0] == [] && f2[..1] == f1 && f3[..2] == f2 && f4[..3] == f3 && f5[..4] == f4;
    assert FieldMap(f1) == map["title" := data.title];
    assert FieldMap(f2) == FieldMap(f1)["body" := data.body];
    assert FieldMap(f3) == FieldMap(f2)["type" := data.kind.GetOr("news")];
    assert FieldMap(f4) == FieldMap(f3)["image_url" := data.imageUrl.GetOr("")];
    assert FieldMap(f5) == FieldMap(f4)["tags" := data.tags.GetOr("")];
    assert FieldMap(f) == FieldMap(f5)["created_at" := now];
  }

  /** The dict GET /news/{id} builds from the six stored fields. */
  function Published(id: int, data: NewsIn, now: string): map<string, Value> {
    map[
      "news_id" := Num(id), "title" := Str(data.title), "body" := Str(data.body),
      "type" := Str(data.kind.GetOr("news")), "image_url" := Str(data.imageUrl.GetOr("")),
      "tags" := Str(data.tags.GetOr("")), "created_at" := Str(now)]
  }

  lemma NewsItemMap(id: int, data: NewsIn, now: string)
    ensures map["news_id" := Num(id)] + AsText(FieldMap(NewsFields(data, now))) == Published(id, data, now)
  {
    NewsFieldsMap(data, now);
    var b := map["news_id" := Num(id)];
    var m0: map<string, string> := map[];
    var m1 := m0["title" := data.title];
    var m2 := m1["body" := data.body];
    var m3 := m2["type" := data.kind.GetOr("news")];
    var m4 := m3["image_url" := data.imageUrl.GetOr("")];
    var m5 := m4["tags" := data.tags.GetOr("")];
    assert b + AsText(m0) == b;
    AsTextUpdate(b, m0, "title", data.title);
    AsTextUpdate(b, m1, "body", data.body);
    AsTextUpdate(b, m2, "type", data.kind.GetOr("news"));
    AsTextUpdate(b, m3, "image_url", data.imageUrl.GetOr(""));
    AsTextUpdate(b, m4, "tags", data.tags.GetOr(""));
    AsTextUpdate(b, m5, "created_at", now);
  }

  /** Create then read: the item reads back with every field as published, `type` defaulting to "news". */
  lemma CreateNewsRoundTrip(rows: seq<Row>, start: nat, data: NewsIn, now: string)
    ensures var id := NextId(rows, "news");
      NewsItemOf(rows + Stamp(start, "news", id, NewsFields(data, now)), id) == Ok(Published(id, data, now))
  {
    var id := NextId(rows, "news");
    var fields := NewsFields(data, now);
    ReadBack(rows, start, "news", fields);
    InsertedEntity(rows, start, "news", fields);
    assert EntityRows(rows + Stamp(start, "news", id, fields), "news", id) != [];
    NewsItemMap(id, data, now);
  }

  /** Publishing adds exactly one record to the list, the new one. */
  lemma CreateNewsListed(rows: seq<Row>, start: nat, data: NewsIn, now: string)
    ensures var id := NextId(rows, "news");
      var after := rows + Stamp(start, "news", id, NewsFields(data, now));
      && id !in InstanceIds(rows, "news")
      && InstanceIds(after, "news") == InstanceIds(rows, "news") + {id}
  {
    var id := NextId(rows, "news");
    var added := Stamp(start, "news", id, NewsFields(data, now));
    StampAllOf(start, "news", id, NewsFields(data, now));
    assert added[0] in added;
  }
}
