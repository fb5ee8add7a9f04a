/** The contact endpoints: the contact_info key/value rows and support messages. */
module Contact {
  import opened Wrappers
  import opened Eav

  /** `GET /contact_info`: `{attr_name: value}` over the contact_info rows, later rows winning. */
  function GetContactInfo(rows: seq<Row>): (info: map<string, string>)
    ensures forall k :: k in info <==> exists x :: x in rows && x.ent == "contact_info" && x.attr == k
  {
    SelectPivotKeys(rows, OfType("contact_info"));
    DictPivot(Select(rows, OfType("contact_info")))
  }

  /** The value shown for a key is that of the last contact_info row with it. */
  lemma ContactInfoLastWins(rows: seq<Row>, i: nat)
    requires i < |rows| && rows[i].ent == "contact_info"
    requires forall j :: i < j < |rows| && rows[j].ent == "contact_info" ==> rows[j].attr != rows[i].attr
    ensures GetContactInfo(rows)[rows[i].attr] == rows[i].value
  {
    SelectPivotLastWins(rows, OfType("contact_info"), i);
  }

  datatype ContactMessageIn = ContactMessageIn(name: string, phone: string, message: string)

  /** The four rows a support message is stored as; `now` is `datetime.now().isoformat()`. */
  function MessageFields(data: ContactMessageIn, now: string): seq<(string, string)> {
    [("name", data.name), ("phone", data.phone), ("message", data.message), ("created_at", now)]
  }

  /** `POST /contact_message`: stores the message under the next support_message id and returns that id. */
  method ContactMessage(db: Store, data: ContactMessageIn, now: string) returns (msgId: int)
    requires db.Valid()
    modifies db
    ensures db.Valid()
    ensures msgId == NextId(old(db.rows), "support_message")
    ensures db.rows == old(db.rows) + Stamp(old(db.nextValId), "support_message", msgId, MessageFields(data, now))
    ensures db.nextValId == old(db.nextValId) + |MessageFields(data, now)|
    ensures db.sysEnt == old(db.sysEnt)
  {
    msgId := NextId(db.rows, "support_message");
    db.InsertMany("support_message", msgId, MessageFields(data, now));
  }

  /**
    The message is stored under an id no earlier row held, as exactly the
    four rows written; every older row is kept in place and every query on
    another type sees what it saw before.
  */
  lemma ContactMessageAppends(rows: seq<Row>, start: nat, data: ContactMessageIn, now: string, w: Where)
    requires w.ent != "support_message"
    ensures var id := NextId(rows, "support_message");
      var after := rows + Stamp(start, "support_message", id, MessageFields(data, now));
      && (forall x :: x in rows && x.ent == "support_message" ==> x.inst != id)
      && after[..|rows|] == rows
      && EntityRows(after, "support_message", id) == Stamp(start, "support_message", id, MessageFields(data, now))
      && Select(after, w) == Select(rows, w)
  {
    var id := NextId(rows, "support_message");
    InsertedEntity(rows, start, "support_message", MessageFields(data, now));
    InsertInvisible(rows, start, "support_message", id, MessageFields(data, now), w);
  }

  /** Reading the stored instance back gives the message as sent. */
  lemma ContactMessageReadBack(rows: seq<Row>, start: nat, data: ContactMessageIn, now: string)
    ensures var id := NextId(rows, "support_message");
      var after := rows + Stamp(start, "support_message", id, MessageFields(data, now));
      DictPivot(EntityRows(after, "support_message", id))
        == map["name" := data.name, "phone" := data.phone, "message" := data.message, "created_at" := now]
  {
    ReadBack(rows, start, "support_message", MessageFields(data, now));
    MessageFieldsMap(data, now);
  }

  lemma MessageFieldsMap(data: ContactMessageIn, now: string)
    ensures FieldMap(MessageFields(data, now))
      == map["name" := data.name, "phone" := data.phone, "message" := data.message, "created_at" := now]
  {
    var f := MessageFields(data, now);
    var f1, f2, f3 := f[..1], f[..2], f[..3];
    assert f1[..0] == [] && f2[..1] == f1 && f3[..2] == f2;
    assert FieldMap(f1) == map["name" := data.name];
    assert FieldMap(f2) == FieldMap(f1)["phone" := data.phone];
    assert FieldMap(f3) == FieldMap(f2)["message" := data.message];
    assert FieldMap(f) == FieldMap(f3)["created_at" := now];
  }
}
