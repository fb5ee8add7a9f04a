/**
  The attribute store: the single table t_sys_attr_values of rows
  (val_id, ent_name, attr_name, ent_instance_id, value), the statements the
  endpoints run against it, and the two ways rows are pivoted back into
  records (SQL `MAX(CASE ...)` and a Python dict built row by row).

  The table is a sequence in rowid order; a SELECT without ORDER BY returns
  rows in that order, `fetchone` takes the first of them.
*/
module Eav {
  import opened Wrappers
  import opened Text
  import opened Sorting

  /** One physical row. `valId` is the store-assigned row identifier. */
  datatype Row = Row(valId: nat, ent: string, attr: string, inst: int, value: string)

  /**
    The WHERE clause of one statement: `ent_name = ent`, and when present
    `attr_name = attr`, `ent_instance_id IN ids`, `value = value`.
  */
  datatype Where = Where(ent: string, attr: Option<string>, ids: Option<set<int>>, value: Option<string>)

  predicate Matches(r: Row, w: Where) {
    && r.ent == w.ent
    && (w.attr.Some? ==> r.attr == w.attr.value)
    && (w.ids.Some? ==> r.inst in w.ids.value)
    && (w.value.Some? ==> r.value == w.value.value)
  }

  /** WHERE ent_name = ent */
  function OfType(ent: string): Where {
    Where(ent, None, None, None)
  }

  /** WHERE ent_name = ent AND ent_instance_id = id */
  function OfEntity(ent: string, id: int): Where {
    Where(ent, None, Some({id}), None)
  }

  /** WHERE ent_name = ent AND ent_instance_id IN (ids) */
  function OfEntities(ent: string, ids: set<int>): Where {
    Where(ent, None, Some(ids), None)
  }

  /** WHERE ent_name = ent AND attr_name = attr AND value = v */
  function WithValue(ent: string, attr: string, v: string): Where {
    Where(ent, Some(attr), None, Some(v))
  }

  /** WHERE ent_name = ent AND attr_name = attr AND ent_instance_id IN (ids) */
  function AttrIn(ent: string, attr: string, ids: set<int>): Where {
    Where(ent, Some(attr), Some(ids), None)
  }

  // ---------------------------------------------------------------------
  // SELECT and DELETE
  // ---------------------------------------------------------------------

  /** The rows `SELECT ... WHERE w` returns, in table order. */
  function Select(rows: seq<Row>, w: Where): (r: seq<Row>)
    ensures |r| <= |rows|
    ensures forall x :: x in r <==> x in rows && Matches(x, w)
  {
    if rows == [] then [] else (if Matches(rows[0], w) then [rows[0]] else []) + Select(rows[1..], w)
  }

  /** The rows left by `DELETE ... WHERE w`, in table order. */
  function Delete(rows: seq<Row>, w: Where): (r: seq<Row>)
    ensures |r| <= |rows|
    ensures forall x :: x in r <==> x in rows && !Matches(x, w)
  {
    if rows == [] then [] else (if Matches(rows[0], w) then [] else [rows[0]]) + Delete(rows[1..], w)
  }

  lemma {:induction false} SelectAppend(a: seq<Row>, b: seq<Row>, w: Where)
    ensures Select(a + b, w) == Select(a, w) + Select(b, w)
  {
    if a == [] {
      assert a + b == b;
    } else {
      assert (a + b)[1..] == a[1..] + b;
      SelectAppend(a[1..], b, w);
    }
  }

  lemma {:induction false} DeleteAppend(a: seq<Row>, b: seq<Row>, w: Where)
    ensures Delete(a + b, w) == Delete(a, w) + Delete(b, w)
  {
    if a == [] {
      assert a + b == b;
    } else {
      assert (a + b)[1..] == a[1..] + b;
      DeleteAppend(a[1..], b, w);
    }
  }

  lemma {:induction false} SelectNothing(rows: seq<Row>, w: Where)
    requires forall x :: x in rows ==> !Matches(x, w)
    ensures Select(rows, w) == []
  {
    if rows != [] {
      assert rows[0] in rows;
      SelectNothing(rows[1..], w);
    }
  }

  lemma {:induction false} SelectEverything(rows: seq<Row>, w: Where)
    requires forall x :: x in rows ==> Matches(x, w)
    ensures Select(rows, w) == rows
  {
    if rows != [] {
      assert rows[0] in rows;
      SelectEverything(rows[1..], w);
      assert rows == [rows[0]] + rows[1..];
    }
  }

  lemma {:induction false} DeleteNothing(rows: seq<Row>, w: Where)
    requires forall x :: x in rows ==> !Matches(x, w)
    ensures Delete(rows, w) == rows
  {
    if rows != [] {
      assert rows[0] in rows;
      DeleteNothing(rows[1..], w);
      assert rows == [rows[0]] + rows[1..];
    }
  }

  lemma {:induction false} DeleteEverything(rows: seq<Row>, w: Where)
    requires forall x :: x in rows ==> Matches(x, w)
    ensures Delete(rows, w) == []
  {
    if rows != [] {
      assert rows[0] in rows;
      DeleteEverything(rows[1..], w);
    }
  }

  /** A DELETE leaves every row another query selects untouched when no row can match both. */
  lemma {:induction false} SelectAfterDelete(rows: seq<Row>, d: Where, w: Where)
    requires forall x :: Matches(x, w) ==> !Matches(x, d)
    ensures Select(Delete(rows, d), w) == Select(rows, w)
  {
    if rows != [] {
      SelectAfterDelete(rows[1..], d, w);
      assert Select(rows, w) == (if Matches(rows[0], w) then [rows[0]] else []) + Select(rows[1..], w);
      if Matches(rows[0], d) {
        assert !Matches(rows[0], w);
        assert Delete(rows, d) == [] + Delete(rows[1..], d);
        assert [] + Delete(rows[1..], d) == Delete(rows[1..], d);
      } else {
        var kept := Delete(rows[1..], d);
        assert Delete(rows, d) == [rows[0]] + kept;
        assert ([rows[0]] + kept)[1..] == kept;
        assert Select([rows[0]] + kept, w) == (if Matches(rows[0], w) then [rows[0]] else []) + Select(kept, w);
      }
    }
  }

  /** A row of another type never matches. */
  lemma OtherTypeNeverMatches(w: Where, d: Where)
    requires w.ent != d.ent
    ensures forall x :: Matches(x, w) ==> !Matches(x, d)
  {
  }

  // ---------------------------------------------------------------------
  // INSERT and UPDATE
  // ---------------------------------------------------------------------

  /**
    The rows `executemany("INSERT ... VALUES (ent, ?, id, ?)", fields)`
    appends when the next free row identifier is `start`.
  */
  function Stamp(start: nat, ent: string, id: int, fields: seq<(string, string)>): (r: seq<Row>)
    ensures |r| == |fields|
    ensures forall i :: 0 <= i < |r| ==> r[i] == Row(start + i, ent, fields[i].0, id, fields[i].1)
  {
    seq(|fields|, i requires 0 <= i < |fields| => Row(start + i, ent, fields[i].0, id, fields[i].1))
  }

  lemma StampAllOf(start: nat, ent: string, id: int, fields: seq<(string, string)>)
    ensures forall x :: x in Stamp(start, ent, id, fields) ==> x.ent == ent && x.inst == id
  {
    var s := Stamp(start, ent, id, fields);
    forall x | x in s ensures x.ent == ent && x.inst == id {
      var i :| 0 <= i < |s| && s[i] == x;
    }
  }

  lemma StampSplit(start: nat, ent: string, id: int, f: seq<(string, string)>, g: seq<(string, string)>)
    ensures Stamp(start, ent, id, f + g) == Stamp(start, ent, id, f) + Stamp(start + |f|, ent, id, g)
  {
    assert Stamp(start, ent, id, f + g) == Stamp(start, ent, id, f) + Stamp(start + |f|, ent, id, g);
  }

  /** The rows after `UPDATE ... SET value = v WHERE val_id = valId`. */
  function SetValue(rows: seq<Row>, valId: nat, v: string): (r: seq<Row>)
    ensures |r| == |rows|
    ensures forall i :: 0 <= i < |rows| ==> r[i] == if rows[i].valId == valId then rows[i].(value := v) else rows[i]
  {
    seq(|rows|, i requires 0 <= i < |rows| => if rows[i].valId == valId then rows[i].(value := v) else rows[i])
  }

  /** Updating a row of another type leaves what `w` selects alone. */
  lemma {:induction false} SetValueInvisible(rows: seq<Row>, valId: nat, v: string, w: Where)
    requires forall x :: x in rows && x.valId == valId ==> x.ent != w.ent
    ensures Select(SetValue(rows, valId, v), w) == Select(rows, w)
  {
    if rows != [] {
      var r := SetValue(rows, valId, v);
      assert r[1..] == SetValue(rows[1..], valId, v);
      assert rows[0] in rows;
      SetValueInvisible(rows[1..], valId, v, w);
    }
  }

  /** A DELETE of one instance removes all its rows. */
  lemma DeleteEntityGone(rows: seq<Row>, ent: string, id: int)
    ensures EntityRows(Delete(rows, OfEntity(ent, id)), ent, id) == []
  {
    SelectNothing(Delete(rows, OfEntity(ent, id)), OfEntity(ent, id));
  }

  /** A DELETE of one instance leaves every query that cannot match it alone. */
  lemma DeleteEntityEffect(rows: seq<Row>, ent: string, id: int, w: Where)
    requires w.ent != ent || (w.ids.Some? && id !in w.ids.value)
    ensures Select(Delete(rows, OfEntity(ent, id)), w) == Select(rows, w)
  {
    SelectAfterDelete(rows, OfEntity(ent, id), w);
  }

  // ---------------------------------------------------------------------
  // fetchone, instance ids and id allocation
  // ---------------------------------------------------------------------

  /** `fetchone()` on `SELECT ... WHERE w`: the first matching row in table order. */
  function FirstRow(rows: seq<Row>, w: Where): (r: Option<Row>)
    ensures r.None? <==> forall i :: 0 <= i < |rows| ==> !Matches(rows[i], w)
    ensures r.Some? ==> exists i :: 0 <= i < |rows| && rows[i] == r.value && Matches(rows[i], w)
                         && forall j :: 0 <= j < i ==> !Matches(rows[j], w)
  {
    if rows == [] then None
    else if Matches(rows[0], w) then Some(rows[0])
    else
      var r := FirstRow(rows[1..], w);
      if r.Some? then
        var i :| 0 <= i < |rows[1..]| && rows[1..][i] == r.value && Matches(rows[1..][i], w)
                 && forall j :: 0 <= j < i ==> !Matches(rows[1..][j], w);
        assert rows[i + 1] == r.value;
        assert forall j :: 0 <= j < i + 1 ==> !Matches(rows[j], w) by {
          forall j | 0 <= j < i + 1 ensures !Matches(rows[j], w) {
            if j > 0 {
              assert rows[j] == rows[1..][j - 1];
            }
          }
        }
        r
      else
        assert forall i :: 0 <= i < |rows| ==> !Matches(rows[i], w) by {
          forall i | 0 <= i < |rows| ensures !Matches(rows[i], w) {
            if i > 0 {
              assert rows[i] == rows[1..][i - 1];
            }
          }
        }
        r
  }

  /** The first matching row is the one no earlier row precedes. */
  lemma FirstRowAt(rows: seq<Row>, w: Where, i: nat)
    requires i < |rows| && Matches(rows[i], w)
    requires forall j :: 0 <= j < i ==> !Matches(rows[j], w)
    ensures FirstRow(rows, w) == Some(rows[i])
  {
    var r := FirstRow(rows, w);
    var k :| 0 <= k < |rows| && rows[k] == r.value && Matches(rows[k], w)
             && forall j :: 0 <= j < k ==> !Matches(rows[j], w);
    assert k == i;
  }

  /**
    fetchone() after appending freshly stamped rows that no old row competes
    with: the first field whose row matches.
  */
  lemma FirstStampRow(rows: seq<Row>, start: nat, ent: string, id: int, fields: seq<(string, string)>, w: Where, k: nat)
    requires forall x :: x in rows ==> !Matches(x, w)
    requires k < |fields| && Matches(Row(start + k, ent, fields[k].0, id, fields[k].1), w)
    requires forall j :: 0 <= j < k ==> !Matches(Row(start + j, ent, fields[j].0, id, fields[j].1), w)
    ensures FirstRow(rows + Stamp(start, ent, id, fields), w) == Some(Row(start + k, ent, fields[k].0, id, fields[k].1))
  {
    var s := Stamp(start, ent, id, fields);
    FirstRowAt(s, w, k);
    NoRowMatches(rows, w);
    FirstRowAppend(rows, s, w);
  }

  /** fetchone() finds nothing when no row matches. */
  lemma NoRowMatches(rows: seq<Row>, w: Where)
    requires forall x :: x in rows ==> !Matches(x, w)
    ensures FirstRow(rows, w).None?
  {
    forall i | 0 <= i < |rows| ensures !Matches(rows[i], w) {
      assert rows[i] in rows;
    }
  }

  lemma {:induction false} FirstRowAppend(a: seq<Row>, b: seq<Row>, w: Where)
    ensures FirstRow(a + b, w) == if FirstRow(a, w).Some? then FirstRow(a, w) else FirstRow(b, w)
  {
    if a == [] {
      assert a + b == b;
    } else {
      assert (a + b)[1..] == a[1..] + b;
      FirstRowAppend(a[1..], b, w);
    }
  }

  /** `cursor.fetchone()["ent_instance_id"]` on a row lookup, or None when nothing matched. */
  function FirstInst(rows: seq<Row>, w: Where): Option<int> {
    match FirstRow(rows, w)
    case Some(r) => Some(r.inst)
    case None => None
  }

  /** `SELECT value ... WHERE ent_name = ent AND attr_name = attr AND ent_instance_id = id`, fetchone. */
  function FirstValue(rows: seq<Row>, ent: string, attr: string, id: int): Option<string> {
    match FirstRow(rows, AttrIn(ent, attr, {id}))
    case Some(r) => Some(r.value)
    case None => None
  }

  /** The instance ids of some rows, as a set (`ent_instance_id IN (SELECT ...)`). */
  function Insts(rs: seq<Row>): (s: set<int>)
    ensures forall y :: y in s <==> exists x :: x in rs && x.inst == y
  {
    set x | x in rs :: x.inst
  }

  /** The instance ids of some rows, in table order. */
  function InstList(rs: seq<Row>): (s: seq<int>)
    ensures |s| == |rs|
    ensures forall i :: 0 <= i < |rs| ==> s[i] == rs[i].inst
  {
    seq(|rs|, i requires 0 <= i < |rs| => rs[i].inst)
  }

  lemma InstListMembers(rs: seq<Row>)
    ensures forall y :: y in InstList(rs) <==> y in Insts(rs)
  {
    var s := InstList(rs);
    forall y ensures y in s <==> y in Insts(rs) {
      if y in s {
        var i :| 0 <= i < |s| && s[i] == y;
        assert rs[i] in rs;
      }
      if y in Insts(rs) {
        var x :| x in rs && x.inst == y;
        var i :| 0 <= i < |rs| && rs[i] == x;
        assert s[i] == y;
      }
    }
  }

  /** The `value` column of some rows, in their order. */
  function Values(rs: seq<Row>): (vs: seq<string>)
    ensures |vs| == |rs|
    ensures forall i :: 0 <= i < |rs| ==> vs[i] == rs[i].value
  {
    seq(|rs|, i requires 0 <= i < |rs| => rs[i].value)
  }

  /** The instance ids of one type (`SELECT ent_instance_id ... WHERE ent_name = ent`). */
  function InstanceIds(rows: seq<Row>, ent: string): (s: set<int>)
    ensures forall y :: y in s <==> exists x :: x in rows && x.ent == ent && x.inst == y
  {
    Insts(Select(rows, OfType(ent)))
  }

  /** `WHERE ent_name = ent GROUP BY ent_instance_id`: the type's instance ids once each, ascending. */
  function TypeGroups(rows: seq<Row>, ent: string): (ids: seq<int>)
    ensures Ascending(ids)
    ensures forall y :: y in ids <==> y in InstanceIds(rows, ent)
  {
    GroupIds(Select(rows, OfType(ent)))
  }

  /** `GROUP BY ent_instance_id`: every instance id once, ascending. */
  function GroupIds(rs: seq<Row>): (ids: seq<int>)
    ensures Ascending(ids)
    ensures forall y :: y in ids <==> y in Insts(rs)
  {
    InstListMembers(rs);
    SortedDistinct(InstList(rs))
  }

  /** `SELECT DISTINCT ent_instance_id`: every instance id once, in order of first appearance. */
  function DistinctIds(rs: seq<Row>): (ids: seq<int>)
    ensures NoDuplicates(ids)
    ensures forall y :: y in ids <==> y in Insts(rs)
  {
    InstListMembers(rs);
    FirstAppearances(InstList(rs))
  }

  /** The instance ids whose `attr` row holds `v` (`SELECT ent_instance_id ... WHERE attr_name = attr AND value = v`). */
  function FindIds(rows: seq<Row>, ent: string, attr: string, v: string): (s: set<int>)
    ensures forall y :: y in s <==> exists x :: x in rows && x.ent == ent && x.attr == attr && x.value == v && x.inst == y
  {
    Insts(Select(rows, WithValue(ent, attr, v)))
  }

  /**
    `WHERE ent_name = ent AND ent_instance_id IN (SELECT ent_instance_id ...
    WHERE ent_name = ent AND attr_name = attr AND value = v) GROUP BY
    ent_instance_id`: the instances holding such a row, once each, ascending.
  */
  function OwnedGroups(rows: seq<Row>, ent: string, attr: string, v: string): (ids: seq<int>)
    ensures Ascending(ids)
    ensures forall id :: id in ids <==> id in FindIds(rows, ent, attr, v)
  {
    var owned := FindIds(rows, ent, attr, v);
    var rs := Select(rows, OfEntities(ent, owned));
    forall id | id in owned ensures id in Insts(rs) {
      var x :| x in rows && x.ent == ent && x.attr == attr && x.value == v && x.inst == id;
      assert x in rs;
    }
    GroupIds(rs)
  }

  /** An id found after appending rows of one instance `id` was found before, unless it is `id`. */
  lemma FindIdsAppend(rows: seq<Row>, added: seq<Row>, ent: string, attr: string, v: string, id: int, z: int)
    requires forall y :: y in added ==> y.inst == id
    requires z in FindIds(rows + added, ent, attr, v) && z != id
    ensures z in FindIds(rows, ent, attr, v)
  {
    var x :| x in rows + added && x.ent == ent && x.attr == attr && x.value == v && x.inst == z;
    assert x !in added;
  }

  function MaxId(rows: seq<Row>, ent: string): (m: Option<int>)
    ensures m.None? <==> forall x :: x in rows ==> x.ent != ent
    ensures m.Some? ==> exists x :: x in rows && x.ent == ent && x.inst == m.value
    ensures m.Some? ==> forall x :: x in rows && x.ent == ent ==> x.inst <= m.value
  {
    if rows == [] then None
    else
      var m := MaxId(rows[1..], ent);
      assert forall x :: x in rows <==> x == rows[0] || x in rows[1..] by {
        assert rows == [rows[0]] + rows[1..];
      }
      if rows[0].ent != ent then m
      else if m.Some? && m.value > rows[0].inst then m
      else Some(rows[0].inst)
  }

  /**
    `SELECT IFNULL(MAX(ent_instance_id), 0) + 1 ... WHERE ent_name = ent`:
    one more than the largest id of that type, or 1 when the type has no rows.
  */
  function NextId(rows: seq<Row>, ent: string): (id: int)
    ensures forall x :: x in rows && x.ent == ent ==> x.inst < id
    ensures (forall x :: x in rows ==> x.ent != ent) ==> id == 1
    ensures (exists x :: x in rows && x.ent == ent) ==> exists x :: x in rows && x.ent == ent && x.inst == id - 1
  {
    match MaxId(rows, ent)
    case None => 1
    case Some(m) => m + 1
  }

  /** No row holds the id NextId allocates. */
  lemma NextIdFresh(rows: seq<Row>, ent: string)
    ensures Select(rows, OfEntity(ent, NextId(rows, ent))) == []
    ensures NextId(rows, ent) !in Insts(Select(rows, OfType(ent)))
  {
    SelectNothing(rows, OfEntity(ent, NextId(rows, ent)));
  }

  /** No instance of a type is at or past the type's next id. */
  lemma PastNextIdUnused(rows: seq<Row>, ent: string, id: int)
    requires NextId(rows, ent) <= id
    ensures id !in InstanceIds(rows, ent)
  {
  }

  /** Allocating the next id and writing rows under it moves the next id on by one. */
  lemma NextIdAfterAllocation(rows: seq<Row>, added: seq<Row>, ent: string)
    requires forall x :: x in added && x.ent == ent ==> x.inst == NextId(rows, ent)
    requires exists x :: x in added && x.ent == ent
    ensures NextId(rows + added, ent) == NextId(rows, ent) + 1
  {
    var id := NextId(rows, ent);
    var x :| x in added && x.ent == ent;
    assert x in rows + added;
    var n := NextId(rows + added, ent);
    var y :| y in rows + added && y.ent == ent && y.inst == n - 1;
  }

  /** The next id is one past the largest id of the type. */
  lemma NextIdIs(rows: seq<Row>, ent: string, m: int)
    requires forall x :: x in rows && x.ent == ent ==> x.inst <= m
    requires exists x :: x in rows && x.ent == ent && x.inst == m
    ensures NextId(rows, ent) == m + 1
  {
    var n := NextId(rows, ent);
    var y :| y in rows && y.ent == ent && y.inst == n - 1;
  }

  /** Rows of other types do not move the next id of a type. */
  lemma NextIdOtherType(rows: seq<Row>, added: seq<Row>, ent: string)
    requires forall x :: x in added ==> x.ent != ent
    ensures NextId(rows + added, ent) == NextId(rows, ent)
  {
    var n := NextId(rows + added, ent);
    if exists x :: x in rows && x.ent == ent {
      var m :| m in rows && m.ent == ent && m.inst == NextId(rows, ent) - 1;
      assert m in rows + added;
      var y :| y in rows + added && y.ent == ent && y.inst == n - 1;
    }
  }

  // ---------------------------------------------------------------------
  // Pivots
  // ---------------------------------------------------------------------

  /**
    `{row["attr_name"]: row["value"] for row in rows}`: every attribute name
    present, each mapped to the value of its LAST row.
  */
  function DictPivot(rs: seq<Row>): (m: map<string, string>)
    ensures forall k :: k in m <==> exists i :: 0 <= i < |rs| && rs[i].attr == k
  {
    if rs == [] then map[]
    else
      var prefix := DictPivot(rs[..|rs| - 1]);
      assert forall i :: 0 <= i < |rs| - 1 ==> rs[..|rs| - 1][i] == rs[i];
      prefix[rs[|rs| - 1].attr := rs[|rs| - 1].value]
  }

  /** Later rows overwrite earlier ones: the value kept is that of the last row with the name. */
  lemma {:induction false} DictPivotLastWins(rs: seq<Row>, i: nat)
    requires i < |rs|
    requires forall j :: i < j < |rs| ==> rs[j].attr != rs[i].attr
    ensures rs[i].attr in DictPivot(rs) && DictPivot(rs)[rs[i].attr] == rs[i].value
  {
    if i < |rs| - 1 {
      DictPivotLastWins(rs[..|rs| - 1], i);
    }
  }

  lemma MapUnionUpdate(m: map<string, string>, n: map<string, string>, k: string, v: string)
    ensures (m + n)[k := v] == m + n[k := v]
  {
  }

  lemma {:induction false} DictPivotAppend(a: seq<Row>, b: seq<Row>)
    ensures DictPivot(a + b) == DictPivot(a) + DictPivot(b)
    decreases |b|
  {
    if b == [] {
      assert a + b == a;
    } else {
      var init := b[..|b| - 1];
      var last := b[|b| - 1];
      assert (a + b)[..|a + b| - 1] == a + init;
      assert (a + b)[|a + b| - 1] == last;
      DictPivotAppend(a, init);
      assert DictPivot(a + b) == DictPivot(a + init)[last.attr := last.value];
      assert DictPivot(b) == DictPivot(init)[last.attr := last.value];
      MapUnionUpdate(DictPivot(a), DictPivot(init), last.attr, last.value);
    }
  }

  /** The dict a list of (name, value) pairs builds, later pairs winning. */
  function FieldMap(fields: seq<(string, string)>): (m: map<string, string>)
    ensures forall k :: k in m <==> exists i :: 0 <= i < |fields| && fields[i].0 == k
  {
    if fields == [] then map[]
    else
      var prefix := FieldMap(fields[..|fields| - 1]);
      assert forall i :: 0 <= i < |fields| - 1 ==> fields[..|fields| - 1][i] == fields[i];
      prefix[fields[|fields| - 1].0 := fields[|fields| - 1].1]
  }

  predicate DistinctNames(fields: seq<(string, string)>) {
    forall i, j :: 0 <= i < j < |fields| ==> fields[i].0 != fields[j].0
  }

  /** With distinct names, every written field is read back unchanged. */
  lemma {:induction false} FieldMapDistinct(fields: seq<(string, string)>, i: nat)
    requires DistinctNames(fields)
    requires i < |fields|
    ensures fields[i].0 in FieldMap(fields) && FieldMap(fields)[fields[i].0] == fields[i].1
  {
    if i < |fields| - 1 {
      FieldMapDistinct(fields[..|fields| - 1], i);
    }
  }

  /** Pivoting freshly written rows gives back the dict of the fields written. */
  lemma {:induction false} DictPivotStamp(start: nat, ent: string, id: int, fields: seq<(string, string)>)
    ensures DictPivot(Stamp(start, ent, id, fields)) == FieldMap(fields)
    decreases |fields|
  {
    if fields != [] {
      var s := Stamp(start, ent, id, fields);
      assert s[..|s| - 1] == Stamp(start, ent, id, fields[..|fields| - 1]);
      DictPivotStamp(start, ent, id, fields[..|fields| - 1]);
    }
  }

  /**
    `m` is what `MAX(CASE WHEN attr_name = attr THEN value END)` yields over
    the group `rs`: NULL when the group has no such row, otherwise one of
    their values that no other sorts above.
  */
  ghost predicate IsMax(rs: seq<Row>, attr: string, m: Option<string>) {
    && (m.None? <==> forall i :: 0 <= i < |rs| ==> rs[i].attr != attr)
    && (m.Some? ==> exists i :: 0 <= i < |rs| && rs[i].attr == attr && rs[i].value == m.value)
    && (m.Some? ==> forall i :: 0 <= i < |rs| && rs[i].attr == attr ==> LexLe(rs[i].value, m.value))
  }

  /** The MAX of a group is determined by the group. */
  lemma IsMaxUnique(rs: seq<Row>, attr: string, m: Option<string>, n: Option<string>)
    requires IsMax(rs, attr, m) && IsMax(rs, attr, n)
    ensures m == n
  {
    if m.Some? {
      var i :| 0 <= i < |rs| && rs[i].attr == attr && rs[i].value == m.value;
      var j :| 0 <= j < |rs| && rs[j].attr == attr && rs[j].value == n.value;
      LexLeAntisymmetric(m.value, n.value);
    }
  }

  /** A group holding one row per attribute: MAX is that row's value. */
  lemma MaxOfSingle(rs: seq<Row>, i: nat)
    requires i < |rs|
    requires forall j :: 0 <= j < |rs| && j != i ==> rs[j].attr != rs[i].attr
    ensures MaxOf(rs, rs[i].attr) == Some(rs[i].value)
  {
    LexLeRefl(rs[i].value);
    IsMaxUnique(rs, rs[i].attr, MaxOf(rs, rs[i].attr), Some(rs[i].value));
  }

  /** The MAX of a field written once for an instance is the text written. */
  lemma MaxOfStampField(start: nat, ent: string, id: int, fields: seq<(string, string)>, k: nat)
    requires k < |fields|
    requires forall j :: 0 <= j < |fields| && j != k ==> fields[j].0 != fields[k].0
    ensures MaxOf(Stamp(start, ent, id, fields), fields[k].0) == Some(fields[k].1)
  {
    MaxOfSingle(Stamp(start, ent, id, fields), k);
  }

  /** With distinct names, the MAX of a field over its stamp is the value written. */
  lemma MaxOfStampDistinct(start: nat, ent: string, id: int, fields: seq<(string, string)>, k: nat)
    requires DistinctNames(fields) && k < |fields|
    ensures MaxOf(Stamp(start, ent, id, fields), fields[k].0) == Some(fields[k].1)
  {
    MaxOfStampField(start, ent, id, fields, k);
  }

  lemma LexLeChain(rs: seq<Row>, attr: string, mid: string, top: string)
    requires forall i :: 0 <= i < |rs| && rs[i].attr == attr ==> LexLe(rs[i].value, mid)
    requires LexLe(mid, top)
    ensures forall i :: 0 <= i < |rs| && rs[i].attr == attr ==> LexLe(rs[i].value, top)
  {
    forall i | 0 <= i < |rs| && rs[i].attr == attr ensures LexLe(rs[i].value, top) {
      LexLeTransitive(rs[i].value, mid, top);
    }
  }

  /**
    `MAX(CASE WHEN attr_name = attr THEN value END)` over one group: NULL when
    the group has no such row, otherwise the BINARY-greatest of their values.
  */
  function MaxOf(rs: seq<Row>, attr: string): (m: Option<string>)
    ensures IsMax(rs, attr, m)
  {
    if rs == [] then None
    else
      var init := rs[..|rs| - 1];
      var last := rs[|rs| - 1];
      var prev := MaxOf(init, attr);
      assert forall i :: 0 <= i < |init| ==> init[i] == rs[i];
      if last.attr != attr then prev
      else if prev.None? then
        LexLeRefl(last.value);
        Some(last.value)
      else if LexLe(prev.value, last.value) then
        LexLeRefl(last.value);
        LexLeChain(init, attr, prev.value, last.value);
        Some(last.value)
      else
        LexLeTotal(prev.value, last.value);
        prev
  }

  // ---------------------------------------------------------------------
  // Reading back what was written
  // ---------------------------------------------------------------------

  /** Every row of one instance: `WHERE ent_name = ent AND ent_instance_id = id`. */
  function EntityRows(rows: seq<Row>, ent: string, id: int): (rs: seq<Row>)
    ensures forall x :: x in rs <==> x in rows && x.ent == ent && x.inst == id
  {
    Select(rows, OfEntity(ent, id))
  }

  /** The rows written under a freshly allocated id are all the rows that id has. */
  lemma InsertedEntity(rows: seq<Row>, start: nat, ent: string, fields: seq<(string, string)>)
    ensures var id := NextId(rows, ent);
      EntityRows(rows + Stamp(start, ent, id, fields), ent, id) == Stamp(start, ent, id, fields)
  {
    var id := NextId(rows, ent);
    var added := Stamp(start, ent, id, fields);
    SelectAppend(rows, added, OfEntity(ent, id));
    NextIdFresh(rows, ent);
    StampAllOf(start, ent, id, fields);
    SelectEverything(added, OfEntity(ent, id));
  }

  /** A query that exactly one row matches returns that row alone. */
  lemma {:induction false} SelectSingle(rows: seq<Row>, w: Where, k: nat)
    requires k < |rows| && Matches(rows[k], w)
    requires forall j :: 0 <= j < |rows| && j != k ==> !Matches(rows[j], w)
    ensures Select(rows, w) == [rows[k]]
    decreases k
  {
    var tail := rows[1..];
    if k == 0 {
      forall x | x in tail ensures !Matches(x, w) {
        var j :| 0 <= j < |tail| && tail[j] == x;
        assert rows[j + 1] == x;
      }
      SelectNothing(tail, w);
    } else {
      assert !Matches(rows[0], w);
      forall j | 0 <= j < |tail| && j != k - 1 ensures !Matches(tail[j], w) {
        assert tail[j] == rows[j + 1];
      }
      SelectSingle(tail, w, k - 1);
    }
  }

  /** Two id sets that agree on every instance the rows carry select the same rows. */
  lemma {:induction false} SelectSameIds(rows: seq<Row>, ent: string, attr: string, a: set<int>, b: set<int>)
    requires forall x :: x in rows && x.ent == ent && x.attr == attr ==> (x.inst in a <==> x.inst in b)
    ensures Select(rows, AttrIn(ent, attr, a)) == Select(rows, AttrIn(ent, attr, b))
  {
    if rows != [] {
      assert rows[0] in rows;
      SelectSameIds(rows[1..], ent, attr, a, b);
    }
  }

  /**
    After a new instance is written, the instances holding `attr = v` are
    those before, plus the new one exactly when one of its fields is that.
  */
  lemma InsertedFindIds(rows: seq<Row>, start: nat, ent: string, fields: seq<(string, string)>, attr: string, v: string)
    ensures var id := NextId(rows, ent);
      && id !in FindIds(rows, ent, attr, v)
      && FindIds(rows + Stamp(start, ent, id, fields), ent, attr, v)
         == FindIds(rows, ent, attr, v) + (if (attr, v) in fields then {id} else {})
  {
    var id := NextId(rows, ent);
    var s := Stamp(start, ent, id, fields);
    var after := rows + s;
    StampAllOf(start, ent, id, fields);
    NextIdFresh(rows, ent);
    var before := FindIds(rows, ent, attr, v);
    var b := FindIds(after, ent, attr, v);
    var extra := if (attr, v) in fields then {id} else {};
    forall z | z in b ensures z in before + extra {
      if z != id {
        FindIdsAppend(rows, s, ent, attr, v, id, z);
      } else {
        var x :| x in after && x.ent == ent && x.attr == attr && x.value == v && x.inst == z;
        FieldOfStamp(rows, start, ent, id, fields, x);
      }
    }
    forall z | z in before ensures z in b {
      var x :| x in rows && x.ent == ent && x.attr == attr && x.value == v && x.inst == z;
      assert x in after;
    }
    if (attr, v) in fields {
      var k :| 0 <= k < |fields| && fields[k] == (attr, v);
      assert s[k] in after;
    }
  }

  /** A row of a new instance's stamp, found after the table, is one of its fields. */
  lemma FieldOfStamp(rows: seq<Row>, start: nat, ent: string, id: int, fields: seq<(string, string)>, x: Row)
    requires id !in Insts(Select(rows, OfType(ent)))
    requires x in rows + Stamp(start, ent, id, fields) && x.ent == ent && x.inst == id
    ensures (x.attr, x.value) in fields
  {
    var s := Stamp(start, ent, id, fields);
    assert x !in Select(rows, OfType(ent)) && Matches(x, OfType(ent));
    var i :| 0 <= i < |s| && s[i] == x;
    assert fields[i] == (x.attr, x.value);
  }

  /**
    After a new instance is written, the `name` rows of the instances
    holding `attr = v` are those before, followed by the new instance's own
    `name` row exactly when it holds `attr = v`.
  */
  lemma InsertedAttrRows(rows: seq<Row>, start: nat, ent: string, fields: seq<(string, string)>,
                         attr: string, v: string, name: string, k: nat)
    requires k < |fields| && fields[k].0 == name
    requires forall j :: 0 <= j < |fields| && j != k ==> fields[j].0 != name
    ensures var id := NextId(rows, ent);
      var after := rows + Stamp(start, ent, id, fields);
      Select(after, AttrIn(ent, name, FindIds(after, ent, attr, v)))
        == Select(rows, AttrIn(ent, name, FindIds(rows, ent, attr, v)))
           + (if (attr, v) in fields then [Row(start + k, ent, name, id, fields[k].1)] else [])
  {
    var id := NextId(rows, ent);
    var s := Stamp(start, ent, id, fields);
    var after := rows + s;
    var a := FindIds(rows, ent, attr, v);
    var b := FindIds(after, ent, attr, v);
    var w := AttrIn(ent, name, b);
    InsertedFindIds(rows, start, ent, fields, attr, v);
    assert Select(rows, w) == Select(rows, AttrIn(ent, name, a)) by {
      NextIdFresh(rows, ent);
      forall x | x in rows && x.ent == ent && x.attr == name ensures x.inst in a <==> x.inst in b {
        assert x.inst != id;
      }
      SelectSameIds(rows, ent, name, a, b);
    }
    assert Select(s, w) == (if (attr, v) in fields then [Row(start + k, ent, name, id, fields[k].1)] else []) by {
      if (attr, v) in fields {
        forall j | 0 <= j < |s| && j != k ensures !Matches(s[j], w) {
        }
        SelectSingle(s, w, k);
      } else {
        StampAllOf(start, ent, id, fields);
        SelectNothing(s, w);
      }
    }
    SelectAppend(rows, s, w);
  }

  /** Rows written for one instance are invisible to a query that cannot match that instance. */
  lemma InsertInvisible(rows: seq<Row>, start: nat, ent: string, id: int, fields: seq<(string, string)>, w: Where)
    requires w.ent != ent || (w.ids.Some? && id !in w.ids.value)
    ensures Select(rows + Stamp(start, ent, id, fields), w) == Select(rows, w)
  {
    var added := Stamp(start, ent, id, fields);
    SelectAppend(rows, added, w);
    StampAllOf(start, ent, id, fields);
    SelectNothing(added, w);
  }

  /** The value the dict pivot of a query keeps for a name is that of the last matching row with it. */
  lemma SelectPivotLastWins(rows: seq<Row>, w: Where, i: nat)
    requires i < |rows| && Matches(rows[i], w)
    requires forall j :: i < j < |rows| && Matches(rows[j], w) ==> rows[j].attr != rows[i].attr
    ensures rows[i].attr in DictPivot(Select(rows, w))
    ensures DictPivot(Select(rows, w))[rows[i].attr] == rows[i].value
  {
    var before, after := rows[..i], rows[i + 1..];
    SelectAround(rows, w, i);
    var head, tail := Select(before, w), Select(after, w);
    var sel := head + [rows[i]] + tail;
    forall n | |head| < n < |sel| ensures sel[n].attr != rows[i].attr {
      assert sel[n] == tail[n - |head| - 1];
      LaterMatch(rows, w, i, sel[n]);
    }
    DictPivotLastWins(sel, |head|);
  }

  /** What a query selects, around one matching row. */
  lemma SelectAround(rows: seq<Row>, w: Where, i: nat)
    requires i < |rows| && Matches(rows[i], w)
    ensures Select(rows, w) == Select(rows[..i], w) + [rows[i]] + Select(rows[i + 1..], w)
  {
    assert rows == rows[..i] + [rows[i]] + rows[i + 1..];
    SelectAppend(rows[..i] + [rows[i]], rows[i + 1..], w);
    SelectAppend(rows[..i], [rows[i]], w);
    assert Select([rows[i]], w) == [rows[i]];
  }

  /** A row the query selects from behind row `i` is a row behind `i`. */
  lemma LaterMatch(rows: seq<Row>, w: Where, i: nat, t: Row)
    requires i < |rows|
    requires forall j :: i < j < |rows| && Matches(rows[j], w) ==> rows[j].attr != rows[i].attr
    requires t in Select(rows[i + 1..], w)
    ensures t.attr != rows[i].attr
  {
    var after := rows[i + 1..];
    var j :| 0 <= j < |after| && after[j] == t;
    assert rows[i + 1 + j] == t;
  }

  /** The names the dict pivot of a query holds are the names of the matching rows. */
  lemma SelectPivotKeys(rows: seq<Row>, w: Where)
    ensures forall k :: k in DictPivot(Select(rows, w)) <==> exists x :: x in rows && Matches(x, w) && x.attr == k
  {
    var rs := Select(rows, w);
    forall k | exists x :: x in rows && Matches(x, w) && x.attr == k
      ensures k in DictPivot(rs)
    {
      var x :| x in rows && Matches(x, w) && x.attr == k;
      assert x in rs;
      var i :| 0 <= i < |rs| && rs[i] == x;
    }
    forall k | k in DictPivot(rs)
      ensures exists x :: x in rows && Matches(x, w) && x.attr == k
    {
      var i :| 0 <= i < |rs| && rs[i].attr == k;
      assert rs[i] in rs;
    }
  }

  /** Create then read: pivoting the instance just written under a fresh id gives the dict of the fields written. */
  lemma ReadBack(rows: seq<Row>, start: nat, ent: string, fields: seq<(string, string)>)
    ensures var id := NextId(rows, ent);
      DictPivot(EntityRows(rows + Stamp(start, ent, id, fields), ent, id)) == FieldMap(fields)
  {
    InsertedEntity(rows, start, ent, fields);
    DictPivotStamp(start, ent, NextId(rows, ent), fields);
  }

  /**
    The instance a text or NULL bound to `ent_instance_id = ?` names: NULL
    equals nothing, and a text names the integer the column's NUMERIC
    affinity makes of it, if any.
  */
  function InstanceOf(t: Option<string>): (r: Option<int>)
    ensures t.None? ==> r.None?
    ensures t.Some? ==> r == NumericInt(t.value)
  {
    if t.None? then None else NumericInt(t.value)
  }

  /**
    `WHERE ent_name = ent AND ent_instance_id = ?` bound to a text or NULL:
    the rows of the instance the text names, none when it names none.
  */
  function EntityRowsAt(rows: seq<Row>, ent: string, t: Option<string>): (rs: seq<Row>)
    ensures InstanceOf(t).None? ==> rs == []
    ensures InstanceOf(t).Some? ==> rs == EntityRows(rows, ent, InstanceOf(t).value)
  {
    match InstanceOf(t)
    case None => []
    case Some(id) => EntityRows(rows, ent, id)
  }

  /** An instance id written as text is found again. */
  lemma EntityRowsAtInt(rows: seq<Row>, ent: string, id: int)
    ensures EntityRowsAt(rows, ent, Some(IntToStr(id))) == EntityRows(rows, ent, id)
  {
    NumericIntOfInt(id);
  }

  /** A text `int()` accepts finds the instance that integer names. */
  lemma EntityRowsAtStrToInt(rows: seq<Row>, ent: string, t: string)
    requires StrToInt(t).Some?
    ensures EntityRowsAt(rows, ent, Some(t)) == EntityRows(rows, ent, StrToInt(t).value)
  {
    NumericIntOfStrToInt(t);
  }

  /** '3.0', which `int()` rejects, still finds instance 3. */
  lemma EntityRowsAtDecimalText(rows: seq<Row>, ent: string)
    ensures EntityRowsAt(rows, ent, Some("3.0")) == EntityRows(rows, ent, 3)
  {
    NumericIntBeyondStrToInt();
  }

  /** Python's `attrs.get(k)`: the value under `k`, or None. */
  function Lookup(m: map<string, string>, k: string): (v: Option<string>)
    ensures v.Some? <==> k in m
    ensures v.Some? ==> v.value == m[k]
  {
    if k in m then Some(m[k]) else None
  }

  /** `float(attrs.get(k, 0))`: 0.0 for a missing attribute, otherwise what `float()` makes of its text. */
  function RealOr(attrs: map<string, string>, k: string): (r: Option<real>)
    ensures k !in attrs ==> r == Some(0.0)
    ensures k in attrs ==> r == ParseDecimal(attrs[k])
  {
    if k in attrs then ParseDecimal(attrs[k]) else Some(0.0)
  }

  /** `int(attrs.get(k, 0))`: 0 for a missing attribute, otherwise what `int()` makes of its text. */
  function IntOr(attrs: map<string, string>, k: string): (r: Option<int>)
    ensures k !in attrs ==> r == Some(0)
    ensures k in attrs ==> r == StrToInt(attrs[k])
  {
    if k in attrs then StrToInt(attrs[k]) else Some(0)
  }

  /** Python's `int(x)` of a MAX(...) column: None (NULL) and non-integer texts raise. */
  function IntOf(t: Option<string>): (r: Option<int>)
    ensures t.None? ==> r.None?
    ensures t.Some? ==> r == StrToInt(t.value)
  {
    if t.None? then None else StrToInt(t.value)
  }

  /** Python's `float(x)` of a MAX(...) column: None (NULL) and non-decimal texts raise. */
  function RealOf(t: Option<string>): (r: Option<real>)
    ensures t.None? ==> r.None?
    ensures t.Some? ==> r == ParseDecimal(t.value)
  {
    if t.None? then None else ParseDecimal(t.value)
  }

  /** A value a record endpoint returns as JSON: an integer or a text. */
  datatype Value = Num(n: int) | Str(s: string)

  function AsText(m: map<string, string>): (r: map<string, Value>)
    ensures r.Keys == m.Keys
    ensures forall k :: k in m ==> r[k] == Str(m[k])
  {
    map k | k in m :: Str(m[k])
  }

  lemma AsTextUpdate(base: map<string, Value>, m: map<string, string>, k: string, v: string)
    ensures (base + AsText(m))[k := Str(v)] == base + AsText(m[k := v])
  {
    var l, r := (base + AsText(m))[k := Str(v)], base + AsText(m[k := v]);
    assert l.Keys == r.Keys;
    forall j | j in l ensures l[j] == r[j] {
    }
  }

  /**
    `result = base; for row in rows: result[row["attr_name"]] = row["value"]`:
    the names already in `base` are kept unless a row overwrites them, and
    every row name maps to the value of its last row.
  */
  method FillDict(base: map<string, Value>, rs: seq<Row>) returns (result: map<string, Value>)
    ensures result == base + AsText(DictPivot(rs))
  {
    result := base;
    assert DictPivot(rs[..0]) == map[];
    var k := 0;
    while k < |rs|
      invariant 0 <= k <= |rs|
      invariant result == base + AsText(DictPivot(rs[..k]))
    {
      assert rs[..k + 1][..k] == rs[..k];
      assert DictPivot(rs[..k + 1]) == DictPivot(rs[..k])[rs[k].attr := rs[k].value];
      AsTextUpdate(base, DictPivot(rs[..k]), rs[k].attr, rs[k].value);
      result := result[rs[k].attr := Str(rs[k].value)];
      k := k + 1;
    }
    assert rs[..k] == rs;
  }

  // ---------------------------------------------------------------------
  // The store
  // ---------------------------------------------------------------------

  ghost predicate RowIdsAscending(rows: seq<Row>) {
    forall i, j :: 0 <= i < j < |rows| ==> rows[i].valId < rows[j].valId
  }

  lemma {:induction false} DeleteKeepsRowIds(rows: seq<Row>, w: Where)
    requires RowIdsAscending(rows)
    ensures RowIdsAscending(Delete(rows, w))
  {
    if rows != [] {
      DeleteKeepsRowIds(rows[1..], w);
      var rest := Delete(rows[1..], w);
      forall x | x in rest ensures rows[0].valId < x.valId {
        var i :| 0 <= i < |rows[1..]| && rows[1..][i] == x;
        assert rows[i + 1] == x;
      }
    }
  }

  /** Row identifiers are unique: ascending in table order and below `next`, the one the next INSERT receives. */
  ghost predicate WellFormed(rows: seq<Row>, next: nat) {
    && RowIdsAscending(rows)
    && (forall i :: 0 <= i < |rows| ==> rows[i].valId < next)
  }

  /** With unique row identifiers, a row is the only one carrying its identifier. */
  lemma UniqueRowId(rows: seq<Row>, next: nat, i: nat, j: nat)
    requires WellFormed(rows, next) && i < |rows| && j < |rows|
    requires rows[i].valId == rows[j].valId
    ensures i == j
  {
  }

  /** Appending rows numbered from `next` keeps the row identifiers unique. */
  lemma StampWellFormed(rows: seq<Row>, next: nat, ent: string, id: int, fields: seq<(string, string)>)
    requires WellFormed(rows, next)
    ensures WellFormed(rows + Stamp(next, ent, id, fields), next + |fields|)
  {
  }

  /** An UPDATE by row id changes only the row carrying that id, and only its value. */
  lemma SetValueOnly(rows: seq<Row>, next: nat, k: nat, v: string)
    requires WellFormed(rows, next) && k < |rows|
    ensures forall i :: 0 <= i < |rows| ==>
      SetValue(rows, rows[k].valId, v)[i] == if i == k then rows[k].(value := v) else rows[i]
  {
  }

  /** An UPDATE by the row id of a row of the table changes that row's value and nothing else. */
  lemma SetValueRow(rows: seq<Row>, next: nat, q: Row, v: string)
    requires WellFormed(rows, next) && q in rows
    ensures forall i :: 0 <= i < |rows| ==> SetValue(rows, q.valId, v)[i] == if rows[i] == q then q.(value := v) else rows[i]
  {
    var k :| 0 <= k < |rows| && rows[k] == q;
    forall i | 0 <= i < |rows| ensures rows[i].valId == q.valId <==> rows[i] == q {
      if rows[i].valId == q.valId {
        UniqueRowId(rows, next, i, k);
      }
    }
  }

  /** `after` holds every row of `before` at its place, at most with another value, and perhaps more rows behind. */
  predicate ValuesOnlyChanged(before: seq<Row>, after: seq<Row>) {
    && |after| >= |before|
    && forall i :: 0 <= i < |before| ==> after[i].(value := before[i].value) == before[i]
  }

  lemma ValuesOnlyChangedByAppend(rows: seq<Row>, added: seq<Row>)
    ensures ValuesOnlyChanged(rows, rows + added)
  {
  }

  lemma ValuesOnlyChangedBySetValue(rows: seq<Row>, valId: nat, v: string)
    ensures ValuesOnlyChanged(rows, SetValue(rows, valId, v))
  {
  }

  lemma ValuesOnlyChangedTransitive(a: seq<Row>, b: seq<Row>, c: seq<Row>)
    requires ValuesOnlyChanged(a, b) && ValuesOnlyChanged(b, c)
    ensures ValuesOnlyChanged(a, c)
  {
    forall i | 0 <= i < |a| ensures c[i].(value := a[i].value) == a[i] {
      assert b[i].(value := a[i].value) == a[i];
      assert c[i].(value := b[i].value) == b[i];
    }
  }

  /** An UPDATE by an id beyond the table's changes nothing. */
  lemma SetValueAbsent(rows: seq<Row>, next: nat, valId: nat, v: string)
    requires WellFormed(rows, next) && next <= valId
    ensures SetValue(rows, valId, v) == rows
  {
  }

  /**
    The state an endpoint leaves: the table, the next row identifier and
    what it returns (or the status it fails with).
  */
  datatype Outcome<T> = Outcome(rows: seq<Row>, next: nat, result: Result<T>)

  /**
    The database: the attribute table, the row identifier the next INSERT
    receives, and the t_sys_ent catalogue of (ent_name, ent_app) pairs.
  */
  class Store {
    var rows: seq<Row>
    var nextValId: nat
    var sysEnt: seq<(string, string)>

    /** Row identifiers are unique: ascending in table order and below the next one. */
    ghost predicate Valid()
      reads this
    {
      WellFormed(rows, nextValId)
    }

    constructor ()
      ensures Valid() && rows == [] && sysEnt == [] && nextValId == 1
    {
      rows := [];
      nextValId := 1;
      sysEnt := [];
    }

    /** `executemany("INSERT INTO t_sys_attr_values ... VALUES (ent, ?, id, ?)", fields)`. */
    method InsertMany(ent: string, id: int, fields: seq<(string, string)>)
      requires Valid()
      modifies this
      ensures Valid()
      ensures rows == old(rows) + Stamp(old(nextValId), ent, id, fields)
      ensures nextValId == old(nextValId) + |fields|
      ensures sysEnt == old(sysEnt)
    {
      var k := 0;
      while k < |fields|
        invariant 0 <= k <= |fields|
        invariant rows == old(rows) + Stamp(old(nextValId), ent, id, fields[..k])
        invariant nextValId == old(nextValId) + k
        invariant sysEnt == old(sysEnt)
        invariant Valid()
      {
        assert Stamp(old(nextValId), ent, id, fields[..k + 1])
          == Stamp(old(nextValId), ent, id, fields[..k]) + [Row(nextValId, ent, fields[k].0, id, fields[k].1)];
        rows := rows + [Row(nextValId, ent, fields[k].0, id, fields[k].1)];
        nextValId := nextValId + 1;
        k := k + 1;
      }
      assert fields[..k] == fields;
    }

    /** `UPDATE t_sys_attr_values SET value = v WHERE val_id = valId`. */
    method UpdateValue(valId: nat, v: string)
      requires Valid()
      modifies this
      ensures Valid()
      ensures rows == SetValue(old(rows), valId, v)
      ensures nextValId == old(nextValId) && sysEnt == old(sysEnt)
    {
      var before := rows;
      var updated := SetValue(before, valId, v);
      assert forall i :: 0 <= i < |before| ==> updated[i].valId == before[i].valId;
      assert forall i :: 0 <= i < |updated| ==> updated[i].valId < nextValId;
      rows := updated;
    }

    /** `DELETE FROM t_sys_attr_values WHERE w`. */
    method DeleteWhere(w: Where)
      requires Valid()
      modifies this
      ensures Valid()
      ensures rows == Delete(old(rows), w)
      ensures nextValId == old(nextValId) && sysEnt == old(sysEnt)
    {
      DeleteKeepsRowIds(rows, w);
      var kept := Delete(rows, w);
      forall i | 0 <= i < |kept| ensures kept[i].valId < nextValId {
        assert kept[i] in rows;
        var j :| 0 <= j < |rows| && rows[j] == kept[i];
      }
      rows := kept;
    }
  }
}
