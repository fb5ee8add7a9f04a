/**
  The orders in which the service's queries return their records: GROUP BY
  instance id (ascending, duplicates merged), SELECT DISTINCT (first
  appearance), and ORDER BY a text column (NULL first, BINARY collation).
*/
module Sorting {
  import opened Wrappers
  import opened Text

  // ---------------------------------------------------------------------
  // Instance ids
  // ---------------------------------------------------------------------

  predicate Ascending(s: seq<int>) {
    forall i, j :: 0 <= i < j < |s| ==> s[i] < s[j]
  }

  predicate Descending(s: seq<int>) {
    forall i, j :: 0 <= i < j < |s| ==> s[i] > s[j]
  }

  predicate NoDuplicates(s: seq<int>) {
    forall i, j :: 0 <= i < j < |s| ==> s[i] != s[j]
  }

  /** Adds `x` to an ascending sequence, keeping it ascending and duplicate-free. */
  function InsertId(x: int, s: seq<int>): (r: seq<int>)
    requires Ascending(s)
    ensures Ascending(r)
    ensures forall y :: y in r <==> y == x || y in s
  {
    if s == [] then [x]
    else if x < s[0] then
      assert forall y :: y in s ==> x < y by {
        forall y | y in s ensures x < y {
          var k :| 0 <= k < |s| && s[k] == y;
        }
      }
      PrependAscending(x, s);
      [x] + s
    else if x == s[0] then s
    else
      var t := InsertId(x, s[1..]);
      assert forall y :: y in t ==> s[0] < y by {
        forall y | y in t ensures s[0] < y {
          if y != x {
            var k :| 0 <= k < |s[1..]| && s[1..][k] == y;
            assert s[k + 1] == y;
          }
        }
      }
      PrependAscending(s[0], t);
      assert s == [s[0]] + s[1..];
      [s[0]] + t
  }

  lemma PrependAscending(x: int, s: seq<int>)
    requires Ascending(s)
    requires forall y :: y in s ==> x < y
    ensures Ascending([x] + s)
  {
    var r := [x] + s;
    forall i, j | 0 <= i < j < |r| ensures r[i] < r[j] {
      assert r[j] == s[j - 1];
      if i > 0 {
        assert r[i] == s[i - 1];
      } else {
        assert s[j - 1] in s;
      }
    }
  }

  /** The distinct members of `s` in ascending order, as GROUP BY returns them. */
  function SortedDistinct(s: seq<int>): (r: seq<int>)
    ensures Ascending(r)
    ensures forall y :: y in r <==> y in s
  {
    if s == [] then [] else InsertId(s[|s| - 1], SortedDistinct(s[..|s| - 1]))
  }

  /** The distinct members of `s` in order of first appearance, as SELECT DISTINCT returns them. */
  function FirstAppearances(s: seq<int>): (r: seq<int>)
    ensures NoDuplicates(r)
    ensures forall y :: y in r <==> y in s
  {
    if s == [] then []
    else
      var d := FirstAppearances(s[..|s| - 1]);
      if s[|s| - 1] in d then d else d + [s[|s| - 1]]
  }

  function Reverse(s: seq<int>): (r: seq<int>)
    ensures |r| == |s|
    ensures forall i :: 0 <= i < |s| ==> r[i] == s[|s| - 1 - i]
  {
    seq(|s|, i requires 0 <= i < |s| => s[|s| - 1 - i])
  }

  /** ORDER BY ... DESC over an ascending id list. */
  lemma ReverseAscending(s: seq<int>)
    requires Ascending(s)
    ensures Descending(Reverse(s))
    ensures forall y :: y in Reverse(s) <==> y in s
  {
    var r := Reverse(s);
    forall y | y in s ensures y in r {
      var i :| 0 <= i < |s| && s[i] == y;
      assert r[|s| - 1 - i] == y;
    }
  }

  // ---------------------------------------------------------------------
  // ORDER BY a text column
  // ---------------------------------------------------------------------

  /** SQLite's ascending order on a text column: NULL first, then BINARY collation. */
  predicate KeyLe(a: Option<string>, b: Option<string>) {
    a.None? || (b.Some? && LexLe(a.value, b.value))
  }

  /** `a` may come before `b` under ORDER BY key (ASC, or DESC when `desc`). */
  predicate InOrder(a: Option<string>, b: Option<string>, desc: bool) {
    if desc then KeyLe(b, a) else KeyLe(a, b)
  }

  lemma InOrderTotal(a: Option<string>, b: Option<string>, desc: bool)
    ensures InOrder(a, b, desc) || InOrder(b, a, desc)
  {
    if a.Some? && b.Some? {
      LexLeTotal(a.value, b.value);
    }
  }

  lemma InOrderTransitive(a: Option<string>, b: Option<string>, c: Option<string>, desc: bool)
    requires InOrder(a, b, desc) && InOrder(b, c, desc)
    ensures InOrder(a, c, desc)
  {
    if a.Some? && b.Some? && c.Some? {
      if desc {
        LexLeTransitive(c.value, b.value, a.value);
      } else {
        LexLeTransitive(a.value, b.value, c.value);
      }
    }
  }

  predicate SortedBy<T>(s: seq<T>, key: T -> Option<string>, desc: bool) {
    forall i, j :: 0 <= i < j < |s| ==> InOrder(key(s[i]), key(s[j]), desc)
  }

  /** Puts `x` in front of the first element it may precede (so earlier rows stay first on ties). */
  function InsertBy<T>(x: T, s: seq<T>, key: T -> Option<string>, desc: bool): seq<T> {
    if s == [] then [x]
    else if InOrder(key(x), key(s[0]), desc) then [x] + s
    else [s[0]] + InsertBy(x, s[1..], key, desc)
  }

  /** Insertion sort: the records ORDER BY key returns. */
  function SortBy<T>(s: seq<T>, key: T -> Option<string>, desc: bool): seq<T> {
    if s == [] then [] else InsertBy(s[0], SortBy(s[1..], key, desc), key, desc)
  }

  lemma {:induction false} InsertByPermutes<T>(x: T, s: seq<T>, key: T -> Option<string>, desc: bool)
    ensures multiset(InsertBy(x, s, key, desc)) == multiset(s) + multiset{x}
  {
    if s != [] && !InOrder(key(x), key(s[0]), desc) {
      InsertByPermutes(x, s[1..], key, desc);
      assert s == [s[0]] + s[1..];
    }
  }

  lemma {:induction false} InsertBySorted<T>(x: T, s: seq<T>, key: T -> Option<string>, desc: bool)
    requires SortedBy(s, key, desc)
    ensures SortedBy(InsertBy(x, s, key, desc), key, desc)
  {
    if s == [] {
    } else if InOrder(key(x), key(s[0]), desc) {
      InsertFront(x, s, key, desc);
    } else {
      InOrderTotal(key(x), key(s[0]), desc);
      InsertBySorted(x, s[1..], key, desc);
      InsertBehind(x, s, key, desc);
    }
  }

  /** Putting `x` in front keeps the order when `x` may precede the first element. */
  lemma InsertFront<T>(x: T, s: seq<T>, key: T -> Option<string>, desc: bool)
    requires SortedBy(s, key, desc) && s != [] && InOrder(key(x), key(s[0]), desc)
    ensures SortedBy([x] + s, key, desc)
  {
    var r := [x] + s;
    forall i, j | 0 <= i < j < |r| ensures InOrder(key(r[i]), key(r[j]), desc) {
      if i == 0 && j > 1 {
        InOrderTransitive(key(x), key(s[0]), key(s[j - 1]), desc);
      }
    }
  }

  /** Inserting `x` behind the first element keeps the order when the first element may precede `x`. */
  lemma InsertBehind<T>(x: T, s: seq<T>, key: T -> Option<string>, desc: bool)
    requires SortedBy(s, key, desc) && s != [] && InOrder(key(s[0]), key(x), desc)
    requires SortedBy(InsertBy(x, s[1..], key, desc), key, desc)
    ensures SortedBy([s[0]] + InsertBy(x, s[1..], key, desc), key, desc)
  {
    var t := InsertBy(x, s[1..], key, desc);
    forall j | 0 <= j < |t| ensures InOrder(key(s[0]), key(t[j]), desc) {
      InsertByMember(x, s[1..], key, desc, t[j]);
      if t[j] != x {
        var k :| 0 <= k < |s[1..]| && s[1..][k] == t[j];
        assert s[k + 1] == t[j];
      }
    }
    var r := [s[0]] + t;
    forall i, j | 0 <= i < j < |r| ensures InOrder(key(r[i]), key(r[j]), desc) {
      assert r[j] == t[j - 1];
      if i > 0 {
        assert r[i] == t[i - 1];
      }
    }
  }

  /** ORDER BY returns every record once, ordered by its key. */
  lemma {:induction false} SortByCorrect<T>(s: seq<T>, key: T -> Option<string>, desc: bool)
    ensures SortedBy(SortBy(s, key, desc), key, desc)
    ensures multiset(SortBy(s, key, desc)) == multiset(s)
  {
    if s != [] {
      SortByCorrect(s[1..], key, desc);
      InsertBySorted(s[0], SortBy(s[1..], key, desc), key, desc);
      InsertByPermutes(s[0], SortBy(s[1..], key, desc), key, desc);
      assert s == [s[0]] + s[1..];
    }
  }

  predicate DistinctBy<T>(s: seq<T>, id: T -> int) {
    forall i, j :: 0 <= i < j < |s| ==> id(s[i]) != id(s[j])
  }

  lemma {:induction false} InsertByMembers<T>(x: T, s: seq<T>, key: T -> Option<string>, desc: bool)
    ensures forall y :: y in InsertBy(x, s, key, desc) <==> y == x || y in s
  {
    if s != [] && !InOrder(key(x), key(s[0]), desc) {
      InsertByMembers(x, s[1..], key, desc);
      assert s == [s[0]] + s[1..];
    }
  }

  lemma {:induction false} InsertByDistinct<T>(x: T, s: seq<T>, key: T -> Option<string>, desc: bool, id: T -> int)
    requires DistinctBy(s, id)
    requires forall y :: y in s ==> id(y) != id(x)
    ensures DistinctBy(InsertBy(x, s, key, desc), id)
  {
    if s != [] && !InOrder(key(x), key(s[0]), desc) {
      InsertByDistinct(x, s[1..], key, desc, id);
      var t := InsertBy(x, s[1..], key, desc);
      forall j | 0 <= j < |t| ensures id(s[0]) != id(t[j]) {
        InsertByMember(x, s[1..], key, desc, t[j]);
        if t[j] != x {
          var k :| 0 <= k < |s[1..]| && s[1..][k] == t[j];
          assert s[k + 1] == t[j];
        }
      }
      var r := [s[0]] + t;
      forall i, j | 0 <= i < j < |r| ensures id(r[i]) != id(r[j]) {
        if i > 0 {
          assert r[i] == t[i - 1] && r[j] == t[j - 1];
        } else {
          assert r[j] == t[j - 1];
        }
      }
    }
  }

  lemma InsertByMember<T>(x: T, s: seq<T>, key: T -> Option<string>, desc: bool, z: T)
    requires z in InsertBy(x, s, key, desc)
    ensures z == x || z in s
  {
    InsertByMembers(x, s, key, desc);
  }

  lemma SortByMember<T>(s: seq<T>, key: T -> Option<string>, desc: bool, z: T)
    requires z in SortBy(s, key, desc)
    ensures z in s
  {
    SortByMembers(s, key, desc);
  }

  /** ORDER BY neither adds nor drops records. */
  lemma {:induction false} SortByMembers<T>(s: seq<T>, key: T -> Option<string>, desc: bool)
    ensures forall y :: y in SortBy(s, key, desc) <==> y in s
  {
    if s != [] {
      SortByMembers(s[1..], key, desc);
      InsertByMembers(s[0], SortBy(s[1..], key, desc), key, desc);
      assert s == [s[0]] + s[1..];
    }
  }

  /** ORDER BY keeps records with distinct ids distinct. */
  lemma {:induction false} SortByDistinct<T>(s: seq<T>, key: T -> Option<string>, desc: bool, id: T -> int)
    requires DistinctBy(s, id)
    ensures DistinctBy(SortBy(s, key, desc), id)
  {
    if s != [] {
      SortByDistinct(s[1..], key, desc, id);
      forall y | y in SortBy(s[1..], key, desc) ensures id(y) != id(s[0]) {
        SortByMember(s[1..], key, desc, y);
        var k :| 0 <= k < |s[1..]| && s[1..][k] == y;
        assert s[k + 1] == y;
      }
      InsertByDistinct(s[0], SortBy(s[1..], key, desc), key, desc, id);
    }
  }

  lemma AscendingNoDuplicates(s: seq<int>)
    requires Ascending(s)
    ensures NoDuplicates(s)
  {
  }

  /** An ascending sequence holding exactly the ids `lo` .. `lo + n - 1` is those ids in order. */
  lemma AscendingRange(s: seq<int>, lo: int, n: nat)
    requires Ascending(s)
    requires forall y :: y in s <==> lo <= y < lo + n
    ensures |s| == n && forall j :: 0 <= j < n ==> s[j] == lo + j
  {
    var j := 0;
    while j < |s|
      invariant 0 <= j <= |s| && j <= n
      invariant forall k :: 0 <= k < j ==> s[k] == lo + k
    {
      assert s[j] in s;
      assert j > 0 ==> s[j - 1] < s[j];
      assert lo + j in s;
      j := j + 1;
    }
    assert j < n ==> lo + j in s;
  }

  /** The record of each id, in the order of the ids. */
  function Records<T>(ids: seq<int>, f: int -> T): (rs: seq<T>)
    ensures |rs| == |ids|
    ensures forall i :: 0 <= i < |ids| ==> rs[i] == f(ids[i])
  {
    seq(|ids|, i requires 0 <= i < |ids| => f(ids[i]))
  }

  /**
    Putting the records of distinct ids in key order gives every id's record
    once, each the record of its own id, in key order.
  */
  lemma SortedRecords<T>(ids: seq<int>, f: int -> T, id: T -> int, key: T -> Option<string>, desc: bool)
    requires NoDuplicates(ids)
    requires forall x :: id(f(x)) == x
    ensures var all := SortBy(Records(ids, f), key, desc);
      && SortedBy(all, key, desc)
      && DistinctBy(all, id)
      && (forall x :: x in ids <==> exists i :: 0 <= i < |all| && id(all[i]) == x)
      && (forall i :: 0 <= i < |all| ==> all[i] == f(id(all[i])))
  {
    var records := Records(ids, f);
    var all := SortBy(records, key, desc);
    SortByCorrect(records, key, desc);
    assert DistinctBy(records, id) by {
      forall i, j | 0 <= i < j < |records| ensures id(records[i]) != id(records[j]) {
        assert id(records[i]) == ids[i] && id(records[j]) == ids[j];
      }
    }
    SortByDistinct(records, key, desc, id);
    forall i | 0 <= i < |all| ensures all[i] == f(id(all[i])) && id(all[i]) in ids {
      SortByMember(records, key, desc, all[i]);
      var j :| 0 <= j < |records| && records[j] == all[i];
      assert id(all[i]) == ids[j];
    }
    forall x | x in ids ensures exists i :: 0 <= i < |all| && id(all[i]) == x {
      var j :| 0 <= j < |ids| && ids[j] == x;
      assert records[j] in multiset(all);
      var i :| 0 <= i < |all| && all[i] == records[j];
      assert id(all[i]) == x;
    }
  }

  // ---------------------------------------------------------------------
  // Loops over instance ids
  // ---------------------------------------------------------------------

  /** The ids that `keep` accepts, in their order (a WHERE over a GROUP BY). */
  function Filter(ids: seq<int>, keep: int -> bool): seq<int>
  {
    if ids == [] then []
    else
      var rest := Filter(ids[1..], keep);
      if keep(ids[0]) then [ids[0]] + rest else rest
  }

  /** Filtering keeps exactly the accepted ids, and an ascending order. */
  lemma {:induction false} FilterMeaning(ids: seq<int>, keep: int -> bool)
    ensures forall x :: x in Filter(ids, keep) <==> x in ids && keep(x)
    ensures Ascending(ids) ==> Ascending(Filter(ids, keep))
  {
    if ids != [] {
      FilterMeaning(ids[1..], keep);
      assert forall x :: x in ids <==> x == ids[0] || x in ids[1..];
      if Ascending(ids) {
        var rest := Filter(ids[1..], keep);
        assert Ascending(ids[1..]);
        forall y | y in rest ensures ids[0] < y {
          var j :| 0 <= j < |ids[1..]| && ids[1..][j] == y;
          assert ids[j + 1] == y;
        }
        assert forall i :: 0 <= i < |rest| ==> rest[i] in rest;
      }
    }
  }

  /**
    A loop over `ids` that asks `step` about each one in turn, keeps the
    records it gives, skips the ids it gives none for, and stops at the
    first failure.
  */
  function Gather<T>(ids: seq<int>, step: int -> Result<Option<T>>): Result<seq<T>>
  {
    if ids == [] then Ok([])
    else
      match Gather(ids[..|ids| - 1], step)
      case Err(e) => Err(e)
      case Ok(fs) =>
        match step(ids[|ids| - 1])
        case Err(e) => Err(e)
        case Ok(o) => Ok(fs + if o.Some? then [o.value] else [])
  }

  /** One more id extends the loop by its record, if it has one. */
  lemma GatherStep<T>(ids: seq<int>, step: int -> Result<Option<T>>, k: nat, fs: seq<T>, o: Option<T>)
    requires k < |ids| && Gather(ids[..k], step) == Ok(fs) && step(ids[k]) == Ok(o)
    ensures Gather(ids[..k + 1], step) == Ok(fs + if o.Some? then [o.value] else [])
  {
    assert ids[..k + 1][..k] == ids[..k];
  }

  /** A failing id fails the whole loop. */
  lemma GatherFails<T>(ids: seq<int>, step: int -> Result<Option<T>>, k: nat)
    requires k < |ids| && Gather(ids[..k], step).Ok? && step(ids[k]).Err?
    ensures Gather(ids, step) == Err(step(ids[k]).status)
  {
    assert ids[..k + 1][..k] == ids[..k];
    GatherFailsOn(ids, step, k + 1);
  }

  /** Once a prefix of the loop fails, the loop fails the same way. */
  lemma {:induction false} GatherFailsOn<T>(ids: seq<int>, step: int -> Result<Option<T>>, k: nat)
    requires k <= |ids| && Gather(ids[..k], step).Err?
    ensures Gather(ids, step) == Gather(ids[..k], step)
    decreases |ids| - k
  {
    if k < |ids| {
      assert ids[..k + 1][..k] == ids[..k];
      GatherFailsOn(ids, step, k + 1);
    } else {
      assert ids[..k] == ids;
    }
  }

  /**
    A failed loop fails with the error of one of its ids; a successful one
    succeeded on every id and kept exactly the records the steps gave.
  */
  lemma {:induction false} GatherMeaning<T>(ids: seq<int>, step: int -> Result<Option<T>>)
    ensures Gather(ids, step).Err? ==> exists i :: 0 <= i < |ids| && step(ids[i]) == Err(Gather(ids, step).status)
    ensures Gather(ids, step).Ok? ==>
      && (forall i :: 0 <= i < |ids| ==> step(ids[i]).Ok?)
      && (forall x :: x in Gather(ids, step).value ==> exists i :: 0 <= i < |ids| && step(ids[i]) == Ok(Some(x)))
      && (forall i :: 0 <= i < |ids| && step(ids[i]).Ok? && step(ids[i]).value.Some? ==>
            step(ids[i]).value.value in Gather(ids, step).value)
  {
    if ids != [] {
      var init := ids[..|ids| - 1];
      GatherMeaning(init, step);
      assert forall i :: 0 <= i < |init| ==> init[i] == ids[i];
      if Gather(init, step).Ok? && step(ids[|ids| - 1]).Ok? {
        var fs := Gather(ids, step).value;
        forall x | x in fs ensures exists i :: 0 <= i < |ids| && step(ids[i]) == Ok(Some(x)) {
          if x !in Gather(init, step).value {
            assert step(ids[|ids| - 1]) == Ok(Some(x));
          } else {
            var i :| 0 <= i < |init| && step(init[i]) == Ok(Some(x));
            assert step(ids[i]) == Ok(Some(x));
          }
        }
      }
    }
  }

  /**
    When every record carries the id it came from, a loop over ascending
    ids gives its records in ascending id order.
  */
  lemma {:induction false} GatherAscending<T>(ids: seq<int>, step: int -> Result<Option<T>>, key: T -> int)
    requires Ascending(ids) && Gather(ids, step).Ok?
    requires forall i :: 0 <= i < |ids| && step(ids[i]).Ok? && step(ids[i]).value.Some? ==>
      key(step(ids[i]).value.value) == ids[i]
    ensures var fs := Gather(ids, step).value;
      forall i, j :: 0 <= i < j < |fs| ==> key(fs[i]) < key(fs[j])
  {
    if ids != [] {
      var init := ids[..|ids| - 1];
      var last := ids[|ids| - 1];
      assert forall i :: 0 <= i < |init| ==> init[i] == ids[i];
      GatherAscending(init, step, key);
      GatherMeaning(init, step);
      assert Gather(init, step).Ok?;
      var fs0 := Gather(init, step).value;
      forall x | x in fs0 ensures key(x) < last {
        var i :| 0 <= i < |init| && step(init[i]) == Ok(Some(x));
        assert init[i] == ids[i];
      }
      assert forall i :: 0 <= i < |fs0| ==> fs0[i] in fs0;
    }
  }
}
