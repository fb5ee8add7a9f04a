/**
  The cart endpoints. A user's cart is a `cart` instance with one `user_id`
  row; each line is a `cart_item` instance with `cart_id`, `dish_id` and
  `quantity` rows, all holding decimal text.
*/
module Cart {
  import opened Wrappers
  import opened Text
  import opened Sorting
  import opened Eav

  datatype CartItemIn = CartItemIn(userId: int, dishId: int, quantity: int)

  /** The user's cart: the instance of the first `cart` row whose `user_id` is `str(userId)`. */
  function CartOf(rows: seq<Row>, userId: int): Option<int> {
    FirstInst(rows, WithValue("cart", "user_id", IntToStr(userId)))
  }

  /** The cart_item instances with `dish_id = str(dishId)` INTERSECT those with `cart_id = str(cartId)`. */
  function ItemIds(rows: seq<Row>, cartId: int, dishId: int): set<int> {
    FindIds(rows, "cart_item", "dish_id", IntToStr(dishId)) * FindIds(rows, "cart_item", "cart_id", IntToStr(cartId))
  }

  /** `fetchone` on the quantity rows of those instances: the first in table order. */
  function QuantityRow(rows: seq<Row>, cartId: int, dishId: int): Option<Row> {
    FirstRow(rows, AttrIn("cart_item", "quantity", ItemIds(rows, cartId, dishId)))
  }

  /** The three rows a new cart line is stored as. */
  function ItemFields(cartId: int, item: CartItemIn): seq<(string, string)> {
    LineFields(IntToStr(cartId), IntToStr(item.dishId), IntToStr(item.quantity))
  }

  /** A cart line's three rows, given their texts. */
  function LineFields(cartId: string, dishId: string, quantity: string): seq<(string, string)> {
    [("cart_id", cartId), ("dish_id", dishId), ("quantity", quantity)]
  }

  /** The table and next row identifier after the cart step, and the user's cart id. */
  datatype Carted = Carted(rows: seq<Row>, next: nat, cartId: int)

  /**
    The find-or-create of the user's cart: an existing cart is kept; a new
    cart is one `user_id` row under the next cart id.
  */
  function WithCart(rows: seq<Row>, next: nat, userId: int): Carted {
    match CartOf(rows, userId)
    case Some(c) => Carted(rows, next, c)
    case None =>
      var c := NextId(rows, "cart");
      Carted(rows + Stamp(next, "cart", c, [("user_id", IntToStr(userId))]), next + 1, c)
  }

  /**
    The line step: an existing line for the dish has its quantity row raised
    by `quantity` (a quantity text that `int()` rejects fails with 500);
    otherwise a new line of three rows is written under the next cart_item id.
  */
  function AddLine(rows: seq<Row>, next: nat, cartId: int, item: CartItemIn): (o: Outcome<int>)
    ensures o.result.Ok? ==> o.result.value == cartId
  {
    match QuantityRow(rows, cartId, item.dishId)
    case Some(q) =>
      (match StrToInt(q.value)
       case None => Outcome(rows, next, Err(ServerError))
       case Some(n) => Outcome(SetValue(rows, q.valId, Raised(n, item.quantity)), next, Ok(cartId)))
    case None =>
      Outcome(rows + Stamp(next, "cart_item", NextId(rows, "cart_item"), ItemFields(cartId, item)), next + 3, Ok(cartId))
  }

  /** The quantity text after raising `n` by `k`: `str(n + k)`. */
  function Raised(n: int, k: int): string {
    IntToStr(n + k)
  }

  /** What `POST /cart/add` leaves: the cart step, then the line step (a 500 keeps the new cart). */
  function AddToCartSpec(rows: seq<Row>, next: nat, item: CartItemIn): (o: Outcome<int>)
    ensures o.result.Err? ==> o.result.status == ServerError
    ensures CartOf(rows, item.userId).Some? && o.result.Ok? ==> o.result.value == CartOf(rows, item.userId).value
    ensures next <= o.next <= next + 4
  {
    var c := WithCart(rows, next, item.userId);
    AddLine(c.rows, c.next, c.cartId, item)
  }

  /** Re-running the cart lookup right after creating the cart finds the new cart. */
  lemma NewCartFound(rows: seq<Row>, start: nat, userId: int)
    requires CartOf(rows, userId).None?
    ensures CartOf(rows + Stamp(start, "cart", NextId(rows, "cart"), [("user_id", IntToStr(userId))]), userId)
            == Some(NextId(rows, "cart"))
  {
    var w := WithValue("cart", "user_id", IntToStr(userId));
    var added := Stamp(start, "cart", NextId(rows, "cart"), [("user_id", IntToStr(userId))]);
    FirstRowAppend(rows, added, w);
    FirstRowAt(added, w, 0);
  }

  /** `POST /cart/add`: the cart step, then the line step. */
  method AddToCart(db: Store, item: CartItemIn) returns (r: Result<int>)
    requires db.Valid()
    modifies db
    ensures db.Valid() && db.sysEnt == old(db.sysEnt)
    ensures Outcome(db.rows, db.nextValId, r) == AddToCartSpec(old(db.rows), old(db.nextValId), item)
  {
    var cartId := FindOrCreateCart(db, item.userId);
    r := AddLineTo(db, cartId, item);
  }

  /** The user's cart id, inserting a cart row under the next cart id when the user has none. */
  method FindOrCreateCart(db: Store, userId: int) returns (cartId: int)
    requires db.Valid()
    modifies db
    ensures db.Valid() && db.sysEnt == old(db.sysEnt)
    ensures Carted(db.rows, db.nextValId, cartId) == WithCart(old(db.rows), old(db.nextValId), userId)
  {
    var uid := IntToStr(userId);
    var row := FirstInst(db.rows, WithValue("cart", "user_id", uid));
    if row.Some? {
      cartId := row.value;
    } else {
      // INSERT ... VALUES ('cart', 'user_id', (SELECT IFNULL(MAX(...), 0) + 1 ...), ?), then the lookup again
      var newCart := NextId(db.rows, "cart");
      NewCartFound(db.rows, db.nextValId, userId);
      db.InsertMany("cart", newCart, [("user_id", uid)]);
      row := FirstInst(db.rows, WithValue("cart", "user_id", uid));
      cartId := row.value;
    }
  }

  /** The line step of `POST /cart/add` on the cart `cartId`. */
  method AddLineTo(db: Store, cartId: int, item: CartItemIn) returns (r: Result<int>)
    requires db.Valid()
    modifies db
    ensures db.Valid() && db.sysEnt == old(db.sysEnt)
    ensures var o := AddLine(old(db.rows), old(db.nextValId), cartId, item);
      db.rows == o.rows && db.nextValId == o.next && r == o.result
  {
    ghost var rows, next := db.rows, db.nextValId;
    var existing := QuantityRow(db.rows, cartId, item.dishId);
    if existing.Some? {
      var q := existing.value;
      var n := StrToInt(q.value);
      if n.None? {
        AddLineCorrupt(rows, next, cartId, item, q);
        return Err(ServerError);
      }
      var v := Raised(n.value, item.quantity);
      AddLineExisting(rows, next, cartId, item, q, n.value);
      db.UpdateValue(q.valId, v);
      assert db.Valid();
      r := Ok(cartId);
    } else {
      AddLineNew(rows, next, cartId, item);
      var newId := NextId(db.rows, "cart_item");
      db.InsertMany("cart_item", newId, ItemFields(cartId, item));
      assert db.Valid();
      r := Ok(cartId);
    }
  }

  // ---------------------------------------------------------------------
  // Properties of POST /cart/add
  // ---------------------------------------------------------------------

  /** The quantity row found is a cart_item row of the table. */
  lemma QuantityRowIn(rows: seq<Row>, cartId: int, dishId: int, q: Row)
    requires QuantityRow(rows, cartId, dishId) == Some(q)
    ensures q in rows && q.ent == "cart_item"
  {
  }

  /** Updating the quantity row leaves every query on another type alone. */
  lemma QuantityUpdateInvisible(rows: seq<Row>, next: nat, q: Row, v: string, w: Where)
    requires WellFormed(rows, next) && q in rows && q.ent == "cart_item"
    requires w.ent != "cart_item"
    ensures Select(SetValue(rows, q.valId, v), w) == Select(rows, w)
  {
    var k :| 0 <= k < |rows| && rows[k] == q;
    forall x | x in rows && x.valId == q.valId ensures x.ent != w.ent {
      var i :| 0 <= i < |rows| && rows[i] == x;
      UniqueRowId(rows, next, i, k);
    }
    SetValueInvisible(rows, q.valId, v, w);
  }

  /** The cart step appends at most the cart row and touches no other type. */
  lemma WithCartFrame(rows: seq<Row>, next: nat, userId: int, w: Where)
    requires WellFormed(rows, next)
    requires w.ent != "cart"
    ensures var c := WithCart(rows, next, userId);
      && WellFormed(c.rows, c.next)
      && |c.rows| >= |rows| && c.rows[..|rows|] == rows
      && Select(c.rows, w) == Select(rows, w)
  {
    if CartOf(rows, userId).None? {
      var c := NextId(rows, "cart");
      InsertInvisible(rows, next, "cart", c, [("user_id", IntToStr(userId))], w);
      StampWellFormed(rows, next, "cart", c, [("user_id", IntToStr(userId))]);
    }
  }

  /** The line step touches no type but cart_item, deletes nothing, and changes at most values. */
  lemma AddLineFrame(rows: seq<Row>, next: nat, cartId: int, item: CartItemIn, w: Where)
    requires WellFormed(rows, next)
    requires w.ent != "cart_item"
    ensures var o := AddLine(rows, next, cartId, item);
      Select(o.rows, w) == Select(rows, w) && ValuesOnlyChanged(rows, o.rows)
  {
    match QuantityRow(rows, cartId, item.dishId)
    case Some(q) =>
      if StrToInt(q.value).Some? {
        var n := StrToInt(q.value).value;
        AddLineExisting(rows, next, cartId, item, q, n);
        QuantityRowIn(rows, cartId, item.dishId, q);
        UpdateFrame(rows, next, q, Raised(n, item.quantity), w);
      } else {
        AddLineCorrupt(rows, next, cartId, item, q);
      }
    case None =>
      AddLineNew(rows, next, cartId, item);
      InsertInvisible(rows, next, "cart_item", NextId(rows, "cart_item"), ItemFields(cartId, item), w);
      ValuesOnlyChangedByAppend(rows, Stamp(next, "cart_item", NextId(rows, "cart_item"), ItemFields(cartId, item)));
  }

  lemma UpdateFrame(rows: seq<Row>, next: nat, q: Row, v: string, w: Where)
    requires WellFormed(rows, next) && q in rows && q.ent == "cart_item"
    requires w.ent != "cart_item"
    ensures Select(SetValue(rows, q.valId, v), w) == Select(rows, w)
    ensures ValuesOnlyChanged(rows, SetValue(rows, q.valId, v))
  {
    QuantityUpdateInvisible(rows, next, q, v, w);
    ValuesOnlyChangedBySetValue(rows, q.valId, v);
  }

  lemma AddLineCorrupt(rows: seq<Row>, next: nat, cartId: int, item: CartItemIn, q: Row)
    requires QuantityRow(rows, cartId, item.dishId) == Some(q)
    requires StrToInt(q.value).None?
    ensures AddLine(rows, next, cartId, item) == Outcome(rows, next, Err(ServerError))
  {
  }

  /**
    A user without a cart gets exactly one new cart row
    ('cart', 'user_id', id, str(user_id)) under the next cart id, and that
    id is what a successful call returns.
  */
  lemma AddToCartCreatesCart(rows: seq<Row>, next: nat, item: CartItemIn)
    requires WellFormed(rows, next)
    requires CartOf(rows, item.userId).None?
    ensures var o := AddToCartSpec(rows, next, item);
      var c := NextId(rows, "cart");
      && Select(o.rows, OfType("cart")) == Select(rows, OfType("cart")) + [Row(next, "cart", "user_id", c, IntToStr(item.userId))]
      && (o.result.Ok? ==> o.result.value == c)
  {
    var c := NextId(rows, "cart");
    var added := Stamp(next, "cart", c, [("user_id", IntToStr(item.userId))]);
    SelectAppend(rows, added, OfType("cart"));
    SelectEverything(added, OfType("cart"));
    assert added == [Row(next, "cart", "user_id", c, IntToStr(item.userId))];
    StampWellFormed(rows, next, "cart", c, [("user_id", IntToStr(item.userId))]);
    assert WithCart(rows, next, item.userId) == Carted(rows + added, next + 1, c);
    assert AddToCartSpec(rows, next, item) == AddLine(rows + added, next + 1, c, item);
    AddLineFrame(rows + added, next + 1, c, item, OfType("cart"));
  }

  lemma AddLineExisting(rows: seq<Row>, next: nat, cartId: int, item: CartItemIn, q: Row, n: int)
    requires QuantityRow(rows, cartId, item.dishId) == Some(q)
    requires StrToInt(q.value) == Some(n)
    ensures AddLine(rows, next, cartId, item) == Outcome(SetValue(rows, q.valId, Raised(n, item.quantity)), next, Ok(cartId))
  {
  }

  /**
    When the user's cart already holds a line for the dish, only that line's
    quantity row `q` changes, to the old quantity plus the added one; nothing
    is inserted.
  */
  lemma AddToCartExistingItem(rows: seq<Row>, next: nat, item: CartItemIn, cartId: int, q: Row, n: int)
    requires WellFormed(rows, next)
    requires CartOf(rows, item.userId) == Some(cartId)
    requires QuantityRow(rows, cartId, item.dishId) == Some(q)
    requires StrToInt(q.value) == Some(n)
    ensures var o := AddToCartSpec(rows, next, item);
      && o.result == Ok(cartId) && o.next == next && |o.rows| == |rows|
      && forall i :: 0 <= i < |rows| ==>
           o.rows[i] == if rows[i] == q then q.(value := Raised(n, item.quantity)) else rows[i]
  {
    assert WithCart(rows, next, item.userId) == Carted(rows, next, cartId);
    AddLineExisting(rows, next, cartId, item, q, n);
    QuantityRowIn(rows, cartId, item.dishId, q);
    SetValueRow(rows, next, q, Raised(n, item.quantity));
  }

  /** When the stored quantity is not an integer, `int()` raises: 500, and nothing is written. */
  lemma AddToCartCorruptQuantity(rows: seq<Row>, next: nat, item: CartItemIn, cartId: int)
    requires CartOf(rows, item.userId) == Some(cartId)
    requires QuantityRow(rows, cartId, item.dishId).Some?
    requires StrToInt(QuantityRow(rows, cartId, item.dishId).value.value).None?
    ensures AddToCartSpec(rows, next, item) == Outcome(rows, next, Err(ServerError))
  {
  }

  /**
    When the user's cart has no line for the dish, exactly three cart_item
    rows (cart_id, dish_id, quantity) are appended under an id no cart_item
    held before.
  */
  lemma AddToCartNewItem(rows: seq<Row>, next: nat, item: CartItemIn, cartId: int)
    requires CartOf(rows, item.userId) == Some(cartId)
    requires QuantityRow(rows, cartId, item.dishId).None?
    ensures var o := AddToCartSpec(rows, next, item);
      var id := NextId(rows, "cart_item");
      && id !in InstanceIds(rows, "cart_item")
      && o.result == Ok(cartId) && o.next == next + 3
      && o.rows == rows + [
           Row(next, "cart_item", "cart_id", id, IntToStr(cartId)),
           Row(next + 1, "cart_item", "dish_id", id, IntToStr(item.dishId)),
           Row(next + 2, "cart_item", "quantity", id, IntToStr(item.quantity))]
  {
    var id := NextId(rows, "cart_item");
    SpecWithCart(rows, next, item, cartId);
    AddLineNew(rows, next, cartId, item);
    ItemRows(next, id, cartId, item);
  }

  /** The three rows of a new line, written out. */
  lemma ItemRows(next: nat, id: int, cartId: int, item: CartItemIn)
    ensures Stamp(next, "cart_item", id, ItemFields(cartId, item)) == [
      Row(next, "cart_item", "cart_id", id, IntToStr(cartId)),
      Row(next + 1, "cart_item", "dish_id", id, IntToStr(item.dishId)),
      Row(next + 2, "cart_item", "quantity", id, IntToStr(item.quantity))]
  {
  }

  /**
    add_to_cart never deletes a row and changes no row's type, attribute or
    instance, and every query on a type other than cart and cart_item sees
    what it saw before.
  */
  lemma AddToCartFrame(rows: seq<Row>, next: nat, item: CartItemIn, w: Where)
    requires WellFormed(rows, next)
    requires w.ent != "cart" && w.ent != "cart_item"
    ensures var o := AddToCartSpec(rows, next, item);
      Select(o.rows, w) == Select(rows, w) && ValuesOnlyChanged(rows, o.rows)
  {
    var c := WithCart(rows, next, item.userId);
    WithCartFrame(rows, next, item.userId, w);
    AddLineFrame(c.rows, c.next, c.cartId, item, w);
    ValuesOnlyChangedByAppend(rows, c.rows[|rows|..]);
    assert rows + c.rows[|rows|..] == c.rows;
    ValuesOnlyChangedTransitive(rows, c.rows, AddLine(c.rows, c.next, c.cartId, item).rows);
  }

  /** Instances that were no line of this cart and dish, and are not the new line, still are not. */
  lemma ItemIdsAppend(rows: seq<Row>, added: seq<Row>, cartId: int, dishId: int, id: int, z: int)
    requires forall y :: y in added ==> y.inst == id
    requires z in ItemIds(rows + added, cartId, dishId) && z != id
    ensures z in ItemIds(rows, cartId, dishId)
  {
    FindIdsAppend(rows, added, "cart_item", "dish_id", IntToStr(dishId), id, z);
    FindIdsAppend(rows, added, "cart_item", "cart_id", IntToStr(cartId), id, z);
  }

  /** The lines of a cart and dish after a new line `id` is written: the old ones and `id`. */
  lemma NewLineIds(rows: seq<Row>, next: nat, cartId: int, item: CartItemIn, id: int)
    ensures var added := Stamp(next, "cart_item", id, ItemFields(cartId, item));
      && id in ItemIds(rows + added, cartId, item.dishId)
      && ItemIds(rows + added, cartId, item.dishId) <= ItemIds(rows, cartId, item.dishId) + {id}
  {
    var added := Stamp(next, "cart_item", id, ItemFields(cartId, item));
    var rows1 := rows + added;
    assert added[0] in rows1 && added[1] in rows1;
    StampAllOf(next, "cart_item", id, ItemFields(cartId, item));
    forall z | z in ItemIds(rows1, cartId, item.dishId) && z != id ensures z in ItemIds(rows, cartId, item.dishId) {
      ItemIdsAppend(rows, added, cartId, item.dishId, id, z);
    }
  }

  /** No row of the table before is the quantity row of a line of the cart and dish after. */
  lemma NoOldQuantityRow(rows: seq<Row>, cartId: int, dishId: int, ids: set<int>, id: int)
    requires QuantityRow(rows, cartId, dishId).None?
    requires ids <= ItemIds(rows, cartId, dishId) + {id}
    requires id == NextId(rows, "cart_item")
    ensures forall x :: x in rows ==> !Matches(x, AttrIn("cart_item", "quantity", ids))
  {
    var w0 := AttrIn("cart_item", "quantity", ItemIds(rows, cartId, dishId));
    forall x | x in rows ensures !Matches(x, AttrIn("cart_item", "quantity", ids)) {
      var i :| 0 <= i < |rows| && rows[i] == x;
      assert !Matches(rows[i], w0);
    }
  }

  /** Of the three rows of a new line, the quantity row is the first the lookup matches. */
  lemma NewLineQuantityFirst(next: nat, id: int, cartId: int, item: CartItemIn, ids: set<int>)
    requires id in ids
    ensures var added := Stamp(next, "cart_item", id, ItemFields(cartId, item));
      FirstRow(added, AttrIn("cart_item", "quantity", ids)) == Some(added[2])
  {
    var added := Stamp(next, "cart_item", id, ItemFields(cartId, item));
    assert added[0].attr == "cart_id" && added[1].attr == "dish_id" && added[2] == Row(next + 2, "cart_item", "quantity", id, IntToStr(item.quantity));
    FirstRowAt(added, AttrIn("cart_item", "quantity", ids), 2);
  }

  /** After a new line is written, its quantity row is the first one the lookup finds. */
  lemma NewLineFound(rows: seq<Row>, next: nat, cartId: int, item: CartItemIn)
    requires QuantityRow(rows, cartId, item.dishId).None?
    ensures var id := NextId(rows, "cart_item");
      var added := Stamp(next, "cart_item", id, ItemFields(cartId, item));
      QuantityRow(rows + added, cartId, item.dishId) == Some(added[2])
  {
    var id := NextId(rows, "cart_item");
    var added := Stamp(next, "cart_item", id, ItemFields(cartId, item));
    var ids := ItemIds(rows + added, cartId, item.dishId);
    var w := AttrIn("cart_item", "quantity", ids);
    NewLineIds(rows, next, cartId, item, id);
    NoOldQuantityRow(rows, cartId, item.dishId, ids, id);
    NoRowMatches(rows, w);
    FirstRowAppend(rows, added, w);
    NewLineQuantityFirst(next, id, cartId, item, ids);
  }

  /** Raising the new line's quantity row gives the line a single add of the sum would have written. */
  lemma RaiseNewLine(rows: seq<Row>, next: nat, cartId: int, userId: int, dishId: int, q1: int, q2: int)
    requires WellFormed(rows, next)
    ensures var id := NextId(rows, "cart_item");
      var added := Stamp(next, "cart_item", id, ItemFields(cartId, CartItemIn(userId, dishId, q1)));
      SetValue(rows + added, next + 2, Raised(q1, q2))
        == rows + Stamp(next, "cart_item", id, ItemFields(cartId, CartItemIn(userId, dishId, q1 + q2)))
  {
    var id := NextId(rows, "cart_item");
    RaiseLineFields(rows, next, id, IntToStr(cartId), IntToStr(dishId), IntToStr(q1), Raised(q1, q2));
  }

  /** Setting the quantity row of a line just written is writing the line with that quantity. */
  lemma RaiseLineFields(rows: seq<Row>, next: nat, id: int, cartId: string, dishId: string, q: string, v: string)
    requires WellFormed(rows, next)
    ensures SetValue(rows + Stamp(next, "cart_item", id, LineFields(cartId, dishId, q)), next + 2, v)
      == rows + Stamp(next, "cart_item", id, LineFields(cartId, dishId, v))
  {
    var added := Stamp(next, "cart_item", id, LineFields(cartId, dishId, q));
    var summed := Stamp(next, "cart_item", id, LineFields(cartId, dishId, v));
    var lhs := SetValue(rows + added, next + 2, v);
    assert forall i :: 0 <= i < |rows| ==> lhs[i] == rows[i];
    assert lhs[|rows|] == summed[0] && lhs[|rows| + 1] == summed[1] && lhs[|rows| + 2] == summed[2];
    assert lhs == rows + summed;
  }

  /**
    Adding the same dish twice to a cart that had no line for it is the same
    as adding it once with the summed quantity: one line, quantity q1 + q2.
  */
  lemma AddToCartTwice(rows: seq<Row>, next: nat, userId: int, dishId: int, q1: int, q2: int, cartId: int)
    requires WellFormed(rows, next)
    requires CartOf(rows, userId) == Some(cartId)
    requires QuantityRow(rows, cartId, dishId).None?
    ensures var o1 := AddToCartSpec(rows, next, CartItemIn(userId, dishId, q1));
      var o2 := AddToCartSpec(o1.rows, o1.next, CartItemIn(userId, dishId, q2));
      o2 == AddToCartSpec(rows, next, CartItemIn(userId, dishId, q1 + q2))
  {
    var id := NextId(rows, "cart_item");
    var first, second, both := CartItemIn(userId, dishId, q1), CartItemIn(userId, dishId, q2), CartItemIn(userId, dishId, q1 + q2);
    var added := Stamp(next, "cart_item", id, ItemFields(cartId, first));
    var rows1 := rows + added;
    SpecWithCart(rows, next, first, cartId);
    SpecWithCart(rows, next, both, cartId);
    AddLineNew(rows, next, cartId, first);
    AddLineNew(rows, next, cartId, both);
    CartOfOtherType(rows, next, id, ItemFields(cartId, first), userId);
    SpecWithCart(rows1, next + 3, second, cartId);
    NewLineFound(rows, next, cartId, first);
    assert added[2] == Row(next + 2, "cart_item", "quantity", id, IntToStr(q1));
    IntToStrRoundTrip(q1);
    AddLineExisting(rows1, next + 3, cartId, second, added[2], q1);
    RaiseNewLine(rows, next, cartId, userId, dishId, q1, q2);
  }

  /** A user who has a cart goes straight to the line step. */
  lemma SpecWithCart(rows: seq<Row>, next: nat, item: CartItemIn, cartId: int)
    requires CartOf(rows, item.userId) == Some(cartId)
    ensures AddToCartSpec(rows, next, item) == AddLine(rows, next, cartId, item)
  {
    assert WithCart(rows, next, item.userId) == Carted(rows, next, cartId);
  }

  lemma AddLineNew(rows: seq<Row>, next: nat, cartId: int, item: CartItemIn)
    requires QuantityRow(rows, cartId, item.dishId).None?
    ensures AddLine(rows, next, cartId, item)
      == Outcome(rows + Stamp(next, "cart_item", NextId(rows, "cart_item"), ItemFields(cartId, item)), next + 3, Ok(cartId))
  {
  }

  /** Writing cart_item rows does not change which cart a user has. */
  lemma CartOfOtherType(rows: seq<Row>, next: nat, id: int, fields: seq<(string, string)>, userId: int)
    ensures CartOf(rows + Stamp(next, "cart_item", id, fields), userId) == CartOf(rows, userId)
  {
    var w := WithValue("cart", "user_id", IntToStr(userId));
    var added := Stamp(next, "cart_item", id, fields);
    FirstRowAppend(rows, added, w);
    StampAllOf(next, "cart_item", id, fields);
    NoRowMatches(added, w);
  }

  // ---------------------------------------------------------------------
  // GET /cart/{user_id}
  // ---------------------------------------------------------------------

  /** One line of the cart view: the dish id text, the dish's name and price, and the quantity. */
  datatype CartLine = CartLine(dishId: Option<string>, name: Option<string>, price: real, quantity: int) {
    /** The line's `total`: quantity times price. */
    function Total(): real {
      quantity as real * price
    }
  }

  /** `{"cart": [], "message": ...}` for a user without a cart, otherwise the lines and the cart id. */
  datatype CartView = EmptyCart | Contents(lines: seq<CartLine>, cartId: int)

  /**
    The cart's lines as the GROUP BY query returns them: every cart_item
    instance with a `cart_id` row holding str(cartId), once, ascending.
  */
  function CartItemGroups(rows: seq<Row>, cartId: int): (ids: seq<int>)
    ensures Ascending(ids)
    ensures forall id :: id in ids <==> id in FindIds(rows, "cart_item", "cart_id", IntToStr(cartId))
  {
    OwnedGroups(rows, "cart_item", "cart_id", IntToStr(cartId))
  }

  /**
    One cart line: the MAX `dish_id` and `quantity` texts of the instance,
    then the MAX `name` and `price` of the dish the column matches `dish_id`
    to ('3' and '3.0' both name dish 3); a text naming no dish leaves both
    NULL.
    `int()` of a missing or non-integer quantity, and `float()` of a missing
    or non-decimal price, raise: 500.
  */
  function CartLineOf(rows: seq<Row>, id: int): (r: Result<CartLine>)
    ensures r.Err? ==> r.status == ServerError
    ensures InstanceOf(MaxOf(EntityRows(rows, "cart_item", id), "dish_id")).None? ==> r.Err?
    ensures r.Ok? ==> r.value.dishId == MaxOf(EntityRows(rows, "cart_item", id), "dish_id")
  {
    var g := EntityRows(rows, "cart_item", id);
    var dishId := MaxOf(g, "dish_id");
    var qty := MaxOf(g, "quantity");
    if qty.None? || StrToInt(qty.value).None? then Err(ServerError)
    else
      var quantity := StrToInt(qty.value).value;
      var dish := EntityRowsAt(rows, "dish", dishId);
      var price := MaxOf(dish, "price");
      if price.None? || ParseDecimal(price.value).None? then Err(ServerError)
      else
        var p := ParseDecimal(price.value).value;
        Ok(CartLine(dishId, MaxOf(dish, "name"), p, quantity))
  }

  /** A line is listed exactly when its quantity reads as an integer and its dish's price as a decimal. */
  lemma CartLineFails(rows: seq<Row>, id: int)
    ensures var g := EntityRows(rows, "cart_item", id);
      var qty := MaxOf(g, "quantity");
      var price := MaxOf(EntityRowsAt(rows, "dish", MaxOf(g, "dish_id")), "price");
      CartLineOf(rows, id).Ok? <==> qty.Some? && StrToInt(qty.value).Some? && price.Some? && ParseDecimal(price.value).Some?
  {
  }

  /**
    A listed line shows the line's greatest `dish_id` text, that dish's
    greatest name, and the integer and decimal its quantity and price texts
    denote.
  */
  lemma CartLineFields(rows: seq<Row>, id: int)
    requires CartLineOf(rows, id).Ok?
    ensures var g := EntityRows(rows, "cart_item", id);
      var l := CartLineOf(rows, id).value;
      var dish := EntityRowsAt(rows, "dish", l.dishId);
      && IsMax(g, "dish_id", l.dishId)
      && IsMax(dish, "name", l.name)
      && Some(l.quantity) == StrToInt(MaxOf(g, "quantity").value)
      && Some(l.price) == ParseDecimal(MaxOf(dish, "price").value)
  {
  }

  /** The line of each of some cart_item instances, in their order. */
  function LineResults(rows: seq<Row>, ids: seq<int>): (rs: seq<Result<CartLine>>)
    ensures |rs| == |ids|
    ensures forall i :: 0 <= i < |ids| ==> rs[i] == CartLineOf(rows, ids[i])
  {
    seq(|ids|, i requires 0 <= i < |ids| => CartLineOf(rows, ids[i]))
  }

  /**
    What `GET /cart/{user_id}` answers: an empty cart without a cart row;
    otherwise one line per cart_item of the cart, in ascending id order, or a
    500 when some line's quantity or price does not parse.
  */
  function GetCartSpec(rows: seq<Row>, userId: int): (r: Result<CartView>)
    ensures CartOf(rows, userId).None? <==> r == Ok(EmptyCart)
    ensures r.Err? ==> r.status == ServerError
    ensures r.Ok? && r.value.Contents? ==>
      var ids := CartItemGroups(rows, r.value.cartId);
      && CartOf(rows, userId) == Some(r.value.cartId)
      && |r.value.lines| == |ids|
      && forall i :: 0 <= i < |ids| ==> LineResults(rows, ids)[i] == Ok(r.value.lines[i])
  {
    match CartOf(rows, userId)
    case None => Ok(EmptyCart)
    case Some(c) =>
      match Collect(LineResults(rows, CartItemGroups(rows, c)))
      case Err(e) => Err(e)
      case Ok(ls) => Ok(Contents(ls, c))
  }

  /** One line per cart item, in the GROUP BY order; the first line that fails ends the call with 500. */
  method GetCart(db: Store, userId: int) returns (r: Result<CartView>)
    ensures r == GetCartSpec(db.rows, userId)
  {
    var cart := CartOf(db.rows, userId);
    if cart.None? {
      return Ok(EmptyCart);
    }
    var cartId := cart.value;
    var rows := db.rows;
    var items := CartItemGroups(rows, cartId);
    ghost var steps := LineResults(rows, items);
    var result: seq<CartLine> := [];
    var k := 0;
    while k < |items|
      invariant 0 <= k <= |items|
      invariant Collect(steps[..k]) == Ok(result)
    {
      var line := CartLineOf(rows, items[k]);
      if line.Err? {
        CollectErr(steps, k, result, line.status);
        return Err(line.status);
      }
      CollectOk(steps, k, result, line.value);
      result := result + [line.value];
      k := k + 1;
    }
    assert steps[..k] == steps;
    r := Ok(Contents(result, cartId));
  }

  /**
    A line written by add_to_cart is listed under its cart, with the dish id
    and the quantity it was written with.
  */
  lemma NewLineListed(rows: seq<Row>, next: nat, cartId: int, item: CartItemIn)
    ensures var id := NextId(rows, "cart_item");
      var after := rows + Stamp(next, "cart_item", id, ItemFields(cartId, item));
      && id in CartItemGroups(after, cartId)
      && (CartLineOf(after, id).Ok? ==>
            CartLineOf(after, id).value.dishId == Some(IntToStr(item.dishId))
            && CartLineOf(after, id).value.quantity == item.quantity)
  {
    var id := NextId(rows, "cart_item");
    var after := rows + Stamp(next, "cart_item", id, ItemFields(cartId, item));
    NewLineRows(rows, next, cartId, item);
    CartLineReads(after, id, IntToStr(item.dishId), item.quantity);
  }

  /** The new line's rows: listed under the cart, with the dish id and quantity texts written. */
  lemma NewLineRows(rows: seq<Row>, next: nat, cartId: int, item: CartItemIn)
    ensures var id := NextId(rows, "cart_item");
      var after := rows + Stamp(next, "cart_item", id, ItemFields(cartId, item));
      var g := EntityRows(after, "cart_item", id);
      && id in CartItemGroups(after, cartId)
      && MaxOf(g, "dish_id") == Some(IntToStr(item.dishId))
      && MaxOf(g, "quantity") == Some(IntToStr(item.quantity))
  {
    var id := NextId(rows, "cart_item");
    var fields := ItemFields(cartId, item);
    var added := Stamp(next, "cart_item", id, fields);
    var after := rows + added;
    assert added[0] in after && added[0] == Row(next, "cart_item", "cart_id", id, IntToStr(cartId));
    InsertedEntity(rows, next, "cart_item", fields);
    LineFieldsMax(next, id, IntToStr(cartId), IntToStr(item.dishId), IntToStr(item.quantity));
  }

  /** The MAX of each field of a line written once is the text written. */
  lemma LineFieldsMax(next: nat, id: int, cartId: string, dishId: string, quantity: string)
    ensures var g := Stamp(next, "cart_item", id, LineFields(cartId, dishId, quantity));
      MaxOf(g, "dish_id") == Some(dishId) && MaxOf(g, "quantity") == Some(quantity)
  {
    var fields := LineFields(cartId, dishId, quantity);
    MaxOfStampField(next, "cart_item", id, fields, 1);
    MaxOfStampField(next, "cart_item", id, fields, 2);
  }

  /** A listed line shows the greatest dish id text of its rows and the integer its quantity text denotes. */
  lemma CartLineReads(rows: seq<Row>, id: int, dishId: string, quantity: int)
    requires MaxOf(EntityRows(rows, "cart_item", id), "dish_id") == Some(dishId)
    requires MaxOf(EntityRows(rows, "cart_item", id), "quantity") == Some(IntToStr(quantity))
    ensures CartLineOf(rows, id).Ok? ==>
      CartLineOf(rows, id).value.dishId == Some(dishId) && CartLineOf(rows, id).value.quantity == quantity
  {
    IntToStrRoundTrip(quantity);
  }

  // ---------------------------------------------------------------------
  // DELETE /cart/{user_id}/{dish_id}
  // ---------------------------------------------------------------------

  /** The first of `ids` that lies in `s`. */
  function FirstIn(ids: seq<int>, s: set<int>): (r: Option<int>)
    ensures r.None? <==> forall i :: 0 <= i < |ids| ==> ids[i] !in s
    ensures r.Some? ==> r.value in s && exists i :: 0 <= i < |ids| && ids[i] == r.value && forall j :: 0 <= j < i ==> ids[j] !in s
  {
    if ids == [] then None
    else if ids[0] in s then Some(ids[0])
    else
      var r := FirstIn(ids[1..], s);
      if r.Some? then
        var i :| 0 <= i < |ids[1..]| && ids[1..][i] == r.value && forall j :: 0 <= j < i ==> ids[1..][j] !in s;
        assert ids[i + 1] == r.value;
        r
      else
        assert forall i :: 0 <= i < |ids| ==> ids[i] !in s by {
          forall i | 0 <= i < |ids| ensures ids[i] !in s {
            if i > 0 {
              assert ids[i] == ids[1..][i - 1];
            }
          }
        }
        r
  }

  /** In an ascending sequence, the first member of `s` is the least member of `s` it holds. */
  lemma FirstInLeast(ids: seq<int>, s: set<int>, y: int)
    requires Ascending(ids) && FirstIn(ids, s).Some?
    requires y in s && y in ids
    ensures FirstIn(ids, s).value <= y
  {
    var r := FirstIn(ids, s).value;
    var i :| 0 <= i < |ids| && ids[i] == r && forall j :: 0 <= j < i ==> ids[j] !in s;
    var k :| 0 <= k < |ids| && ids[k] == y;
    assert !(k < i);
  }

  /** Every line of a cart and dish is a cart_item group. */
  lemma ItemIdsGrouped(rows: seq<Row>, cartId: int, dishId: int, y: int)
    requires y in ItemIds(rows, cartId, dishId)
    ensures y in TypeGroups(rows, "cart_item")
  {
    var x :| x in rows && x.ent == "cart_item" && x.attr == "cart_id" && x.value == IntToStr(cartId) && x.inst == y;
  }

  /**
    The line the HAVING query returns first: of the cart_item groups (in
    ascending id order) holding both a `cart_id` and a `dish_id` row that
    match, the first.
  */
  function LineToDelete(rows: seq<Row>, cartId: int, dishId: int): Option<int> {
    FirstIn(TypeGroups(rows, "cart_item"), ItemIds(rows, cartId, dishId))
  }

  /** The line deleted is the least id among the cart's lines for the dish; there is none only when there is no such line. */
  lemma LineToDeleteLeast(rows: seq<Row>, cartId: int, dishId: int)
    ensures LineToDelete(rows, cartId, dishId).None? <==> ItemIds(rows, cartId, dishId) == {}
    ensures LineToDelete(rows, cartId, dishId).Some? ==>
      && LineToDelete(rows, cartId, dishId).value in ItemIds(rows, cartId, dishId)
      && forall y :: y in ItemIds(rows, cartId, dishId) ==> LineToDelete(rows, cartId, dishId).value <= y
  {
    var groups := TypeGroups(rows, "cart_item");
    var ids := ItemIds(rows, cartId, dishId);
    forall y | y in ids ensures y in groups {
      ItemIdsGrouped(rows, cartId, dishId, y);
    }
    if FirstIn(groups, ids).Some? {
      forall y | y in ids ensures FirstIn(groups, ids).value <= y {
        FirstInLeast(groups, ids, y);
      }
    }
  }

  /**
    What `DELETE /cart/{user_id}/{dish_id}` leaves: 404 with the table
    unchanged when the user has no cart or the cart no line for the dish;
    otherwise every row of that line is deleted and its id returned.
  */
  function DeleteCartItemSpec(rows: seq<Row>, next: nat, userId: int, dishId: int): (o: Outcome<int>)
    ensures o.next == next
    ensures o.result.Err? ==> o.result.status == NotFound && o.rows == rows
    ensures o.result.Ok? ==> o.rows == Delete(rows, OfEntity("cart_item", o.result.value))
    ensures CartOf(rows, userId).None? ==> o.result == Err(NotFound)
  {
    match CartOf(rows, userId)
    case None => Outcome(rows, next, Err(NotFound))
    case Some(c) =>
      match LineToDelete(rows, c, dishId)
      case None => Outcome(rows, next, Err(NotFound))
      case Some(m) => Outcome(Delete(rows, OfEntity("cart_item", m)), next, Ok(m))
  }

  method DeleteCartItem(db: Store, userId: int, dishId: int) returns (r: Result<int>)
    requires db.Valid()
    modifies db
    ensures db.Valid() && db.sysEnt == old(db.sysEnt)
    ensures Outcome(db.rows, db.nextValId, r) == DeleteCartItemSpec(old(db.rows), old(db.nextValId), userId, dishId)
  {
    var cart := CartOf(db.rows, userId);
    if cart.None? {
      return Err(NotFound);
    }
    var line := LineToDelete(db.rows, cart.value, dishId);
    if line.None? {
      return Err(NotFound);
    }
    db.DeleteWhere(OfEntity("cart_item", line.value));
    r := Ok(line.value);
  }

  /** Both 404s leave the table as it was. */
  lemma DeleteCartItemNotFound(rows: seq<Row>, next: nat, userId: int, dishId: int)
    requires CartOf(rows, userId).None? || ItemIds(rows, CartOf(rows, userId).value, dishId) == {}
    ensures DeleteCartItemSpec(rows, next, userId, dishId) == Outcome(rows, next, Err(NotFound))
  {
    if CartOf(rows, userId).Some? {
      LineToDeleteLeast(rows, CartOf(rows, userId).value, dishId);
    }
  }

  lemma DeleteSpecFound(rows: seq<Row>, next: nat, userId: int, dishId: int, cartId: int, m: int)
    requires CartOf(rows, userId) == Some(cartId) && LineToDelete(rows, cartId, dishId) == Some(m)
    ensures DeleteCartItemSpec(rows, next, userId, dishId) == Outcome(Delete(rows, OfEntity("cart_item", m)), next, Ok(m))
  {
  }

  /**
    A successful delete removes every row of the least line of the user's
    cart for the dish, and every query that cannot see that line sees what
    it saw before.
  */
  lemma DeleteCartItemEffect(rows: seq<Row>, next: nat, userId: int, dishId: int, cartId: int, m: int, w: Where)
    requires CartOf(rows, userId) == Some(cartId)
    requires DeleteCartItemSpec(rows, next, userId, dishId).result == Ok(m)
    ensures m in ItemIds(rows, cartId, dishId)
    ensures forall y :: y in ItemIds(rows, cartId, dishId) ==> m <= y
    ensures EntityRows(DeleteCartItemSpec(rows, next, userId, dishId).rows, "cart_item", m) == []
    ensures w.ent != "cart_item" || (w.ids.Some? && m !in w.ids.value) ==>
      Select(DeleteCartItemSpec(rows, next, userId, dishId).rows, w) == Select(rows, w)
  {
    LineToDeleteLeast(rows, cartId, dishId);
    assert LineToDelete(rows, cartId, dishId) == Some(m);
    DeleteSpecFound(rows, next, userId, dishId, cartId, m);
    DeleteEntityGone(rows, "cart_item", m);
    if w.ent != "cart_item" || (w.ids.Some? && m !in w.ids.value) {
      DeleteEntityEffect(rows, "cart_item", m, w);
    }
  }

  lemma OnlyMember(s: set<int>, before: set<int>, id: int)
    requires id in s && s <= before + {id} && before == {}
    ensures s == {id}
  {
  }

  /** Deleting a freshly appended instance gives back the table before the append. */
  lemma DeleteNewLine(rows: seq<Row>, next: nat, id: int, cartId: int, item: CartItemIn)
    requires id == NextId(rows, "cart_item")
    ensures Delete(rows + Stamp(next, "cart_item", id, ItemFields(cartId, item)), OfEntity("cart_item", id)) == rows
  {
    var added := Stamp(next, "cart_item", id, ItemFields(cartId, item));
    DeleteAppend(rows, added, OfEntity("cart_item", id));
    DeleteNothing(rows, OfEntity("cart_item", id));
    StampAllOf(next, "cart_item", id, ItemFields(cartId, item));
    DeleteEverything(added, OfEntity("cart_item", id));
    assert rows + [] == rows;
  }

  /**
    Adding a dish the cart had no line for, then deleting it, gives back the
    table as it was.
  */
  lemma DeleteUndoesAdd(rows: seq<Row>, next: nat, item: CartItemIn, cartId: int)
    requires WellFormed(rows, next)
    requires CartOf(rows, item.userId) == Some(cartId)
    requires ItemIds(rows, cartId, item.dishId) == {}
    ensures var o := AddToCartSpec(rows, next, item);
      var d := DeleteCartItemSpec(o.rows, o.next, item.userId, item.dishId);
      d.rows == rows && d.result == Ok(NextId(rows, "cart_item"))
  {
    var id := NextId(rows, "cart_item");
    var after := rows + Stamp(next, "cart_item", id, ItemFields(cartId, item));
    NoRowMatches(rows, AttrIn("cart_item", "quantity", ItemIds(rows, cartId, item.dishId)));
    SpecWithCart(rows, next, item, cartId);
    AddLineNew(rows, next, cartId, item);
    CartOfOtherType(rows, next, id, ItemFields(cartId, item), item.userId);
    NewLineToDelete(rows, next, cartId, item);
    DeleteSpecFound(after, next + 3, item.userId, item.dishId, cartId, id);
    DeleteNewLine(rows, next, id, cartId, item);
  }

  /** When the cart had no line for the dish, the delete picks the line just added. */
  lemma NewLineToDelete(rows: seq<Row>, next: nat, cartId: int, item: CartItemIn)
    requires ItemIds(rows, cartId, item.dishId) == {}
    ensures var id := NextId(rows, "cart_item");
      LineToDelete(rows + Stamp(next, "cart_item", id, ItemFields(cartId, item)), cartId, item.dishId) == Some(id)
  {
    var id := NextId(rows, "cart_item");
    var after := rows + Stamp(next, "cart_item", id, ItemFields(cartId, item));
    NewLineIds(rows, next, cartId, item, id);
    OnlyMember(ItemIds(after, cartId, item.dishId), ItemIds(rows, cartId, item.dishId), id);
    LineToDeleteLeast(after, cartId, item.dishId);
  }
}
