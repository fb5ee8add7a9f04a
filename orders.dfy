/**
  The order endpoints. An order is an `order` instance with `user_id`,
  `address_id`, `status`, `total_price` and `created_at` rows; each of its
  lines is an `order_item` instance with `order_id`, `dish_id`, `quantity`
  and `price` rows. Placing an order turns the user's cart lines into
  order items and deletes the cart lines.
*/
module Orders {
  import opened Wrappers
  import opened Text
  import opened Sorting
  import opened Eav
  import opened Cart

  /** The order body; a missing `status` is "pending". */
  datatype OrderIn = OrderIn(userId: int, addressId: int, status: Option<string>)

  /**
    A cart line as `POST /order` reads it: the `dish_id` and `quantity` texts
    of the GROUP BY row, the dish's price text, and what `float()` and
    `int()` make of them.
  */
  datatype OrderLine = OrderLine(itemId: int, dishId: string, quantity: string, priceText: string, price: real, count: int) {
    /** What the line adds to `total_price`: `price * int(quantity)`. */
    function Amount(): real {
      price * count as real
    }
  }

  /**
    `SELECT value ... WHERE ent_name = 'dish' AND attr_name = 'price' AND
    ent_instance_id = ?` bound to a line's `dish_id` text, fetchone: the
    first price row of that dish, or nothing.
  */
  function PriceText(rows: seq<Row>, dishId: Option<string>): (p: Option<string>)
    ensures InstanceOf(dishId).None? ==> p.None?
  {
    match InstanceOf(dishId)
    case None => None
    case Some(d) => FirstValue(rows, "dish", "price", d)
  }

  /** A `price` row of dish `d`. */
  predicate IsPriceOf(x: Row, d: int) {
    x.ent == "dish" && x.attr == "price" && x.inst == d
  }

  /**
    For a dish id text that the column matches to `d` ('3', but also '3.0'),
    the price read is the value of the first `price` row of dish `d` in table
    order, and there is none exactly when the dish has no price row.
  */
  lemma PriceTextFirst(rows: seq<Row>, t: string, d: int)
    requires NumericInt(t) == Some(d)
    ensures PriceText(rows, Some(t)).None? <==> forall i :: 0 <= i < |rows| ==> !IsPriceOf(rows[i], d)
    ensures PriceText(rows, Some(t)).Some? ==>
              exists i :: 0 <= i < |rows| && IsPriceOf(rows[i], d) && rows[i].value == PriceText(rows, Some(t)).value
                          && forall j :: 0 <= j < i ==> !IsPriceOf(rows[j], d)
  {
    var w := AttrIn("dish", "price", {d});
    assert forall x :: Matches(x, w) <==> IsPriceOf(x, d);
    var r := FirstRow(rows, w);
    if r.Some? {
      var i :| 0 <= i < |rows| && rows[i] == r.value && Matches(rows[i], w)
               && forall j :: 0 <= j < i ==> !Matches(rows[j], w);
      assert IsPriceOf(rows[i], d) && rows[i].value == PriceText(rows, Some(t)).value;
    }
  }

  /**
    One cart line read for the total: a dish without a price row
    (`None["value"]`), a price `float()` rejects, and a missing quantity or
    one `int()` rejects all raise: 500.
  */
  function OrderLineOf(rows: seq<Row>, id: int): (r: Result<OrderLine>)
    ensures r.Err? ==> r.status == ServerError
    ensures r.Ok? ==> r.value.itemId == id
  {
    var g := EntityRows(rows, "cart_item", id);
    var dishId := MaxOf(g, "dish_id");
    var qty := MaxOf(g, "quantity");
    var priceText := PriceText(rows, dishId);
    if priceText.None? then Err(ServerError)
    else
      match ParseDecimal(priceText.value)
      case None => Err(ServerError)
      case Some(p) =>
        if qty.None? || StrToInt(qty.value).None? then Err(ServerError)
        else Ok(OrderLine(id, dishId.value, qty.value, priceText.value, p, StrToInt(qty.value).value))
  }

  /** What a read line is made of: the group's dish id and quantity texts and the dish's first price text, parsed. */
  lemma LineTexts(rows: seq<Row>, id: int, l: OrderLine)
    requires OrderLineOf(rows, id) == Ok(l)
    ensures var g := EntityRows(rows, "cart_item", id);
      && MaxOf(g, "dish_id") == Some(l.dishId)
      && MaxOf(g, "quantity") == Some(l.quantity)
      && PriceText(rows, Some(l.dishId)) == Some(l.priceText)
      && ParseDecimal(l.priceText) == Some(l.price)
      && StrToInt(l.quantity) == Some(l.count)
  {
  }

  /** The line of each of some cart_item instances, in their order. */
  function OrderLines(rows: seq<Row>, ids: seq<int>): (rs: seq<Result<OrderLine>>)
    ensures |rs| == |ids|
    ensures forall i :: 0 <= i < |ids| ==> rs[i] == OrderLineOf(rows, ids[i])
  {
    seq(|ids|, i requires 0 <= i < |ids| => OrderLineOf(rows, ids[i]))
  }

  /** `total_price` after the loop: the lines' amounts added up in order. */
  function Total(ls: seq<OrderLine>): real {
    if ls == [] then 0.0 else Total(ls[..|ls| - 1]) + ls[|ls| - 1].Amount()
  }

  /** The running total over one more line. */
  lemma TotalAppend(ls: seq<OrderLine>, l: OrderLine)
    ensures Total(ls + [l]) == Total(ls) + l.Amount()
  {
    assert (ls + [l])[..|ls|] == ls;
  }

  /** The five rows of the order; `fmt` is Python's `str()` of the total. */
  function OrderFields(order: OrderIn, total: real, fmt: real -> string, now: string): seq<(string, string)> {
    [ ("user_id", IntToStr(order.userId)), ("address_id", IntToStr(order.addressId)),
      ("status", order.status.GetOr("pending")), ("total_price", fmt(total)), ("created_at", now) ]
  }

  /** What the reads of `get_order`/`get_all_orders` make of the dict of the five order fields. */
  lemma OrderFieldsLookups(order: OrderIn, total: real, fmt: real -> string, now: string)
    requires ParseDecimal(fmt(total)) == Some(total)
    ensures var m := FieldMap(OrderFields(order, total, fmt, now));
      && IntOr(m, "user_id") == Some(order.userId)
      && IntOr(m, "address_id") == Some(order.addressId)
      && Lookup(m, "status") == Some(order.status.GetOr("pending"))
      && RealOr(m, "total_price") == Some(total)
      && Lookup(m, "created_at") == Some(now)
  {
    var fields := OrderFields(order, total, fmt, now);
    OrderFieldsDistinct(order, total, fmt, now);
    FieldMapDistinct(fields, 0);
    FieldMapDistinct(fields, 1);
    FieldMapDistinct(fields, 2);
    FieldMapDistinct(fields, 3);
    FieldMapDistinct(fields, 4);
    IntToStrRoundTrip(order.userId);
    IntToStrRoundTrip(order.addressId);
  }

  /** The four rows of one order item: the order id, the line's dish id and quantity texts, the dish's price text. */
  function ItemFields(orderId: int, l: OrderLine): seq<(string, string)> {
    [("order_id", IntToStr(orderId)), ("dish_id", l.dishId), ("quantity", l.quantity), ("price", l.priceText)]
  }

  /** The five order fields have distinct names (they differ in their first letter). */
  lemma OrderFieldsDistinct(order: OrderIn, total: real, fmt: real -> string, now: string)
    ensures DistinctNames(OrderFields(order, total, fmt, now))
  {
    var f := OrderFields(order, total, fmt, now);
    assert f[0].0[0] == 'u' && f[1].0[0] == 'a' && f[2].0[0] == 's' && f[3].0[0] == 't' && f[4].0[0] == 'c';
  }

  /** The four item fields have distinct names (they differ in their first letter). */
  lemma ItemFieldsDistinct(orderId: int, l: OrderLine)
    ensures DistinctNames(ItemFields(orderId, l))
  {
    var f := ItemFields(orderId, l);
    assert f[0].0[0] == 'o' && f[1].0[0] == 'd' && f[2].0[0] == 'q' && f[3].0[0] == 'p';
  }

  /**
    The order items of some lines, one after another: the item for line `i`
    is the instance `base + i`, its rows numbered from `start + 4 * i`.
  */
  function ItemStamps(start: nat, base: int, orderId: int, ls: seq<OrderLine>): (r: seq<Row>)
    ensures |r| == 4 * |ls|
    decreases |ls|
  {
    if ls == [] then []
    else
      var k := |ls| - 1;
      ItemStamps(start, base, orderId, ls[..k]) + Stamp(start + 4 * k, "order_item", base + k, ItemFields(orderId, ls[k]))
  }

  /** What a placed order returns. */
  datatype Placed = Placed(orderId: int, total: real, items: nat)

  function ItemSet(ids: seq<int>): (s: set<int>)
    ensures forall y :: y in s <==> y in ids
  {
    set y | y in ids
  }

  /**
    What `POST /order` leaves. 404 with nothing written when the user has no
    cart or the cart no lines; 500 with nothing written when some line
    cannot be priced. Otherwise the five order rows under the next order
    id, one order item per line under consecutive ids from the next
    order_item id, and the cart lines deleted; the cart itself stays.
  */
  function PlaceOrderSpec(rows: seq<Row>, next: nat, order: OrderIn, fmt: real -> string, now: string): (o: Outcome<Placed>)
    ensures o.result.Err? ==> o.rows == rows && o.next == next
    ensures o.result == Err(NotFound) <==>
              CartOf(rows, order.userId).None? || CartItemGroups(rows, CartOf(rows, order.userId).value) == []
    ensures o.result.Err? ==> o.result.status != BadRequest
    ensures o.result.Ok? ==>
              && o.result.value.orderId == NextId(rows, "order")
              && o.result.value.items == |CartItemGroups(rows, CartOf(rows, order.userId).value)|
              && o.next == next + 5 + 4 * o.result.value.items
  {
    match CartOf(rows, order.userId)
    case None => Outcome(rows, next, Err(NotFound))
    case Some(c) =>
      var ids := CartItemGroups(rows, c);
      if ids == [] then Outcome(rows, next, Err(NotFound))
      else
        match Collect(OrderLines(rows, ids))
        case Err(e) => Outcome(rows, next, Err(e))
        case Ok(ls) =>
          var orderId := NextId(rows, "order");
          var total := Total(ls);
          var placed := rows + Stamp(next, "order", orderId, OrderFields(order, total, fmt, now));
          var written := placed + ItemStamps(next + 5, NextId(rows, "order_item"), orderId, ls);
          Outcome(Delete(written, OfEntities("cart_item", ItemSet(ids))), next + 5 + 4 * |ls|, Ok(Placed(orderId, total, |ids|)))
  }

  /**
    `POST /order`: the cart lookup, the GROUP BY of its lines, the order id,
    the loop adding up the total, the order rows, the loop writing the items
    (allocating each id afresh and reading the price again), then the DELETE
    of the cart lines.
  */
  method PlaceOrder(db: Store, order: OrderIn, fmt: real -> string, now: string) returns (r: Result<Placed>)
    requires db.Valid()
    modifies db
    ensures db.Valid() && db.sysEnt == old(db.sysEnt)
    ensures var o := PlaceOrderSpec(old(db.rows), old(db.nextValId), order, fmt, now);
      db.rows == o.rows && db.nextValId == o.next && r == o.result
  {
    var rows := db.rows;
    ghost var next := db.nextValId;
    var cart := CartOf(rows, order.userId);
    if cart.None? {
      PlaceOrderSpecNotFound(rows, next, order, fmt, now);
      return Err(NotFound);
    }
    var items := CartItemGroups(rows, cart.value);
    if |items| == 0 {
      PlaceOrderSpecNotFound(rows, next, order, fmt, now);
      return Err(NotFound);
    }
    var orderId := NextId(rows, "order");
    var total := SumOrder(rows, items);
    if total.Err? {
      PlaceOrderSpecUnpriced(rows, next, order, fmt, now, cart.value, items);
      return Err(total.status);
    }
    ghost var lines := Collect(OrderLines(rows, items)).value;
    assert total.value == Total(lines);
    CommitOrder(db, order, fmt, now, rows, items, orderId, total.value, lines, next);
    PlaceOrderSpecPlaced(rows, next, order, fmt, now, cart.value, items, lines, orderId, total.value);
    r := Ok(Placed(orderId, total.value, |items|));
  }

  /** The writes of `POST /order` once every line is priced: the order rows, the items, the DELETE of the cart lines. */
  method CommitOrder(db: Store, order: OrderIn, fmt: real -> string, now: string, rows: seq<Row>, items: seq<int>,
                     orderId: int, total: real, ghost lines: seq<OrderLine>, ghost start: nat)
    requires db.Valid() && db.rows == rows && db.nextValId == start
    requires Collect(OrderLines(rows, items)) == Ok(lines)
    modifies db
    ensures db.Valid() && db.sysEnt == old(db.sysEnt)
    ensures var placed := rows + Stamp(start, "order", orderId, OrderFields(order, total, fmt, now));
      db.rows == Delete(placed + ItemStamps(start + 5, NextId(rows, "order_item"), orderId, lines),
                        OfEntities("cart_item", ItemSet(items)))
    ensures db.nextValId == start + 5 + 4 * |lines|
  {
    var fields := OrderFields(order, total, fmt, now);
    db.InsertMany("order", orderId, fields);
    StampAllOf(start, "order", orderId, fields);
    WriteOrderItems(db, orderId, rows, Stamp(start, "order", orderId, fields), items, lines, start + 5);
    db.DeleteWhere(OfEntities("cart_item", ItemSet(items)));
  }

  /** The outcome of an order for a user without a cart or with an empty one. */
  lemma PlaceOrderSpecNotFound(rows: seq<Row>, next: nat, order: OrderIn, fmt: real -> string, now: string)
    requires CartOf(rows, order.userId).None? || CartItemGroups(rows, CartOf(rows, order.userId).value) == []
    ensures PlaceOrderSpec(rows, next, order, fmt, now) == Outcome(rows, next, Err(NotFound))
  {
  }

  /** The outcome of an order with a line that cannot be priced. */
  lemma PlaceOrderSpecUnpriced(rows: seq<Row>, next: nat, order: OrderIn, fmt: real -> string, now: string,
                               cartId: int, ids: seq<int>)
    requires CartOf(rows, order.userId) == Some(cartId) && ids == CartItemGroups(rows, cartId) && ids != []
    requires Collect(OrderLines(rows, ids)).Err?
    ensures PlaceOrderSpec(rows, next, order, fmt, now) == Outcome(rows, next, Err(Collect(OrderLines(rows, ids)).status))
  {
  }

  /** The outcome of an order whose every line could be priced. */
  lemma PlaceOrderSpecPlaced(rows: seq<Row>, next: nat, order: OrderIn, fmt: real -> string, now: string,
                             cartId: int, ids: seq<int>, ls: seq<OrderLine>, orderId: int, total: real)
    requires CartOf(rows, order.userId) == Some(cartId) && ids == CartItemGroups(rows, cartId) && ids != []
    requires Collect(OrderLines(rows, ids)) == Ok(ls)
    requires orderId == NextId(rows, "order") && total == Total(ls)
    ensures var placed := rows + Stamp(next, "order", orderId, OrderFields(order, total, fmt, now));
      var written := placed + ItemStamps(next + 5, NextId(rows, "order_item"), orderId, ls);
      PlaceOrderSpec(rows, next, order, fmt, now)
        == Outcome(Delete(written, OfEntities("cart_item", ItemSet(ids))), next + 5 + 4 * |ls|, Ok(Placed(orderId, total, |ids|)))
  {
  }

  /**
    The first loop: `total_price += price * int(quantity)` over the lines,
    or the 500 of the first line that cannot be priced.
  */
  method SumOrder(rows: seq<Row>, items: seq<int>) returns (total: Result<real>)
    ensures var c := Collect(OrderLines(rows, items));
      && (c.Err? ==> total == Err(c.status))
      && (c.Ok? ==> total == Ok(Total(c.value)))
  {
    total := SumLines(items, id => OrderLineOf(rows, id));
    assert Records(items, id => OrderLineOf(rows, id)) == OrderLines(rows, items);
  }

  /**
    The first loop over any per-line read: `SumOrder` passes `OrderLineOf`,
    the queries and conversions of one turn.
  */
  method SumLines(items: seq<int>, read: int -> Result<OrderLine>) returns (total: Result<real>)
    ensures var c := Collect(Records(items, read));
      && (c.Err? ==> total == Err(c.status))
      && (c.Ok? ==> total == Ok(Total(c.value)))
  {
    ghost var steps := Records(items, read);
    ghost var lines: seq<OrderLine> := [];
    var sum := 0.0;
    var k := 0;
    while k < |items|
      invariant 0 <= k <= |items|
      invariant Collect(steps[..k]) == Ok(lines)
      invariant sum == Total(lines)
    {
      var r := read(items[k]);
      if r.Err? {
        CollectErr(steps, k, lines, r.status);
        return Err(r.status);
      }
      var line := r.value;
      CollectOk(steps, k, lines, line);
      TotalAppend(lines, line);
      sum := sum + line.Amount();
      lines := lines + [line];
      k := k + 1;
    }
    assert steps[..k] == steps;
    total := Ok(sum);
  }

  /**
    The second loop: for each line, the next order_item id, the dish's price
    text read again, and the item's four rows. Only `order` rows were written
    since the lines were read, so the price read is the one the total used.
  */
  method WriteOrderItems(db: Store, orderId: int, cartRows: seq<Row>, ghost extra: seq<Row>, items: seq<int>,
                         ghost lines: seq<OrderLine>, ghost start: nat)
    requires db.Valid() && db.rows == cartRows + extra && db.nextValId == start
    requires forall x :: x in extra ==> x.ent == "order"
    requires Collect(OrderLines(cartRows, items)) == Ok(lines)
    modifies db
    ensures db.Valid() && db.sysEnt == old(db.sysEnt)
    ensures db.rows == (cartRows + extra) + ItemStamps(start, NextId(cartRows, "order_item"), orderId, lines)
    ensures db.nextValId == start + 4 * |lines|
  {
    ghost var base := NextId(cartRows, "order_item");
    ghost var before := db.rows;
    assert lines[..0] == [];
    ItemStampsNone(before, start, base, orderId);
    var k := 0;
    while k < |items|
      invariant 0 <= k <= |items| == |lines|
      invariant db.Valid() && db.sysEnt == old(db.sysEnt)
      invariant db.rows == before + ItemStamps(start, base, orderId, lines[..k])
      invariant db.nextValId == start + 4 * k
    {
      WriteNextItem(db, orderId, cartRows, extra, items, lines, k, start);
      k := k + 1;
    }
    ItemStampsWhole(start, base, orderId, lines, k);
    assert db.nextValId == start + 4 * |lines|;
    assert db.Valid();
  }

  /** One turn of the item loop: the rows of the `k`-th line follow those of the lines before it. */
  method WriteNextItem(db: Store, orderId: int, cartRows: seq<Row>, ghost extra: seq<Row>, items: seq<int>,
                       ghost lines: seq<OrderLine>, k: nat, ghost start: nat)
    requires db.Valid() && forall x :: x in extra ==> x.ent == "order"
    requires Collect(OrderLines(cartRows, items)) == Ok(lines) && k < |lines|
    requires db.rows == (cartRows + extra) + ItemStamps(start, NextId(cartRows, "order_item"), orderId, lines[..k])
    requires db.nextValId == start + 4 * k
    modifies db
    ensures db.Valid() && db.sysEnt == old(db.sysEnt)
    ensures db.rows == (cartRows + extra) + ItemStamps(start, NextId(cartRows, "order_item"), orderId, lines[..k + 1])
    ensures db.nextValId == start + 4 * (k + 1)
  {
    ghost var base := NextId(cartRows, "order_item");
    ghost var written := ItemStamps(start, base, orderId, lines[..k]);
    ghost var at, itemId, line := db.nextValId, base + k, lines[k];
    ItemLoopStep(cartRows, extra, start, orderId, items, lines, k, written, db.rows, itemId);
    WriteOrderItem(db, orderId, cartRows, items[k], line, itemId);
    ItemStampsStep(start, base, orderId, lines, k, at, itemId, line);
    AppendAssoc(cartRows + extra, written, Stamp(at, "order_item", itemId, ItemFields(orderId, line)));
  }

  /**
    One turn of the second loop: the next order_item id, the dish's price
    text read again, and the item's four rows.
  */
  method WriteOrderItem(db: Store, orderId: int, cartRows: seq<Row>, id: int, ghost line: OrderLine, ghost itemId: int)
    requires db.Valid()
    requires OrderLineOf(cartRows, id) == Ok(line)
    requires PriceText(db.rows, Some(line.dishId)) == Some(line.priceText)
    requires itemId == NextId(db.rows, "order_item")
    modifies db
    ensures db.Valid() && db.sysEnt == old(db.sysEnt)
    ensures db.rows == old(db.rows) + Stamp(old(db.nextValId), "order_item", itemId, ItemFields(orderId, line))
    ensures db.nextValId == old(db.nextValId) + 4
  {
    var newId := NextId(db.rows, "order_item");
    var g := EntityRows(cartRows, "cart_item", id);
    LineTexts(cartRows, id, line);
    var dishId := MaxOf(g, "dish_id");
    var qty := MaxOf(g, "quantity");
    var price := PriceText(db.rows, dishId);
    var fields := [("order_id", IntToStr(orderId)), ("dish_id", dishId.value), ("quantity", qty.value), ("price", price.value)];
    assert fields == ItemFields(orderId, line);
    db.InsertMany("order_item", newId, fields);
  }

  /** The price lookup ignores rows of other types. */
  lemma PriceTextAppend(rows: seq<Row>, added: seq<Row>, dishId: Option<string>)
    requires forall x :: x in added ==> x.ent != "dish"
    ensures PriceText(rows + added, dishId) == PriceText(rows, dishId)
  {
    if InstanceOf(dishId).Some? {
      var w := AttrIn("dish", "price", {InstanceOf(dishId).value});
      FirstRowAppend(rows, added, w);
      NoRowMatches(added, w);
    }
  }

  /** The items of one more line. */
  lemma ItemStampsStep(start: nat, base: int, orderId: int, ls: seq<OrderLine>, k: nat, at: nat, id: int, l: OrderLine)
    requires k < |ls| && at == start + 4 * k && id == base + k && l == ls[k]
    ensures ItemStamps(start, base, orderId, ls[..k + 1])
            == ItemStamps(start, base, orderId, ls[..k]) + Stamp(at, "order_item", id, ItemFields(orderId, l))
  {
    assert ls[..k + 1][..k] == ls[..k];
  }

  /** Every item row is an order_item row of one of the instances `base` .. `base + |ls| - 1`. */
  lemma {:induction false} ItemStampsOf(start: nat, base: int, orderId: int, ls: seq<OrderLine>)
    ensures forall x :: x in ItemStamps(start, base, orderId, ls) ==> x.ent == "order_item" && base <= x.inst < base + |ls|
    decreases |ls|
  {
    if ls != [] {
      var k := |ls| - 1;
      ItemStampsOf(start, base, orderId, ls[..k]);
      StampAllOf(start + 4 * k, "order_item", base + k, ItemFields(orderId, ls[k]));
    }
  }

  /**
    What one turn of the item loop needs: the next order_item id is `k` past
    the first, the `k`-th line is the one read for the `k`-th item, and the
    rows written so far hold no dish, so its price text reads as before.
  */
  lemma ItemLoopStep(cartRows: seq<Row>, extra: seq<Row>, start: nat, orderId: int, items: seq<int>,
                     lines: seq<OrderLine>, k: nat, written: seq<Row>, rows: seq<Row>, itemId: int)
    requires forall x :: x in extra ==> x.ent == "order"
    requires Collect(OrderLines(cartRows, items)) == Ok(lines)
    requires k < |lines|
    requires written == ItemStamps(start, NextId(cartRows, "order_item"), orderId, lines[..k])
    requires rows == (cartRows + extra) + written && itemId == NextId(cartRows, "order_item") + k
    ensures NextId(rows, "order_item") == itemId
    ensures OrderLineOf(cartRows, items[k]) == Ok(lines[k])
    ensures PriceText(rows, Some(lines[k].dishId)) == Some(lines[k].priceText)
  {
    AppendAssoc(cartRows, extra, written);
    NoDishWritten(extra, start, NextId(cartRows, "order_item"), orderId, lines[..k]);
    PriceTextAppend(cartRows, extra + written, Some(lines[k].dishId));
    NextIdOtherType(cartRows, extra, "order_item");
    ItemStampsNextId(cartRows + extra, start, orderId, lines[..k]);
    assert OrderLines(cartRows, items)[k] == Ok(lines[k]);
    LineTexts(cartRows, items[k], lines[k]);
  }

  /** The order row and the items written so far hold no dish rows, so the price reads stay as they were. */
  lemma NoDishWritten(extra: seq<Row>, start: nat, base: int, orderId: int, ls: seq<OrderLine>)
    requires forall x :: x in extra ==> x.ent == "order"
    ensures forall x :: x in extra + ItemStamps(start, base, orderId, ls) ==> x.ent != "dish"
  {
    ItemStampsOf(start, base, orderId, ls);
  }

  /**
    Allocating `MAX(ent_instance_id) + 1` before each item gives the items
    consecutive ids: after `n` items the next id has moved on by `n`.
  */
  lemma ItemStampsNextId(rows: seq<Row>, start: nat, orderId: int, ls: seq<OrderLine>)
    ensures var base := NextId(rows, "order_item");
      NextId(rows + ItemStamps(start, base, orderId, ls), "order_item") == base + |ls|
  {
    var base := NextId(rows, "order_item");
    var after := rows + ItemStamps(start, base, orderId, ls);
    if ls == [] {
      assert after == rows;
    } else {
      ItemStampsLastId(rows, start, base, orderId, ls);
      ItemStampsOf(start, base, orderId, ls);
      NextIdIs(after, "order_item", base + |ls| - 1);
    }
  }

  lemma ItemStampsWhole(start: nat, base: int, orderId: int, ls: seq<OrderLine>, k: nat)
    requires k == |ls|
    ensures ItemStamps(start, base, orderId, ls[..k]) == ItemStamps(start, base, orderId, ls)
  {
    assert ls[..k] == ls;
  }

  lemma ItemStampsNone(rows: seq<Row>, start: nat, base: int, orderId: int)
    ensures rows + ItemStamps(start, base, orderId, []) == rows
  {
  }

  lemma AppendAssoc(a: seq<Row>, b: seq<Row>, c: seq<Row>)
    ensures a + (b + c) == (a + b) + c
  {
  }

  /** The last line's item is there. */
  lemma ItemStampsLastId(rows: seq<Row>, start: nat, base: int, orderId: int, ls: seq<OrderLine>)
    requires ls != []
    ensures exists x :: x in rows + ItemStamps(start, base, orderId, ls) && x.ent == "order_item" && x.inst == base + |ls| - 1
  {
    var k := |ls| - 1;
    var item := Stamp(start + 4 * k, "order_item", base + k, ItemFields(orderId, ls[k]));
    ItemStampsSplit(rows, start, base, orderId, ls);
    assert item[0] in item;
  }

  /** The table after the items of some lines, as the table after all but the last, then the last item. */
  lemma ItemStampsSplit(rows: seq<Row>, start: nat, base: int, orderId: int, ls: seq<OrderLine>)
    requires ls != []
    ensures var k := |ls| - 1;
      rows + ItemStamps(start, base, orderId, ls)
        == (rows + ItemStamps(start, base, orderId, ls[..k])) + Stamp(start + 4 * k, "order_item", base + k, ItemFields(orderId, ls[k]))
  {
    var k := |ls| - 1;
    AppendAssoc(rows, ItemStamps(start, base, orderId, ls[..k]), Stamp(start + 4 * k, "order_item", base + k, ItemFields(orderId, ls[k])));
  }

  // ---------------------------------------------------------------------
  // What a placed order leaves in the table
  // ---------------------------------------------------------------------

  /** The rows of instance `base + i` among the items are exactly the `i`-th item's four rows. */
  lemma {:induction false} ItemStampsSelect(start: nat, base: int, orderId: int, ls: seq<OrderLine>, i: nat)
    requires i < |ls|
    ensures Select(ItemStamps(start, base, orderId, ls), OfEntity("order_item", base + i))
            == Stamp(start + 4 * i, "order_item", base + i, ItemFields(orderId, ls[i]))
    decreases |ls|
  {
    var n := |ls| - 1;
    if i == n {
      ItemStampsSelectLast(start, base, orderId, ls);
    } else {
      var w := OfEntity("order_item", base + i);
      var init := ItemStamps(start, base, orderId, ls[..n]);
      var last := Stamp(start + 4 * n, "order_item", base + n, ItemFields(orderId, ls[n]));
      assert ItemStamps(start, base, orderId, ls) == init + last;
      assert forall x :: x in last ==> !Matches(x, w) by {
        StampAllOf(start + 4 * n, "order_item", base + n, ItemFields(orderId, ls[n]));
      }
      SelectOnlyInit(init, last, w);
      ItemStampsSelect(start, base, orderId, ls[..n], i);
      assert ls[..n][i] == ls[i];
    }
  }

  /** The last item's rows are the only rows of its instance. */
  lemma ItemStampsSelectLast(start: nat, base: int, orderId: int, ls: seq<OrderLine>)
    requires ls != []
    ensures var n := |ls| - 1;
      Select(ItemStamps(start, base, orderId, ls), OfEntity("order_item", base + n))
        == Stamp(start + 4 * n, "order_item", base + n, ItemFields(orderId, ls[n]))
  {
    var n := |ls| - 1;
    var w := OfEntity("order_item", base + n);
    var init := ItemStamps(start, base, orderId, ls[..n]);
    var last := Stamp(start + 4 * n, "order_item", base + n, ItemFields(orderId, ls[n]));
    ItemStampsMiss(start, base, orderId, ls[..n], base + n);
    StampMatches(start + 4 * n, "order_item", base + n, ItemFields(orderId, ls[n]));
    SelectOnlyLast(init, last, w);
  }

  /** No item row is of an instance past the items. */
  lemma ItemStampsMiss(start: nat, base: int, orderId: int, ls: seq<OrderLine>, id: int)
    requires base + |ls| <= id
    ensures forall x :: x in ItemStamps(start, base, orderId, ls) ==> !Matches(x, OfEntity("order_item", id))
  {
    ItemStampsOf(start, base, orderId, ls);
  }

  /** Every row written for an instance matches that instance. */
  lemma StampMatches(start: nat, ent: string, id: int, fields: seq<(string, string)>)
    ensures forall x :: x in Stamp(start, ent, id, fields) ==> Matches(x, OfEntity(ent, id))
  {
    StampAllOf(start, ent, id, fields);
  }

  lemma SelectOnlyLast(init: seq<Row>, last: seq<Row>, w: Where)
    requires forall x :: x in init ==> !Matches(x, w)
    requires forall x :: x in last ==> Matches(x, w)
    ensures Select(init + last, w) == last
  {
    SelectAppend(init, last, w);
    SelectNothing(init, w);
    SelectEverything(last, w);
  }

  lemma SelectOnlyInit(init: seq<Row>, last: seq<Row>, w: Where)
    requires forall x :: x in last ==> !Matches(x, w)
    ensures Select(init + last, w) == Select(init, w)
  {
    SelectAppend(init, last, w);
    SelectNothing(last, w);
  }

  /**
    The order reads back as written: the rows of the new order id are its
    five rows, with the total of the lines.
  */
  lemma PlacedOrderRows(rows: seq<Row>, next: nat, order: OrderIn, fmt: real -> string, now: string,
                        cartId: int, ids: seq<int>, ls: seq<OrderLine>)
    requires CartOf(rows, order.userId) == Some(cartId) && ids == CartItemGroups(rows, cartId) && ids != []
    requires Collect(OrderLines(rows, ids)) == Ok(ls)
    ensures var orderId := NextId(rows, "order");
      EntityRows(PlaceOrderSpec(rows, next, order, fmt, now).rows, "order", orderId)
        == Stamp(next, "order", orderId, OrderFields(order, Total(ls), fmt, now))
  {
    var orderId := NextId(rows, "order");
    var fields := OrderFields(order, Total(ls), fmt, now);
    PlaceOrderSpecPlaced(rows, next, order, fmt, now, cartId, ids, ls, orderId, Total(ls));
    var placed := rows + Stamp(next, "order", orderId, fields);
    var items := ItemStamps(next + 5, NextId(rows, "order_item"), orderId, ls);
    var w := OfEntity("order", orderId);
    OtherTypeNeverMatches(w, OfEntities("cart_item", ItemSet(ids)));
    SelectAfterDelete(placed + items, OfEntities("cart_item", ItemSet(ids)), w);
    SelectAppend(placed, items, w);
    InsertedEntity(rows, next, "order", fields);
    ItemStampsOf(next + 5, NextId(rows, "order_item"), orderId, ls);
    SelectNothing(items, w);
  }

  /** No row is of an instance at or past the next id of its type. */
  lemma SelectPastNextId(rows: seq<Row>, ent: string, id: int)
    requires NextId(rows, ent) <= id
    ensures Select(rows, OfEntity(ent, id)) == []
  {
    SelectNothing(rows, OfEntity(ent, id));
  }

  /** What the placed order item `id`, the `i`-th, reads in the table a placed order leaves. */
  lemma PlacedItemRows(rows: seq<Row>, next: nat, orderId: int, fields: seq<(string, string)>,
                       ls: seq<OrderLine>, ids: seq<int>, i: nat, id: int)
    requires i < |ls| && id == NextId(rows, "order_item") + i
    ensures EntityRows(Delete((rows + Stamp(next, "order", orderId, fields))
                                + ItemStamps(next + 5, NextId(rows, "order_item"), orderId, ls),
                              OfEntities("cart_item", ItemSet(ids))), "order_item", id)
              == Stamp(next + 5 + 4 * i, "order_item", id, ItemFields(orderId, ls[i]))
  {
    var base := NextId(rows, "order_item");
    var items := ItemStamps(next + 5, base, orderId, ls);
    var its := Stamp(next + 5 + 4 * i, "order_item", id, ItemFields(orderId, ls[i]));
    assert Select(items, OfEntity("order_item", id)) == its by {
      ItemStampsSelect(next + 5, base, orderId, ls, i);
    }
    FreshItemRows(rows, next, orderId, fields, items, ids, id, its);
  }

  /**
    A fresh order item id has, after a placed order, exactly the rows the
    order's item rows give it, whatever cart lines are deleted.
  */
  lemma FreshItemRows(rows: seq<Row>, next: nat, orderId: int, fields: seq<(string, string)>,
                      items: seq<Row>, ids: seq<int>, id: int, its: seq<Row>)
    requires NextId(rows, "order_item") <= id
    requires Select(items, OfEntity("order_item", id)) == its
    ensures EntityRows(Delete((rows + Stamp(next, "order", orderId, fields)) + items,
                              OfEntities("cart_item", ItemSet(ids))), "order_item", id)
              == its
  {
    var placed := rows + Stamp(next, "order", orderId, fields);
    var w := OfEntity("order_item", id);
    var d := OfEntities("cart_item", ItemSet(ids));
    OtherTypeNeverMatches(w, d);
    SelectAfterDelete(placed + items, d, w);
    SelectAppend(placed, items, w);
    InsertInvisible(rows, next, "order", orderId, fields, w);
    SelectPastNextId(rows, "order_item", id);
  }

  /** The `i`-th collected line is the line read for the `i`-th cart item. */
  lemma CollectedLine(rows: seq<Row>, ids: seq<int>, ls: seq<OrderLine>, i: nat)
    requires Collect(OrderLines(rows, ids)) == Ok(ls)
    requires i < |ls|
    ensures i < |ids| && OrderLineOf(rows, ids[i]) == Ok(ls[i]) && ls[i].itemId == ids[i]
  {
    assert OrderLines(rows, ids)[i] == Ok(ls[i]);
  }

  /**
    The `i`-th line becomes order item `id`, the `i`-th id past the largest
    order item id before, so one no order item had: its rows are the order
    id, the cart line's dish id and quantity texts and the dish's price text
    as read, and nothing else.
  */
  lemma PlacedItem(rows: seq<Row>, next: nat, order: OrderIn, fmt: real -> string, now: string,
                   cartId: int, ids: seq<int>, ls: seq<OrderLine>, i: nat, id: int)
    requires CartOf(rows, order.userId) == Some(cartId) && ids == CartItemGroups(rows, cartId) && ids != []
    requires Collect(OrderLines(rows, ids)) == Ok(ls)
    requires i < |ls| && id == NextId(rows, "order_item") + i
    ensures i < |ids| && OrderLineOf(rows, ids[i]) == Ok(ls[i]) && ls[i].itemId == ids[i]
    ensures id !in InstanceIds(rows, "order_item")
    ensures EntityRows(PlaceOrderSpec(rows, next, order, fmt, now).rows, "order_item", id)
              == Stamp(next + 5 + 4 * i, "order_item", id, ItemFields(NextId(rows, "order"), ls[i]))
  {
    var orderId := NextId(rows, "order");
    var fields := OrderFields(order, Total(ls), fmt, now);
    PlacedItemRows(rows, next, orderId, fields, ls, ids, i, id);
    CollectedLine(rows, ids, ls, i);
    PastNextIdUnused(rows, "order_item", id);
    PlaceOrderSpecPlaced(rows, next, order, fmt, now, cartId, ids, ls, orderId, Total(ls));
  }

  /** No row of a consumed cart line survives the delete. */
  lemma CartLinesDeleted(rs: seq<Row>, ids: seq<int>, id: int)
    requires id in ids
    ensures EntityRows(Delete(rs, OfEntities("cart_item", ItemSet(ids))), "cart_item", id) == []
  {
    SelectNothing(Delete(rs, OfEntities("cart_item", ItemSet(ids))), OfEntity("cart_item", id));
  }

  /** Every consumed cart line is gone. */
  lemma PlacedCartCleared(rows: seq<Row>, next: nat, order: OrderIn, fmt: real -> string, now: string,
                          cartId: int, ids: seq<int>, ls: seq<OrderLine>, id: int)
    requires CartOf(rows, order.userId) == Some(cartId) && ids == CartItemGroups(rows, cartId) && ids != []
    requires Collect(OrderLines(rows, ids)) == Ok(ls)
    requires id in ids
    ensures EntityRows(PlaceOrderSpec(rows, next, order, fmt, now).rows, "cart_item", id) == []
  {
    var orderId := NextId(rows, "order");
    var fields := OrderFields(order, Total(ls), fmt, now);
    PlaceOrderSpecPlaced(rows, next, order, fmt, now, cartId, ids, ls, orderId, Total(ls));
    CartLinesDeleted((rows + Stamp(next, "order", orderId, fields)) + ItemStamps(next + 5, NextId(rows, "order_item"), orderId, ls), ids, id);
  }
  /**
    Other rows stay as they were: a query on a type other than order and
    order_item, and for cart_item one confined to instances outside the
    consumed lines, reads the same rows before and after. The cart itself is
    one of them.
  */
  lemma PlacedFrame(rows: seq<Row>, next: nat, order: OrderIn, fmt: real -> string, now: string,
                    cartId: int, ids: seq<int>, ls: seq<OrderLine>, w: Where)
    requires CartOf(rows, order.userId) == Some(cartId) && ids == CartItemGroups(rows, cartId) && ids != []
    requires Collect(OrderLines(rows, ids)) == Ok(ls)
    requires w.ent != "order" && w.ent != "order_item"
    requires w.ent == "cart_item" ==> w.ids.Some? && forall id :: id in ids ==> id !in w.ids.value
    ensures Select(PlaceOrderSpec(rows, next, order, fmt, now).rows, w) == Select(rows, w)
  {
    var orderId := NextId(rows, "order");
    var fields := OrderFields(order, Total(ls), fmt, now);
    PlaceOrderSpecPlaced(rows, next, order, fmt, now, cartId, ids, ls, orderId, Total(ls));
    var placed := rows + Stamp(next, "order", orderId, fields);
    var items := ItemStamps(next + 5, NextId(rows, "order_item"), orderId, ls);
    var d := OfEntities("cart_item", ItemSet(ids));
    SelectAfterDelete(placed + items, d, w);
    SelectAppend(placed, items, w);
    InsertInvisible(rows, next, "order", orderId, fields, w);
    ItemStampsOf(next + 5, NextId(rows, "order_item"), orderId, ls);
    SelectNothing(items, w);
  }

  // ---------------------------------------------------------------------
  // GET /orders/{user_id}
  // ---------------------------------------------------------------------

  /** One listed item: `int()` of its dish id and quantity texts, `float()` of its price text. */
  datatype ItemView = ItemView(dishId: int, quantity: int, price: real) {
    /** The item's `total`: `float(price) * int(quantity)`. */
    function Total(): real {
      price * quantity as real
    }
  }

  /** One listed order: its header fields, with their defaults, and its items. */
  datatype OrderView = OrderView(orderId: int, status: string, totalPrice: real, createdAt: string, addressId: int,
                                 items: seq<ItemView>)

  /**
    The GROUP BY of the order's items: every order_item instance with an
    `order_id` row holding str(orderId), once, ascending.
  */
  function OrderItemGroups(rows: seq<Row>, orderId: int): (ids: seq<int>)
    ensures Ascending(ids)
    ensures forall id :: id in ids <==> id in FindIds(rows, "order_item", "order_id", IntToStr(orderId))
  {
    OwnedGroups(rows, "order_item", "order_id", IntToStr(orderId))
  }

  /** One item row of the GROUP BY: 500 when its dish id, quantity or price is missing or does not parse. */
  function ItemViewOf(rows: seq<Row>, id: int): (r: Result<ItemView>)
    ensures r.Err? ==> r.status == ServerError
    ensures var g := EntityRows(rows, "order_item", id);
      r.Ok? <==> IntOf(MaxOf(g, "dish_id")).Some? && IntOf(MaxOf(g, "quantity")).Some? && RealOf(MaxOf(g, "price")).Some?
  {
    var g := EntityRows(rows, "order_item", id);
    var dishId := IntOf(MaxOf(g, "dish_id"));
    var quantity := IntOf(MaxOf(g, "quantity"));
    var price := RealOf(MaxOf(g, "price"));
    if dishId.None? || quantity.None? || price.None? then Err(ServerError)
    else Ok(ItemView(dishId.value, quantity.value, price.value))
  }

  /** The view of each of some order items, in their order. */
  function ItemViews(rows: seq<Row>, ids: seq<int>): (rs: seq<Result<ItemView>>)
    ensures |rs| == |ids|
    ensures forall i :: 0 <= i < |ids| ==> rs[i] == ItemViewOf(rows, ids[i])
  {
    seq(|ids|, i requires 0 <= i < |ids| => ItemViewOf(rows, ids[i]))
  }

  /**
    The record of one order from its attribute dict and its items: status
    and created_at default to "unknown", total_price and address_id to 0;
    a text `float()` or `int()` rejects, or an item that fails, is a 500.
  */
  function OrderViewOf(orderId: int, attrs: map<string, string>, items: Result<seq<ItemView>>): (r: Result<OrderView>)
    ensures r.Err? ==> r.status == ServerError
    ensures r.Ok? <==> RealOr(attrs, "total_price").Some? && IntOr(attrs, "address_id").Some? && items.Ok?
    ensures r.Ok? ==> r.value.orderId == orderId && r.value.items == items.value
  {
    var total := RealOr(attrs, "total_price");
    var addressId := IntOr(attrs, "address_id");
    if total.None? || addressId.None? || items.Err? then Err(ServerError)
    else Ok(OrderView(orderId, Lookup(attrs, "status").GetOr("unknown"), total.value,
                      Lookup(attrs, "created_at").GetOr("unknown"), addressId.value, items.value))
  }

  /** One order of the list: the dict of its rows (later rows win) and the GROUP BY of its items. */
  function UserOrderOf(rows: seq<Row>, orderId: int): (r: Result<OrderView>)
    ensures r.Err? ==> r.status == ServerError
    ensures r.Ok? ==> r.value.orderId == orderId && |r.value.items| == |OrderItemGroups(rows, orderId)|
  {
    OrderViewOf(orderId, DictPivot(EntityRows(rows, "order", orderId)),
                Collect(ItemViews(rows, OrderItemGroups(rows, orderId))))
  }

  /**
    The ids the first query returns: the instance of every `order` row whose
    `user_id` holds str(userId), in table order (one per such row).
  */
  function UserOrderIds(rows: seq<Row>, userId: int): (ids: seq<int>)
    ensures forall id :: id in ids <==>
      exists x :: x in rows && x.ent == "order" && x.attr == "user_id" && x.value == IntToStr(userId) && x.inst == id
  {
    var rs := Select(rows, WithValue("order", "user_id", IntToStr(userId)));
    InstListMembers(rs);
    InstList(rs)
  }

  /** The record of each of some orders, in their order. */
  function UserOrderResults(rows: seq<Row>, ids: seq<int>): (rs: seq<Result<OrderView>>)
    ensures |rs| == |ids|
    ensures forall i :: 0 <= i < |ids| ==> rs[i] == UserOrderOf(rows, ids[i])
  {
    seq(|ids|, i requires 0 <= i < |ids| => UserOrderOf(rows, ids[i]))
  }

  /**
    What `GET /orders/{user_id}` answers: `[]` when no order names the user;
    otherwise one record per id the first query returns, in that order, or
    500 when one of them fails.
  */
  function GetUserOrdersSpec(rows: seq<Row>, userId: int): (r: Result<seq<OrderView>>)
    ensures r.Err? ==> r.status == ServerError
    ensures (forall x :: x in rows ==> !(x.ent == "order" && x.attr == "user_id" && x.value == IntToStr(userId))) ==> r == Ok([])
  {
    var ids := UserOrderIds(rows, userId);
    if ids == [] then Ok([])
    else
      assert ids[0] in ids;
      match Collect(UserOrderResults(rows, ids))
      case Ok(views) => Ok(views)
      case Err(_) => Err(ServerError)
  }

  /** A successful answer holds one record per id the first query returns, in that order. */
  lemma UserOrdersListed(rows: seq<Row>, userId: int)
    requires GetUserOrdersSpec(rows, userId).Ok?
    ensures var all := GetUserOrdersSpec(rows, userId).value;
      var ids := UserOrderIds(rows, userId);
      && |all| == |ids|
      && forall i :: 0 <= i < |ids| ==> all[i].orderId == ids[i] && UserOrderOf(rows, ids[i]) == Ok(all[i])
  {
    var ids := UserOrderIds(rows, userId);
    if ids != [] {
      var all := GetUserOrdersSpec(rows, userId).value;
      var rs := UserOrderResults(rows, ids);
      forall i | 0 <= i < |ids| ensures all[i].orderId == ids[i] && UserOrderOf(rows, ids[i]) == Ok(all[i]) {
        assert rs[i] == Ok(all[i]);
      }
    }
  }

  /** The loop over the order ids; the first order that fails ends the call with 500. */
  method GetUserOrders(db: Store, userId: int) returns (r: Result<seq<OrderView>>)
    ensures r == GetUserOrdersSpec(db.rows, userId)
  {
    var rows := db.rows;
    var orderIds := UserOrderIds(rows, userId);
    if orderIds == [] {
      return Ok([]);
    }
    ghost var steps := UserOrderResults(rows, orderIds);
    var result: seq<OrderView> := [];
    var k := 0;
    while k < |orderIds|
      invariant 0 <= k <= |orderIds|
      invariant Collect(steps[..k]) == Ok(result)
    {
      var order := UserOrderOf(rows, orderIds[k]);
      if order.Err? {
        CollectErr(steps, k, result, order.status);
        return Err(ServerError);
      }
      CollectOk(steps, k, result, order.value);
      result := result + [order.value];
      k := k + 1;
    }
    assert steps[..k] == steps;
    r := Ok(result);
  }

  // ---------------------------------------------------------------------
  // A placed order, as the user's order list shows it
  // ---------------------------------------------------------------------

  /**
    The placed order's rows pivot to the dict of its five fields, and the
    order is among those the list finds for the user.
  */
  lemma PlacedOrderHeader(rows: seq<Row>, next: nat, order: OrderIn, fmt: real -> string, now: string,
                          cartId: int, ids: seq<int>, ls: seq<OrderLine>)
    requires CartOf(rows, order.userId) == Some(cartId) && ids == CartItemGroups(rows, cartId) && ids != []
    requires Collect(OrderLines(rows, ids)) == Ok(ls)
    ensures var after := PlaceOrderSpec(rows, next, order, fmt, now).rows;
      var orderId := NextId(rows, "order");
      && DictPivot(EntityRows(after, "order", orderId)) == FieldMap(OrderFields(order, Total(ls), fmt, now))
      && orderId in UserOrderIds(after, order.userId)
  {
    var orderId := NextId(rows, "order");
    var fields := OrderFields(order, Total(ls), fmt, now);
    var after := PlaceOrderSpec(rows, next, order, fmt, now).rows;
    PlacedOrderRows(rows, next, order, fmt, now, cartId, ids, ls);
    DictPivotStamp(next, "order", orderId, fields);
    var st := Stamp(next, "order", orderId, fields);
    assert st[0] in EntityRows(after, "order", orderId);
  }

  /**
    The record of an order written with these five fields shows them back:
    the status (or "pending"), the total when `float()` reads back the text
    it was stored as, the creation time and the address id.
  */
  lemma OrderFieldsRead(orderId: int, order: OrderIn, total: real, fmt: real -> string, now: string, items: seq<ItemView>)
    requires ParseDecimal(fmt(total)) == Some(total)
    ensures OrderViewOf(orderId, FieldMap(OrderFields(order, total, fmt, now)), Ok(items))
            == Ok(OrderView(orderId, order.status.GetOr("pending"), total, now, order.addressId, items))
  {
    OrderFieldsLookups(order, total, fmt, now);
  }

  /** No order_item row names `orderId` in its `order_id`. */
  predicate NoItemsOf(rows: seq<Row>, orderId: int) {
    forall x :: x in rows ==> !(x.ent == "order_item" && x.attr == "order_id" && x.value == IntToStr(orderId))
  }

  /** After the placement, an item row naming the new order is one of the new items'. */
  lemma ItemOwnerWritten(rows: seq<Row>, next: nat, orderId: int, fields: seq<(string, string)>, base: int,
                         ls: seq<OrderLine>, ids: seq<int>, x: Row)
    requires NoItemsOf(rows, orderId)
    requires x in Delete((rows + Stamp(next, "order", orderId, fields)) + ItemStamps(next + 5, base, orderId, ls),
                         OfEntities("cart_item", ItemSet(ids)))
    requires x.ent == "order_item" && x.attr == "order_id" && x.value == IntToStr(orderId)
    ensures base <= x.inst < base + |ls|
  {
    StampAllOf(next, "order", orderId, fields);
    ItemStampsOf(next + 5, base, orderId, ls);
  }

  /**
    When no item named the new order before, the items listed under it
    are exactly the new ones: the ids `base` .. `base + |ls| - 1`.
  */
  lemma PlacedItemOwner(rows: seq<Row>, next: nat, order: OrderIn, fmt: real -> string, now: string,
                        cartId: int, ids: seq<int>, ls: seq<OrderLine>, id: int)
    requires CartOf(rows, order.userId) == Some(cartId) && ids == CartItemGroups(rows, cartId) && ids != []
    requires Collect(OrderLines(rows, ids)) == Ok(ls)
    requires NoItemsOf(rows, NextId(rows, "order"))
    ensures var found := FindIds(PlaceOrderSpec(rows, next, order, fmt, now).rows, "order_item", "order_id", IntToStr(NextId(rows, "order")));
      id in found <==> NextId(rows, "order_item") <= id < NextId(rows, "order_item") + |ls|
  {
    var orderId := NextId(rows, "order");
    var base := NextId(rows, "order_item");
    var fields := OrderFields(order, Total(ls), fmt, now);
    var after := PlaceOrderSpec(rows, next, order, fmt, now).rows;
    PlaceOrderSpecPlaced(rows, next, order, fmt, now, cartId, ids, ls, orderId, Total(ls));
    if base <= id < base + |ls| {
      var i: nat := id - base;
      PlacedItem(rows, next, order, fmt, now, cartId, ids, ls, i, id);
      var st := Stamp(next + 5 + 4 * i, "order_item", id, ItemFields(orderId, ls[i]));
      assert st[0] in EntityRows(after, "order_item", id);
    }
    if id in FindIds(after, "order_item", "order_id", IntToStr(orderId)) {
      var x :| x in after && x.ent == "order_item" && x.attr == "order_id" && x.value == IntToStr(orderId) && x.inst == id;
      ItemOwnerWritten(rows, next, orderId, fields, base, ls, ids, x);
    }
  }

  /** The placed order's items, in the list's GROUP BY order, are the new ids in allocation order. */
  lemma PlacedItemIds(rows: seq<Row>, next: nat, order: OrderIn, fmt: real -> string, now: string,
                      cartId: int, ids: seq<int>, ls: seq<OrderLine>)
    requires CartOf(rows, order.userId) == Some(cartId) && ids == CartItemGroups(rows, cartId) && ids != []
    requires Collect(OrderLines(rows, ids)) == Ok(ls)
    requires NoItemsOf(rows, NextId(rows, "order"))
    ensures OrderItemGroups(PlaceOrderSpec(rows, next, order, fmt, now).rows, NextId(rows, "order"))
            == Range(NextId(rows, "order_item"), |ls|)
  {
    var after := PlaceOrderSpec(rows, next, order, fmt, now).rows;
    var orderId := NextId(rows, "order");
    var base := NextId(rows, "order_item");
    PlacedItemOwners(rows, next, order, fmt, now, cartId, ids, ls);
    ItemGroupsOfRange(after, orderId, base, |ls|);
  }

  /** The items naming `orderId` are exactly the ids `base` .. `base + n - 1`. */
  ghost predicate ItemsNamedExactly(rows: seq<Row>, orderId: int, base: int, n: nat) {
    forall y :: y in FindIds(rows, "order_item", "order_id", IntToStr(orderId)) <==> base <= y < base + n
  }

  /** PlacedItemOwner, for every id at once. */
  lemma PlacedItemOwners(rows: seq<Row>, next: nat, order: OrderIn, fmt: real -> string, now: string,
                         cartId: int, ids: seq<int>, ls: seq<OrderLine>)
    requires CartOf(rows, order.userId) == Some(cartId) && ids == CartItemGroups(rows, cartId) && ids != []
    requires Collect(OrderLines(rows, ids)) == Ok(ls)
    requires NoItemsOf(rows, NextId(rows, "order"))
    ensures ItemsNamedExactly(PlaceOrderSpec(rows, next, order, fmt, now).rows, NextId(rows, "order"), NextId(rows, "order_item"), |ls|)
  {
    forall y
      ensures y in FindIds(PlaceOrderSpec(rows, next, order, fmt, now).rows, "order_item", "order_id", IntToStr(NextId(rows, "order")))
              <==> NextId(rows, "order_item") <= y < NextId(rows, "order_item") + |ls|
    {
      PlacedItemOwner(rows, next, order, fmt, now, cartId, ids, ls, y);
    }
  }

  /** When the items naming an order are the ids `base` .. `base + n - 1`, its groups are those ids in order. */
  lemma ItemGroupsOfRange(rows: seq<Row>, orderId: int, base: int, n: nat)
    requires ItemsNamedExactly(rows, orderId, base, n)
    ensures OrderItemGroups(rows, orderId) == Range(base, n)
  {
    AscendingRange(OrderItemGroups(rows, orderId), base, n);
  }

  /** The ids `lo` .. `lo + n - 1`, in order. */
  function Range(lo: int, n: nat): (r: seq<int>)
    ensures |r| == n && forall j :: 0 <= j < n ==> r[j] == lo + j
  {
    seq(n, j requires 0 <= j < n => lo + j)
  }

  /**
    How the list shows a line placed from the cart: `int()` of the dish id
    text (500 when it is not an integer), the quantity and the price the
    placement summed.
  */
  function LineView(l: OrderLine): (r: Result<ItemView>)
    ensures r.Ok? ==> r.value.quantity == l.count && r.value.price == l.price && r.value.Total() == l.Amount()
  {
    match StrToInt(l.dishId)
    case None => Err(ServerError)
    case Some(d) => Ok(ItemView(d, l.count, l.price))
  }

  /** The group of a placed item reads back as its line's view. */
  lemma PlacedItemView(rows: seq<Row>, next: nat, order: OrderIn, fmt: real -> string, now: string,
                       cartId: int, ids: seq<int>, ls: seq<OrderLine>, i: nat, id: int)
    requires CartOf(rows, order.userId) == Some(cartId) && ids == CartItemGroups(rows, cartId) && ids != []
    requires Collect(OrderLines(rows, ids)) == Ok(ls)
    requires i < |ls| && id == NextId(rows, "order_item") + i
    ensures ItemViewOf(PlaceOrderSpec(rows, next, order, fmt, now).rows, id) == LineView(ls[i])
  {
    PlacedItem(rows, next, order, fmt, now, cartId, ids, ls, i, id);
    LineTexts(rows, ids[i], ls[i]);
    StampedItemView(PlaceOrderSpec(rows, next, order, fmt, now).rows, next + 5 + 4 * i, NextId(rows, "order"), id, ls[i]);
  }

  /** An item whose rows are exactly the four written for a line reads back as the line's view. */
  lemma StampedItemView(rows: seq<Row>, at: nat, orderId: int, id: int, l: OrderLine)
    requires EntityRows(rows, "order_item", id) == Stamp(at, "order_item", id, ItemFields(orderId, l))
    requires ParseDecimal(l.priceText) == Some(l.price) && StrToInt(l.quantity) == Some(l.count)
    ensures ItemViewOf(rows, id) == LineView(l)
  {
    var fields := ItemFields(orderId, l);
    var g := Stamp(at, "order_item", id, fields);
    ItemFieldsDistinct(orderId, l);
    MaxOfStampDistinct(at, "order_item", id, fields, 1);
    MaxOfStampDistinct(at, "order_item", id, fields, 2);
    MaxOfStampDistinct(at, "order_item", id, fields, 3);
    assert IntOf(MaxOf(g, "dish_id")) == StrToInt(l.dishId);
    assert IntOf(MaxOf(g, "quantity")) == Some(l.count);
    assert RealOf(MaxOf(g, "price")) == Some(l.price);
  }

  /** The views a placed order's lines read back as, in line order. */
  function LineViews(ls: seq<OrderLine>): (rs: seq<Result<ItemView>>)
    ensures |rs| == |ls| && forall i :: 0 <= i < |ls| ==> rs[i] == LineView(ls[i])
  {
    seq(|ls|, i requires 0 <= i < |ls| => LineView(ls[i]))
  }

  /** Items that each read back as their line list as the lines' views. */
  lemma ViewsOfLines(rows: seq<Row>, groups: seq<int>, ls: seq<OrderLine>)
    requires |groups| == |ls| && forall j :: 0 <= j < |ls| ==> ItemViewOf(rows, groups[j]) == LineView(ls[j])
    ensures ItemViews(rows, groups) == LineViews(ls)
  {
    var a, b := ItemViews(rows, groups), LineViews(ls);
    forall j | 0 <= j < |ls| ensures a[j] == b[j] {
      assert a[j] == ItemViewOf(rows, groups[j]);
    }
  }

  /** PlacedItemView, for every item listed under the new order. */
  lemma PlacedItemViews(rows: seq<Row>, next: nat, order: OrderIn, fmt: real -> string, now: string,
                        cartId: int, ids: seq<int>, ls: seq<OrderLine>)
    requires CartOf(rows, order.userId) == Some(cartId) && ids == CartItemGroups(rows, cartId) && ids != []
    requires Collect(OrderLines(rows, ids)) == Ok(ls)
    requires NoItemsOf(rows, NextId(rows, "order"))
    ensures var after := PlaceOrderSpec(rows, next, order, fmt, now).rows;
      var groups := OrderItemGroups(after, NextId(rows, "order"));
      |groups| == |ls| && forall j :: 0 <= j < |ls| ==> ItemViewOf(after, groups[j]) == LineView(ls[j])
  {
    var after := PlaceOrderSpec(rows, next, order, fmt, now).rows;
    var groups := OrderItemGroups(after, NextId(rows, "order"));
    PlacedItemIds(rows, next, order, fmt, now, cartId, ids, ls);
    forall j | 0 <= j < |ls| ensures ItemViewOf(after, groups[j]) == LineView(ls[j]) {
      PlacedItemView(rows, next, order, fmt, now, cartId, ids, ls, j, groups[j]);
    }
  }

  /** The items listed under a placed order are its lines' views. */
  lemma PlacedItemsListed(rows: seq<Row>, next: nat, order: OrderIn, fmt: real -> string, now: string,
                          cartId: int, ids: seq<int>, ls: seq<OrderLine>)
    requires CartOf(rows, order.userId) == Some(cartId) && ids == CartItemGroups(rows, cartId) && ids != []
    requires Collect(OrderLines(rows, ids)) == Ok(ls)
    requires NoItemsOf(rows, NextId(rows, "order"))
    ensures var after := PlaceOrderSpec(rows, next, order, fmt, now).rows;
      ItemViews(after, OrderItemGroups(after, NextId(rows, "order"))) == LineViews(ls)
  {
    var after := PlaceOrderSpec(rows, next, order, fmt, now).rows;
    PlacedItemViews(rows, next, order, fmt, now, cartId, ids, ls);
    ViewsOfLines(after, OrderItemGroups(after, NextId(rows, "order")), ls);
  }

  /** The sum of some listed items' totals. */
  function ItemsTotal(items: seq<ItemView>): real {
    if items == [] then 0.0 else ItemsTotal(items[..|items| - 1]) + items[|items| - 1].Total()
  }

  /** When every line reads back, the listed items' totals add up to the order's total. */
  lemma {:induction false} ViewsTotal(ls: seq<OrderLine>, vs: seq<ItemView>)
    requires Collect(LineViews(ls)) == Ok(vs)
    ensures ItemsTotal(vs) == Total(ls)
  {
    if ls != [] {
      var n := |ls| - 1;
      var init := LineViews(ls)[..n];
      assert init == LineViews(ls[..n]);
      assert Collect(init) == Ok(vs[..n]) by {
        assert forall i :: 0 <= i < n ==> init[i] == Ok(vs[..n][i]);
        assert Collect(init).value == vs[..n];
      }
      ViewsTotal(ls[..n], vs[..n]);
      assert LineView(ls[n]) == Ok(vs[n]);
    }
  }

  /**
    A placed order, read back by the user's order list: it is listed under
    the user, its header is what was written (status as given or "pending",
    the total, the time, the address) and its items are its lines' views.
    The list fails with 500 exactly when some line's dish id does not parse
    as an integer; otherwise the items' totals add up to the order's total.
  */
  lemma PlacedOrderListed(rows: seq<Row>, next: nat, order: OrderIn, fmt: real -> string, now: string,
                          cartId: int, ids: seq<int>, ls: seq<OrderLine>)
    requires CartOf(rows, order.userId) == Some(cartId) && ids == CartItemGroups(rows, cartId) && ids != []
    requires Collect(OrderLines(rows, ids)) == Ok(ls)
    requires NoItemsOf(rows, NextId(rows, "order"))
    requires ParseDecimal(fmt(Total(ls))) == Some(Total(ls))
    ensures var after := PlaceOrderSpec(rows, next, order, fmt, now).rows;
      var orderId := NextId(rows, "order");
      && orderId in UserOrderIds(after, order.userId)
      && (UserOrderOf(after, orderId).Ok? <==> forall i :: 0 <= i < |ls| ==> StrToInt(ls[i].dishId).Some?)
      && (UserOrderOf(after, orderId).Ok? ==>
            var v := UserOrderOf(after, orderId).value;
            && v.status == order.status.GetOr("pending") && v.totalPrice == Total(ls)
            && v.createdAt == now && v.addressId == order.addressId
            && |v.items| == |ls| && ItemsTotal(v.items) == Total(ls)
            && forall i :: 0 <= i < |ls| ==> v.items[i].quantity == ls[i].count && v.items[i].price == ls[i].price)
  {
    var after := PlaceOrderSpec(rows, next, order, fmt, now).rows;
    var orderId := NextId(rows, "order");
    PlacedOrderHeader(rows, next, order, fmt, now, cartId, ids, ls);
    PlacedItemsListed(rows, next, order, fmt, now, cartId, ids, ls);
    ListedOrder(orderId, order, Total(ls), fmt, now, ls, after);
  }

  /** The read-back of a header written from `order` over items that are the lines' views. */
  lemma ListedOrder(orderId: int, order: OrderIn, total: real, fmt: real -> string, now: string,
                    ls: seq<OrderLine>, rows: seq<Row>)
    requires ParseDecimal(fmt(total)) == Some(total) && total == Total(ls)
    requires DictPivot(EntityRows(rows, "order", orderId)) == FieldMap(OrderFields(order, total, fmt, now))
    requires ItemViews(rows, OrderItemGroups(rows, orderId)) == LineViews(ls)
    ensures UserOrderOf(rows, orderId).Ok? <==> forall i :: 0 <= i < |ls| ==> StrToInt(ls[i].dishId).Some?
    ensures UserOrderOf(rows, orderId).Ok? ==>
      var v := UserOrderOf(rows, orderId).value;
      && v.status == order.status.GetOr("pending") && v.totalPrice == Total(ls)
      && v.createdAt == now && v.addressId == order.addressId
      && |v.items| == |ls| && ItemsTotal(v.items) == Total(ls)
      && forall i :: 0 <= i < |ls| ==> v.items[i].quantity == ls[i].count && v.items[i].price == ls[i].price
  {
    var c := Collect(LineViews(ls));
    if c.Ok? {
      OrderFieldsRead(orderId, order, total, fmt, now, c.value);
      ViewsTotal(ls, c.value);
    } else {
      var i :| 0 <= i < |ls| && LineViews(ls)[i] == Err(c.status);
      assert StrToInt(ls[i].dishId).None?;
    }
  }

  // ---------------------------------------------------------------------
  // GET /orders
  // ---------------------------------------------------------------------

  /** One entry of the all-orders list: the header only, without items. */
  datatype OrderSummary = OrderSummary(orderId: int, userId: int, addressId: int, status: string,
                                       totalPrice: real, createdAt: string)

  /**
    `SELECT DISTINCT ent_instance_id ... WHERE ent_name = 'order'`: every
    order id once, in the order of first appearance.
  */
  function AllOrderIds(rows: seq<Row>): (ids: seq<int>)
    ensures NoDuplicates(ids)
    ensures forall id :: id in ids <==> id in InstanceIds(rows, "order")
  {
    DistinctIds(Select(rows, OfType("order")))
  }

  /**
    One summary from the order's dict pivot: user and address id default
    to 0, status and created_at to "unknown", the total to 0.0; 500 when a
    present id or total does not parse.
  */
  function OrderSummaryOf(rows: seq<Row>, orderId: int): (r: Result<OrderSummary>)
    ensures r.Err? ==> r.status == ServerError
    ensures var attrs := DictPivot(EntityRows(rows, "order", orderId));
      r.Ok? <==> IntOr(attrs, "user_id").Some? && IntOr(attrs, "address_id").Some? && RealOr(attrs, "total_price").Some?
    ensures r.Ok? ==> r.value.orderId == orderId
  {
    var attrs := DictPivot(EntityRows(rows, "order", orderId));
    var userId := IntOr(attrs, "user_id");
    var addressId := IntOr(attrs, "address_id");
    var total := RealOr(attrs, "total_price");
    if userId.None? || addressId.None? || total.None? then Err(ServerError)
    else Ok(OrderSummary(orderId, userId.value, addressId.value, Lookup(attrs, "status").GetOr("unknown"),
                         total.value, Lookup(attrs, "created_at").GetOr("unknown")))
  }

  /** The summary of each of some orders, in their order. */
  function OrderSummaries(rows: seq<Row>, ids: seq<int>): (rs: seq<Result<OrderSummary>>)
    ensures |rs| == |ids|
    ensures forall i :: 0 <= i < |ids| ==> rs[i] == OrderSummaryOf(rows, ids[i])
  {
    seq(|ids|, i requires 0 <= i < |ids| => OrderSummaryOf(rows, ids[i]))
  }

  /**
    The response of `GET /orders`: an empty list when there is no order,
    otherwise one summary per order id, each order exactly once, or 500 at
    the first summary that fails.
  */
  function GetAllOrdersSpec(rows: seq<Row>): (r: Result<seq<OrderSummary>>)
    ensures r.Err? ==> r.status == ServerError
    ensures InstanceIds(rows, "order") == {} ==> r == Ok([])
  {
    var ids := AllOrderIds(rows);
    if ids == [] then Ok([])
    else
      assert ids[0] in ids;
      Collect(OrderSummaries(rows, ids))
  }

  /** A successful list holds one summary per order id, in the order of the ids. */
  lemma AllOrdersListed(rows: seq<Row>)
    requires GetAllOrdersSpec(rows).Ok?
    ensures var all := GetAllOrdersSpec(rows).value;
      var ids := AllOrderIds(rows);
      && |all| == |ids|
      && forall i :: 0 <= i < |ids| ==> all[i].orderId == ids[i] && OrderSummaryOf(rows, ids[i]) == Ok(all[i])
  {
    var ids := AllOrderIds(rows);
    if ids != [] {
      var all := GetAllOrdersSpec(rows).value;
      var rs := OrderSummaries(rows, ids);
      forall i | 0 <= i < |ids| ensures all[i].orderId == ids[i] && OrderSummaryOf(rows, ids[i]) == Ok(all[i]) {
        assert rs[i] == Ok(all[i]);
      }
    }
  }

  /** A successful list names every order exactly once. */
  lemma AllOrdersOnce(rows: seq<Row>)
    requires GetAllOrdersSpec(rows).Ok?
    ensures var all := GetAllOrdersSpec(rows).value;
      && (forall i, j :: 0 <= i < j < |all| ==> all[i].orderId != all[j].orderId)
      && (forall id :: id in InstanceIds(rows, "order") <==> exists i :: 0 <= i < |all| && all[i].orderId == id)
  {
    var all := GetAllOrdersSpec(rows).value;
    var ids := AllOrderIds(rows);
    AllOrdersListed(rows);
    forall id | id in InstanceIds(rows, "order") ensures exists i :: 0 <= i < |all| && all[i].orderId == id {
      var i :| 0 <= i < |ids| && ids[i] == id;
      assert all[i].orderId == id;
    }
  }

  /** `GET /orders`: the distinct order ids, then one summary per id. */
  method GetAllOrders(db: Store) returns (r: Result<seq<OrderSummary>>)
    ensures r == GetAllOrdersSpec(db.rows)
  {
    var rows := db.rows;
    var orderIds := AllOrderIds(rows);
    if orderIds == [] {
      return Ok([]);
    }
    ghost var steps := OrderSummaries(rows, orderIds);
    var result: seq<OrderSummary> := [];
    var k := 0;
    while k < |orderIds|
      invariant 0 <= k <= |orderIds|
      invariant Collect(steps[..k]) == Ok(result)
    {
      var summary := OrderSummaryOf(rows, orderIds[k]);
      if summary.Err? {
        CollectErr(steps, k, result, summary.status);
        return Err(summary.status);
      }
      CollectOk(steps, k, result, summary.value);
      result := result + [summary.value];
      k := k + 1;
    }
    assert steps[..k] == steps;
    r := Ok(result);
  }

  /** The summary of a header written from `order` is the order as placed. */
  lemma OrderFieldsSummary(rows: seq<Row>, orderId: int, order: OrderIn, total: real, fmt: real -> string, now: string)
    requires ParseDecimal(fmt(total)) == Some(total)
    requires DictPivot(EntityRows(rows, "order", orderId)) == FieldMap(OrderFields(order, total, fmt, now))
    ensures OrderSummaryOf(rows, orderId)
            == Ok(OrderSummary(orderId, order.userId, order.addressId, order.status.GetOr("pending"), total, now))
  {
    OrderFieldsLookups(order, total, fmt, now);
  }

  /**
    After a placement, the all-orders list holds the new order once, with
    the user, address, status, total and time it was placed with.
  */
  lemma PlacedOrderInAll(rows: seq<Row>, next: nat, order: OrderIn, fmt: real -> string, now: string,
                         cartId: int, ids: seq<int>, ls: seq<OrderLine>)
    requires CartOf(rows, order.userId) == Some(cartId) && ids == CartItemGroups(rows, cartId) && ids != []
    requires Collect(OrderLines(rows, ids)) == Ok(ls)
    requires ParseDecimal(fmt(Total(ls))) == Some(Total(ls))
    ensures var after := PlaceOrderSpec(rows, next, order, fmt, now).rows;
      var orderId := NextId(rows, "order");
      && orderId in AllOrderIds(after)
      && OrderSummaryOf(after, orderId)
         == Ok(OrderSummary(orderId, order.userId, order.addressId, order.status.GetOr("pending"), Total(ls), now))
  {
    var after := PlaceOrderSpec(rows, next, order, fmt, now).rows;
    var orderId := NextId(rows, "order");
    PlacedOrderHeader(rows, next, order, fmt, now, cartId, ids, ls);
    var x :| x in after && x.ent == "order" && x.attr == "user_id" && x.value == IntToStr(order.userId) && x.inst == orderId;
    assert orderId in InstanceIds(after, "order");
    OrderFieldsSummary(after, orderId, order, Total(ls), fmt, now);
  }
}
