# RestoFlow in Dafny

RestoFlow is a restaurant backend: a menu, carts, orders, table bookings,
reviews and ratings, user accounts, news and a contact form, plus admin
endpoints. It keeps almost all of its state in one SQLite table,
`t_sys_attr_values`. Each row of that table holds one attribute of one entity
instance: `(val_id, ent_name, attr_name, ent_instance_id, value)`, and `value`
is always text. The only other table is the `t_sys_ent` catalogue.

- To create an instance, an endpoint takes `MAX(ent_instance_id) + 1` of its
  entity type and inserts one row per field.
- To read records back, it pivots the rows. In SQL this is
  `MAX(CASE WHEN attr_name = ... THEN value END) ... GROUP BY ent_instance_id`;
  in Python it is a dict built row by row, later rows winning.
- Relations between entities are text matches. A cart line, for instance, has
  a `cart_id` row holding `str(cart_id)`.

This project models that storage layer and every endpoint of the ten API
modules that use it. It proves what each endpoint returns and what it leaves
in the table.

## Structure

- `wrappers.dfy` (`Wrappers`): `Option`, and `Result` with the HTTP failures
  `BadRequest`, `NotFound` and `ServerError`. `ServerError` stands for an
  uncaught Python exception. `Collect` models a loop that stops at its first
  failure.
- `text.dfy` (`Text`): the text encodings.
  - Python's `str(int)`, `int()` and `float()` on the texts the service writes.
  - SQLite's `CAST` and its BINARY collation.
- `sorting.dfy` (`Sorting`): the order in which rows come back.
  - `GROUP BY` gives ascending ids.
  - `SELECT DISTINCT` gives ids in order of first appearance.
  - `ORDER BY` a text column puts NULL first.
  - It also holds generic filter and gather loops over instance ids.
- `eav.dfy` (`Eav`): the table and its statements.
  - The table is a sequence of `Row`s in rowid order.
  - `Select` and `Delete` take a `Where`.
  - `Stamp` is the rows one `executemany` INSERT writes, and `NextId` the id
    allocation rule.
  - `MaxOf` and `DictPivot` are the two ways of pivoting rows into a record.
  - `class Store` holds the table, the next `val_id` and the `t_sys_ent`
    catalogue. Its methods `InsertMany`, `UpdateValue` and `DeleteWhere` are
    the only writes.
- One module per API file: `Menu`, `Cart`, `Orders`, `Admin`, `Booking`,
  `Tables`, `Reviews`, `Users`, `News` and `Contact`.
  - Every writing endpoint, and every reading endpoint whose handler loops
    over rows, is a method that takes `db: Store`, the way the handlers take
    `db=Depends(get_db)`.
  - A reading endpoint that is one query and a reshaping of its rows is a
    function of the table `rows`: `Menu.GetMenu`, `Tables.GetAllTables`,
    `Users.GetUserProfile`, `Users.LoginUser`, `Admin.GetEntityList`,
    `Contact.GetContactInfo`, `News.GetAllNews`, `Reviews.DishReviews`,
    `Reviews.RestaurantReviews`, `Reviews.GetDishRating` and
    `Reviews.GetRestaurantRating`.
  - A looping read-only method is proved equal to a function of the table
    (its `...Spec` function) whose properties are proved as lemmas.
  - A writing endpoint is proved to leave exactly the table its `...Spec`
    function (or its `ensures`) describes.
  - Lemmas then relate the endpoints to each other: create then read, add
    then delete, placing an order then listing it, booking then checking
    availability.

Three things the handlers get from their environment become parameters:

- The clock, `datetime.now().isoformat()`, is `now`.
- `datetime.fromisoformat` is `parse`, which returns microseconds on one
  time line (the resolution of Python's `datetime`), or None where Python
  raises `ValueError`. A duration of `d` minutes is `Tables.Window(d)`
  microseconds.
- Python's `str()` of a float is `fmt`.

Floats are modelled as exact reals.

Three behaviours of the handlers that their own names or comments do not
suggest:

- Reviews: the comments on the `ReviewIn` fields (api/review.py:13-14)
  present `dish_id` and `is_restaurant` as alternatives. `add_review`
  (api/review.py:19-20) rejects only a review with neither; a review with
  both is stored with both rows and counts for both the dish and the
  restaurant (`Reviews.AddReview`, `Reviews.AddedReviewListed`).
- Table availability: `get_table_availability` (api/tables.py:44-53) marks a
  table busy only when one of its bookings holds the requested datetime
  *text* exactly (`Tables.BusyCheck`, `Tables.OtherTextNotBusy`). Only
  `/tables/free` compares time windows (`Tables.FindConflict`).
- Booking: a party too large for the table fails with HTTP 400
  (api/booking.py:27-31), which the model calls `BadRequest`.

## Model

| member | source | states |
|---|---|---|
| Wrappers.Collect | api/order.py:50-56 | a loop of steps succeeds iff every step succeeds, and then yields every step's value in order; otherwise it fails with the status of the first failing step, all earlier steps having succeeded |
| Text.IntToStrRoundTrip | api/cart.py:54-57 | `int()` reads back every integer text `str()` writes, so a stored quantity or id is recovered exactly |
| Text.IntToStrInjective | api/cart.py:15-19 | distinct integers are written as distinct texts, so a lookup by `value = str(user_id)` cannot confuse two users |
| Text.ParseDecimalOfInt | api/cart.py:126 | `float()` of an integer text is that integer |
| Text.SqlCastIntOfInt | api/tables.py:88 | SQLite's `CAST(str(n) AS INT)` is `n` |
| Text.SqlCastRealOfInt | api/review.py:91 | SQLite's `CAST(str(n) AS FLOAT)` is `n`, so a stored rating averages as its number |
| Text.SqlCastSkipsSpace | api/tables.py:88 | both casts ignore leading white space: a seats text `'  4'` reads as 4 |
| Text.SqlCastRealExponent | api/review.py:91 | `CAST('1e2' AS REAL)` reads the exponent and is 100, while `CAST('1e2' AS INTEGER)` stops at the `e` and is 1 |
| Text.NumericInt | api/cart.py:118-120 | the integer a text bound against `ent_instance_id` compares equal to is the value `CAST(... AS REAL)` gives it |
| Text.NumericIntOfStrToInt | api/order.py:51-53 | every text `int()` accepts is matched to the same integer by the column |
| Text.NumericIntOfInt | api/cart.py:118-120 | `str(n)` is matched to `n` |
| Text.NumericIntThreePoint | api/cart.py:118-120 | '3.' and one digit is matched to 3 when the digit is 0 and to no integer otherwise ('3.5') |
| Text.NumericIntBeyondStrToInt | api/order.py:51-53 | '3.0' is rejected by `int()` but matched to 3 by the column |
| Text.LexLeTotal | api/news.py:55 | any two texts are comparable under SQLite's BINARY collation |
| Text.LexLeTransitive | api/news.py:55 | the BINARY collation is transitive |
| Text.LexLeAntisymmetric | api/news.py:55 | two texts that each sort at or before the other are equal |
| Sorting.SortedDistinct | api/menu.py:15 | GROUP BY ids: ascending, with exactly the ids of the input |
| Sorting.FirstAppearances | api/order.py:176 | SELECT DISTINCT ids: no duplicates, with exactly the ids of the input |
| Sorting.ReverseAscending | api/admin_tools.py:148 | ORDER BY id DESC over ascending ids: descending, with the same ids |
| Sorting.SortByCorrect | api/news.py:55 | ORDER BY a text column returns a permutation of the records, ordered by the key with NULL first (reversed for DESC) |
| Sorting.SortByDistinct | api/news.py:55 | ORDER BY keeps records with distinct ids distinct |
| Sorting.SortedRecords | api/review.py:60-61 | GROUP BY then ORDER BY: every id's record once, each the record of its id, ordered by the key |
| Sorting.FilterMeaning | api/tables.py:88-91 | a HAVING filter keeps exactly the accepted ids, and keeps them ascending |
| Sorting.GatherMeaning | api/tables.py:100-130 | a loop over ids that may skip an id or fail: on failure some id failed with that status; on success every step succeeded and the result holds exactly the records of the ids not skipped |
| Sorting.GatherAscending | api/tables.py:100-130 | over ascending ids, records keyed by their own id come out ascending |
| Eav.Select | api/news.py:64-70 | a SELECT returns exactly the table's rows that match its WHERE, never more rows than the table has |
| Eav.Delete | api/admin_tools.py:130 | a DELETE keeps exactly the rows that do not match its WHERE |
| Eav.SelectAppend | api/contact.py:40-43 | a query over appended rows is the query over the old rows followed by the query over the new ones |
| Eav.SelectAfterDelete | api/admin_tools.py:44 | a DELETE is invisible to every query that no deleted row can match |
| Eav.DeleteEntityEffect | api/admin_tools.py:130 | deleting one instance leaves every query on other types or other instances as it was |
| Eav.FirstRow | api/user.py:118-119 | `fetchone` is None iff no row matches; otherwise it is the first matching row in table order |
| Eav.FirstRowAppend | api/cart.py:33-35 | `fetchone` over appended rows finds an old row when one matches, else the first new one |
| Eav.SetValueOnly | api/cart.py:55-58 | since `val_id`s are unique, an UPDATE by a row's `val_id` changes that one row's value only |
| Eav.InstanceIds | api/news.py:53 | the instance ids of a type are exactly those some row of the type carries |
| Eav.TypeGroups | api/menu.py:14-15 | `WHERE ent_name = e GROUP BY ent_instance_id` lists each instance of the type once, ascending |
| Eav.GroupIds | api/cart.py:101 | GROUP BY over some rows lists each of their instance ids once, ascending |
| Eav.DistinctIds | api/booking.py:103-107 | SELECT DISTINCT lists each instance id once, with exactly the ids of the rows |
| Eav.FindIds | api/review.py:56-59 | the instances found by `attr_name = a AND value = v` are exactly those with such a row |
| Eav.OwnedGroups | api/review.py:54-60 | the GROUP BY of instances owned through `a = v` lists exactly those instances, ascending |
| Eav.MaxId | api/contact.py:29 | `MAX(ent_instance_id)` is NULL iff the type has no rows, else the largest id of the type |
| Eav.NextId | api/contact.py:28-31 | `IFNULL(MAX(ent_instance_id), 0) + 1` exceeds every id of the type, is 1 for an empty type, and is otherwise one past the largest id |
| Eav.NextIdFresh | api/news.py:19-22 | no row carries the id just allocated |
| Eav.PastNextIdUnused | api/order.py:43-46 | no instance of a type is at or past its next id |
| Eav.NextIdAfterAllocation | api/order.py:72-76 | writing rows under the allocated id moves the next id on by exactly one |
| Eav.NextIdIs | api/order.py:73-76 | the next id is one past a largest id |
| Eav.NextIdOtherType | api/order.py:59-69 | rows of other types do not move a type's next id |
| Eav.FindIdsAppend | api/review.py:39-42 | new rows of one instance add no other instance to a lookup by value |
| Eav.DictPivot | api/contact.py:18 | the row-by-row dict holds exactly the attribute names of the rows |
| Eav.DictPivotLastWins | api/user.py:73 | for a name, the dict keeps the value of the last row with that name |
| Eav.DictPivotAppend | api/booking.py:75 | the dict of appended rows is the old dict overwritten by the new rows' dict |
| Eav.FieldMap | api/news.py:24-31 | the dict of a field list holds exactly the listed names |
| Eav.FieldMapDistinct | api/news.py:24-31 | with distinct names, every field listed is read back with its value |
| Eav.DictPivotStamp | api/news.py:74-76 | pivoting the rows an INSERT wrote gives the dict of the fields written |
| Eav.MaxOf | api/menu.py:11-12 | `MAX(CASE WHEN attr_name = a THEN value END)` is NULL iff the group has no such row; otherwise it is one of the values written, and no value sorts after it under BINARY collation |
| Eav.IsMaxUnique | api/menu.py:11-12 | the MAX of a group is determined by the group |
| Eav.MaxOfSingle | api/menu.py:11-12 | the MAX of a name a group holds once is that row's value |
| Eav.MaxOfStampDistinct | api/news.py:46-51 | the MAX of a field written once by an INSERT is the text written |
| Eav.EntityRows | api/news.py:64-68 | `WHERE ent_name = e AND ent_instance_id = id` returns exactly that instance's rows |
| Eav.InsertedEntity | api/contact.py:40-43 | after an INSERT under a freshly allocated id, that id's rows are exactly the rows written |
| Eav.ReadBack | api/user.py:63-73 | create then read: the dict pivot of a freshly written instance is the dict of its fields |
| Eav.InsertInvisible | api/contact.py:40-43 | an INSERT for one instance is invisible to every query that cannot match that instance |
| Eav.SelectSingle | api/review.py:91-97 | a query that exactly one row matches returns that row alone |
| Eav.SelectSameIds | api/review.py:94-97 | two id sets that agree on every instance present select the same rows |
| Eav.InsertedFindIds | api/review.py:39-42 | an instance written under a fresh id is found by `a = v` iff one of its fields is `(a, v)`, and no id was found before |
| Eav.InsertedAttrRows | api/review.py:91-97 | after an INSERT under a fresh id, the `name` rows of the instances found by `a = v` are the old ones, plus the new instance's row when it was written with `(a, v)` |
| Eav.SelectPivotLastWins | api/news.py:74-76 | the dict of a query's rows keeps, per name, the last matching row's value |
| Eav.SelectPivotKeys | api/news.py:74-76 | the dict of a query's rows holds exactly the names of the matching rows |
| Eav.EntityRowsAtInt | api/cart.py:118-120 | an instance id bound as its own text finds that instance |
| Eav.EntityRowsAtStrToInt | api/cart.py:118-120 | a text `int()` accepts finds the instance that integer names |
| Eav.EntityRowsAtDecimalText | api/cart.py:118-120 | the text '3.0' finds instance 3 |
| Eav.FillDict | api/news.py:74-76 | the loop `result[row["attr_name"]] = row["value"]` yields the header overwritten by the rows' dict |
| Eav.DeleteKeepsRowIds | api/admin_tools.py:130 | a DELETE keeps the `val_id`s ascending |
| Eav.UniqueRowId | api/cart.py:55-58 | in a well-formed table, a `val_id` names one row |
| Eav.StampWellFormed | api/contact.py:40-43 | rows numbered from the next `val_id` keep the `val_id`s unique |
| Eav.SetValueRow | api/cart.py:55-58 | updating a row of the table by its `val_id` changes that row's value and nothing else |
| Eav.SetValueAbsent | api/cart.py:55-58 | an UPDATE by a `val_id` no row has changes nothing |
| Eav.ValuesOnlyChangedTransitive | api/cart.py:12-74 | "only values changed, rows only appended" composes over several statements |
| Eav.Store.InsertMany | api/contact.py:40-43 | the table gains exactly the stamped rows at its end, the next `val_id` moves past them, and the catalogue is untouched |
| Eav.Store.UpdateValue | api/cart.py:55-58 | the table becomes its UPDATE by `val_id`; the next `val_id` and the catalogue are unchanged |
| Eav.Store.DeleteWhere | api/admin_tools.py:130 | the table becomes its DELETE; the next `val_id` and the catalogue are unchanged |
| Menu.GetMenu | api/menu.py:6-19 | one record per dish instance, ids strictly ascending, each record's name and price the MAX of that dish's rows |
| Contact.GetContactInfo | api/contact.py:9-18 | the keys are exactly the attribute names of the contact_info rows |
| Contact.ContactInfoLastWins | api/contact.py:18 | each key shows the value of its last contact_info row |
| Contact.ContactMessage | api/contact.py:26-46 | the message is stored as its four rows under the next support_message id, which is returned |
| Contact.ContactMessageAppends | api/contact.py:28-43 | the id was unused, the old rows stay in front, the new instance has exactly the four rows, and other types see no change |
| Contact.ContactMessageReadBack | api/contact.py:33-43 | the stored message reads back as name, phone, message and creation time as sent |
| Contact.MessageFieldsMap | api/contact.py:33-38 | the four fields form the dict of the message |
| News.CreateNews | api/news.py:17-39 | the publication is stored as its six rows under the next news id, which is returned |
| News.NewsRecordOf | api/news.py:44-54 | a listed record carries its id and the MAX of its rows' `created_at` |
| News.GetAllNews | api/news.py:42-59 | one record per news instance, each once, each its own pivot, ordered by `created_at` descending |
| News.NewsItemOf | api/news.py:62-78 | 404 iff the id has no rows; otherwise the keys are `news_id` and exactly the instance's attribute names |
| News.GetNewsItem | api/news.py:62-78 | the endpoint answers `NewsItemOf` of the table |
| News.NewsItemLastWins | api/news.py:74-76 | each attribute shows the value of the instance's last row with that name |
| News.NewsFieldsMap | api/news.py:24-31 | the stored dict, with `type`, `image_url` and `tags` at their defaults when omitted |
| News.NewsItemMap | api/news.py:74-76 | the item dict is `news_id` followed by the six stored fields |
| News.CreateNewsRoundTrip | api/news.py:62-78 | create then read: the item reads back with every field as published |
| News.CreateNewsListed | api/news.py:42-56 | publishing adds exactly the new id to the listed ids |
| Users.RegisterUser | api/user.py:20-58 | 400 with nothing written when some user has the phone; otherwise the eleven rows under the next user id, which is returned |
| Users.RegisterSeedsLoyalty | api/user.py:38-50 | a new user has eleven fields, a 3% discount and a zero order total |
| Users.GetUserProfile | api/user.py:61-75 | 404 iff the user has no rows; otherwise `user_id` is the requested id and the keys are exactly `user_id` and the user's attribute names |
| Users.ProfileLastWins | api/user.py:73 | every other attribute shows the last row with that name |
| Users.RegisterThenProfile | api/user.py:63-75 | register then read: the profile is the registered fields with `user_id` set |
| Users.GetAllUsers | api/user.py:78-106 | one summary per user instance, ids strictly ascending, each the summary of that user's dict |
| Users.LoginUser | api/user.py:111-135 | 404 iff no user row holds the phone; otherwise the user is the instance of the first phone row, and the name is "" when that user has no name row |
| Users.LoginOf | api/user.py:118-134 | login returns the first phone row's instance and that instance's first name |
| Users.RegisteredPhoneFirst | api/user.py:52-55 | after a registration with a fresh phone, the new phone row is the first to hold it |
| Users.RegisteredNameFirst | api/user.py:126-130 | the new user's first name row holds the registered name |
| Users.RegisterThenLogin | api/user.py:112-135 | after registering with a fresh phone, logging in with it returns the new id and name |
| Cart.AddToCartSpec | api/cart.py:12-74 | the only failure is a 500; a user who already has a cart gets that cart's id back; at most four `val_id`s are used |
| Cart.AddToCart | api/cart.py:12-74 | the table, next `val_id` and answer are those of `AddToCartSpec`: the cart step, then the line step |
| Cart.FindOrCreateCart | api/cart.py:14-35 | the user's existing cart is kept; otherwise one `user_id` row is written under the next cart id |
| Cart.AddLineTo | api/cart.py:37-73 | the line step: raise an existing line's quantity, or write a new line |
| Cart.NewCartFound | api/cart.py:33-35 | re-running the lookup after creating the cart finds the new cart |
| Cart.QuantityRowIn | api/cart.py:38-50 | the quantity row found is a cart_item row of the table |
| Cart.QuantityUpdateInvisible | api/cart.py:55-58 | raising a quantity leaves every query on another type alone |
| Cart.WithCartFrame | api/cart.py:22-35 | the cart step keeps `val_id`s unique, only appends, and touches no other type |
| Cart.AddLineFrame | api/cart.py:52-72 | the line step touches only cart_item, deletes nothing and otherwise changes at most values |
| Cart.AddLineCorrupt | api/cart.py:54 | a stored quantity `int()` rejects gives 500 with nothing written by the line step |
| Cart.AddToCartCreatesCart | api/cart.py:22-35 | a user without a cart gets exactly one new cart row, under the next cart id, which is the id returned |
| Cart.AddLineExisting | api/cart.py:52-58 | an existing line has its quantity row set to `str(old + added)` |
| Cart.AddToCartExistingItem | api/cart.py:52-58 | when the cart has a line for the dish, only that line's quantity row changes, to the sum; nothing is inserted |
| Cart.AddToCartCorruptQuantity | api/cart.py:54 | when the stored quantity is not an integer: 500, and the table is unchanged |
| Cart.AddToCartNewItem | api/cart.py:59-72 | otherwise exactly three rows (cart_id, dish_id, quantity) are appended under an unused cart_item id |
| Cart.ItemRows | api/cart.py:65-72 | the three rows of a new line, written out |
| Cart.AddToCartFrame | api/cart.py:12-74 | add_to_cart deletes nothing, changes no row's type, attribute or instance, and is invisible to every other type |
| Cart.NewLineIds | api/cart.py:38-50 | after a new line is written, the lines for the cart and dish are the old ones and the new one |
| Cart.NewLineFound | api/cart.py:38-50 | after a new line is written, the lookup finds its quantity row |
| Cart.RaiseNewLine | api/cart.py:54-58 | raising a just-written line equals writing the line with the summed quantity |
| Cart.AddToCartTwice | api/cart.py:37-72 | adding a dish twice to a cart with no line for it equals adding it once with the summed quantity |
| Cart.SpecWithCart | api/cart.py:23-24 | a user with a cart goes straight to the line step |
| Cart.AddLineNew | api/cart.py:59-72 | a line step without a match appends the three rows and moves the next `val_id` by three |
| Cart.CartOfOtherType | api/cart.py:15-20 | writing cart_item rows does not change which cart a user has |
| Cart.CartItemGroups | api/cart.py:91-102 | the cart's lines are exactly the cart_item instances pointing at it, ascending |
| Cart.CartLineOf | api/cart.py:108-129 | reading one line can fail only with 500; a `dish_id` text the column matches to no dish gives 500; a listed line keeps the line's `dish_id` text |
| Cart.CartLineFails | api/cart.py:110-126 | a line is listed iff its quantity reads as an integer and its dish's price as a decimal |
| Cart.CartLineFields | api/cart.py:108-128 | a listed line shows the line's greatest dish id text, that dish's greatest name, and its quantity and price as numbers |
| Cart.LineResults | api/cart.py:108-129 | one result per line, in the lines' order |
| Cart.GetCartSpec | api/cart.py:76-131 | an empty cart exactly when the user has no cart row; otherwise one line per cart_item of the cart in order, or 500 |
| Cart.GetCart | api/cart.py:76-131 | the endpoint answers `GetCartSpec` of the table |
| Cart.NewLineListed | api/cart.py:91-110 | a line written by add_to_cart is listed under its cart, with its dish id and quantity |
| Cart.NewLineRows | api/cart.py:91-104 | the new line's grouped dish id and quantity are the texts written |
| Cart.LineFieldsMax | api/cart.py:93-94 | the MAX of each field of a line written once is its text |
| Cart.CartLineReads | api/cart.py:108-110 | a listed line shows the dish id text and the integer of its quantity text |
| Cart.FirstIn | api/cart.py:157-158 | `fetchone` over ascending groups: none iff no group qualifies, else the first that does |
| Cart.FirstInLeast | api/cart.py:148-158 | in ascending order, the first qualifying group is the least one |
| Cart.ItemIdsGrouped | api/cart.py:148-152 | every line of a cart and dish is among the cart_item groups |
| Cart.LineToDeleteLeast | api/cart.py:148-162 | no line is picked iff the cart has no line for the dish; otherwise the least such line is picked |
| Cart.DeleteCartItemSpec | api/cart.py:133-171 | no `val_id` is used; a failure is a 404 that changes nothing, and is certain for a user without a cart; a success deletes exactly the rows of the instance it returns |
| Cart.DeleteCartItem | api/cart.py:133-171 | the table and answer are those of `DeleteCartItemSpec` |
| Cart.DeleteCartItemNotFound | api/cart.py:140-160 | both 404s leave the table as it was |
| Cart.DeleteSpecFound | api/cart.py:162-168 | when a line is found, every row of it is deleted and its id returned |
| Cart.DeleteCartItemEffect | api/cart.py:164-168 | a successful delete removes every row of the least matching line and is invisible to every query that cannot see that line |
| Cart.DeleteNewLine | api/cart.py:165-168 | deleting a freshly appended line gives back the table before it |
| Cart.DeleteUndoesAdd | api/cart.py:133-171 | adding a dish the cart had no line for, then deleting it, restores the table and returns the new line's id |
| Cart.NewLineToDelete | api/cart.py:148-158 | when the cart had no line for the dish, the delete picks the line just added |
| Orders.PriceText | api/order.py:51-55 | no price text is read for a NULL dish id or a text the column matches to no dish |
| Orders.PriceTextFirst | api/order.py:51-55 | for a dish id text the column matches to `d` (including '3.0' for 3), the price read is the value of the first `price` row of dish `d` in table order, and absent iff the dish has no price row |
| Orders.OrderLineOf | api/order.py:50-56 | a line fails only with 500, and carries its own cart_item id |
| Orders.LineTexts | api/order.py:50-56 | a read line is made of the group's dish id and quantity texts and the dish's first price text, parsed |
| Orders.OrderLines | api/order.py:50-56 | one read per cart line, in GROUP BY order |
| Orders.TotalAppend | api/order.py:56 | the running total grows by `price * int(quantity)` per line |
| Orders.OrderFieldsDistinct | api/order.py:62-68 | the five order fields have distinct names, so each reads back as written |
| Orders.OrderFieldsLookups | api/order.py:62-68 | the dict of the five written fields gives back the user id, the address id, the status (or "pending"), the total and the time under the conversions the readers apply |
| Orders.ItemFieldsDistinct | api/order.py:86-91 | the four item fields have distinct names |
| Orders.ItemStamps | api/order.py:72-92 | the item rows of `n` lines are `4 * n` rows |
| Orders.ItemSet | api/order.py:96-97 | the IN list of the DELETE holds exactly the cart line ids |
| Orders.PlaceOrderSpec | api/order.py:12-107 | 404 iff the user has no cart or the cart no lines; every failure writes nothing and is never a 400; on success the order id is the next order id, one item per line, and the next `val_id` moves by `5 + 4 * items` |
| Orders.PlaceOrder | api/order.py:12-107 | the table and answer are those of `PlaceOrderSpec`, computed by the two loops of the handler |
| Orders.CommitOrder | api/order.py:58-100 | the writes once every line is priced: the order rows, the items, then the DELETE of the consumed lines |
| Orders.PlaceOrderSpecUnpriced | api/order.py:48-56 | a line that cannot be priced fails the order with its status and nothing written |
| Orders.PlaceOrderSpecPlaced | api/order.py:58-100 | the outcome of an order whose every line is priced |
| Orders.SumOrder | api/order.py:48-56 | the first loop yields the lines' total, or the failure of the first line that fails |
| Orders.SumLines | api/order.py:48-56 | summing any per-line read over the items yields the total of the lines read, or the first failure |
| Orders.WriteOrderItems | api/order.py:71-92 | the second loop appends exactly the items of all lines, in order |
| Orders.WriteNextItem | api/order.py:72-92 | one turn of the second loop appends the next line's item |
| Orders.WriteOrderItem | api/order.py:73-92 | one item is written under the next order_item id with the price text read again |
| Orders.PriceTextAppend | api/order.py:78-82 | the second price read sees what the first did, since only non-dish rows were written between them |
| Orders.ItemStampsStep | api/order.py:72-92 | the items of one more line follow the earlier ones |
| Orders.ItemStampsOf | api/order.py:84-92 | every item row is an order_item row of one of the new consecutive ids |
| Orders.ItemStampsNextId | api/order.py:72-76 | allocating before each item gives consecutive ids: after `n` items the next id has moved on by `n` |
| Orders.ItemStampsSelect | api/order.py:84-92 | the rows of item `base + i` are exactly the `i`-th item's four rows |
| Orders.PlacedOrderRows | api/order.py:58-69 | the rows of the new order id are its five rows, with the lines' total |
| Orders.PlacedItemRows | api/order.py:84-98 | a placed item keeps exactly its four rows after the DELETE of the cart lines |
| Orders.FreshItemRows | api/order.py:84-98 | an item under a fresh id has exactly its own rows, whatever cart lines are deleted |
| Orders.CollectedLine | api/order.py:50-56 | the `i`-th priced line is the one read for the `i`-th cart line |
| Orders.PlacedItem | api/order.py:71-92 | line `i` becomes item `NextId + i`, an id no item had, with the order id, the line's dish id and quantity texts and the price text as its only rows |
| Orders.CartLinesDeleted | api/order.py:94-98 | no row of a consumed cart line survives the DELETE |
| Orders.PlacedCartCleared | api/order.py:94-98 | after an order every consumed cart line is gone |
| Orders.PlacedFrame | api/order.py:94-98 | other rows stay: queries on other types, and on cart lines not consumed, see the same rows; the cart itself is kept |
| Orders.OrderItemGroups | api/order.py:137-149 | an order's items are exactly the order_item instances pointing at it, ascending |
| Orders.ItemViewOf | api/order.py:159-167 | an item fails only with 500, and otherwise shows its MAX dish id, quantity and price, parsed |
| Orders.OrderViewOf | api/order.py:153-168 | an order record succeeds iff its total and address id parse and its items succeed; defaults "unknown" and 0 apply |
| Orders.UserOrderOf | api/order.py:126-168 | one order of the list fails only with 500 and otherwise carries its id and one item per group |
| Orders.UserOrderIds | api/order.py:112-118 | the ids found are exactly the orders with a `user_id` row holding `str(user_id)` |
| Orders.GetUserOrdersSpec | api/order.py:109-170 | `[]` when no order names the user; every failure is 500 |
| Orders.UserOrdersListed | api/order.py:126-168 | a successful answer holds one record per id found, in order, each that order's record |
| Orders.GetUserOrders | api/order.py:109-170 | the endpoint answers `GetUserOrdersSpec` of the table |
| Orders.PlacedOrderHeader | api/order.py:58-69 | the placed order pivots to its five fields and is found under its user |
| Orders.OrderFieldsRead | api/order.py:153-158 | an order written with its five fields reads back its status (or "pending"), total, time and address |
| Orders.PlacedItemOwner | api/order.py:144-147 | after placement, the items pointing at the new order are exactly the new items |
| Orders.PlacedItemIds | api/order.py:137-149 | the placed order's items are listed in allocation order |
| Orders.LineView | api/order.py:159-165 | a placed line shows the quantity and price the placement summed, and the same total |
| Orders.PlacedItemView | api/order.py:159-165 | each placed item reads back as its line's view |
| Orders.StampedItemView | api/order.py:159-165 | an item made of exactly its four written rows reads back as its line's view |
| Orders.ViewsOfLines | api/order.py:159-167 | items that each read back as their line list as the lines' views |
| Orders.PlacedItemsListed | api/order.py:150-167 | the items listed under a placed order are its lines' views |
| Orders.ViewsTotal | api/order.py:164 | the listed items' totals add up to the order's total |
| Orders.PlacedOrderListed | api/order.py:109-170 | place then list: the order is listed under its user with its status, total, time and address; the listing fails iff a line's dish id is not an integer; the items add up to the total |
| Orders.ListedOrder | api/order.py:153-168 | the listed record of an order written from the request over its lines' views |
| Orders.AllOrderIds | api/order.py:175-181 | every order id once |
| Orders.OrderSummaryOf | api/order.py:192-207 | a summary fails only with 500 and carries its id |
| Orders.GetAllOrdersSpec | api/order.py:172-209 | `[]` when there is no order; otherwise one summary per id, or 500 |
| Orders.AllOrdersListed | api/order.py:186-207 | a successful list holds the summary of each order id, in order |
| Orders.AllOrdersOnce | api/order.py:186-207 | a successful list names every order exactly once |
| Orders.GetAllOrders | api/order.py:172-209 | the endpoint answers `GetAllOrdersSpec` of the table |
| Orders.OrderFieldsSummary | api/order.py:200-207 | an order written from the request summarises back as the order placed |
| Orders.PlacedOrderInAll | api/order.py:172-209 | place then list all: the new order is listed with the user, address, status, total and time it was placed with |
| Admin.ActiveText | api/admin_tools.py:31 | `is_active` is stored as "true" iff active (default true), else "false" |
| Admin.DishFieldsDistinct | api/admin_tools.py:25-33 | the dish's fields have distinct names |
| Admin.DishFieldsRead | api/admin_tools.py:25-33 | a dish stores seven fields: the body with its defaults, the price as `str()`, and the time stamp |
| Admin.CreateDish | api/admin_tools.py:20-40 | the seven rows under the next dish id, which is returned |
| Admin.CreateDishThenGet | api/admin_tools.py:98-111 | create then read: the new dish reads back as its seven fields under the header |
| Admin.UpdateDish | api/admin_tools.py:42-59 | every row of the dish is deleted, then the seven new rows are written under the same id |
| Admin.ReplacedRows | api/admin_tools.py:44-57 | after delete-then-insert, the instance's rows are exactly those inserted |
| Admin.ReplacedFrame | api/admin_tools.py:44-57 | delete-then-insert is invisible to every query that cannot match the instance |
| Admin.UpdateDishReplaces | api/admin_tools.py:42-59 | after an update the dish is exactly the body and `updated_at`; an earlier `created_at` is gone |
| Admin.NoCreatedAt | api/admin_tools.py:52 | no field an update writes is `created_at` |
| Admin.DeleteEntity | api/admin_tools.py:128-132 | every row of the instance is deleted, and nothing else changes |
| Admin.DeleteEntityExact | api/admin_tools.py:61-65 | a row survives iff it belongs to another instance; deleting an instance with no rows changes nothing |
| Admin.CreateCategory | api/admin_tools.py:74-83 | one `name` row under the next category id |
| Admin.DeleteCategory | api/admin_tools.py:85-89 | the table becomes the DELETE of the category `name` rows with that name |
| Admin.DeleteCategoryExact | api/admin_tools.py:87 | exactly the `name` rows of categories with that name go, and afterwards no category has the name |
| Admin.CreateThenDeleteCategory | api/admin_tools.py:74-89 | a category just created under the name is deleted with the others: create then delete leaves what the delete alone leaves |
| Admin.EntityOf | api/admin_tools.py:98-111 | 404 iff the instance has no rows; otherwise the keys are `ent_name`, `ent_id` and exactly the instance's attribute names |
| Admin.GetEntity | api/admin_tools.py:98-111 | the endpoint answers `EntityOf` of the table |
| Admin.EntityLastWins | api/admin_tools.py:109-110 | each attribute shows the instance's last row with that name |
| Admin.EntityHeaderKept | api/admin_tools.py:108 | without rows named after them, `ent_name` and `ent_id` are the requested type and id |
| Admin.UpdateEntity | api/admin_tools.py:113-126 | every row of the instance is deleted, then the supplied fields and `updated_at` are written under the same id |
| Admin.UpdateItemsMap | api/admin_tools.py:118-119 | the written dict is the supplied fields with `updated_at` over them |
| Admin.UpdateThenGet | api/admin_tools.py:113-126 | replace then read: the instance exists and reads back as exactly the rows just written; an attribute not resupplied is gone |
| Admin.UpdateEntityFrame | api/admin_tools.py:115-124 | a replace leaves every other instance's rows alone |
| Admin.EntitySummaryOf | api/admin_tools.py:140-146 | a summary carries its id and the MAX of name, title and created_at |
| Admin.GetEntityList | api/admin_tools.py:138-152 | one entry per instance of the type, highest id first, each its own summary |
| Admin.WithoutName | api/admin_tools.py:173 | the catalogue keeps exactly the entries of other names |
| Admin.CreateSysEnt | api/admin_tools.py:162-169 | one catalogue entry is appended; the attribute table is untouched |
| Admin.DeleteSysEnt | api/admin_tools.py:171-175 | every catalogue entry of the name goes; the attribute table is untouched |
| Admin.SysEntRoundTrip | api/admin_tools.py:162-175 | registering a name then deleting it leaves the other names' entries as they were |
| Booking.BookingFieldsDistinct | api/booking.py:41-48 | the six booking fields have distinct names |
| Booking.SeatsCheck | api/booking.py:17-31 | 404 iff the table has no seats row; success iff the first seats text is an integer the guests fit in (a full table fits); 400 only when the guests exceed it |
| Booking.CreateBooking | api/booking.py:15-52 | a failed check returns its status with nothing written; otherwise the six rows under the next booking id, which is returned |
| Booking.SeatsCheckIgnoresOthers | api/booking.py:18-22 | rows of other types leave the capacity check as it was |
| Booking.BookingAgainAccepted | api/booking.py:15-52 | nothing checks time or other bookings: once a booking is accepted, the same booking again is too |
| Booking.TableRefOf | api/booking.py:78-93 | a table reference fails only with 500, exactly when number or seats is present and not an integer; a table with no rows shows zeros |
| Booking.BookingViewOf | api/booking.py:69-96 | a record fails only with 500, exactly when table id or guests do not parse or the table fails |
| Booking.UserBookingIds | api/booking.py:57-63 | the ids found are exactly the bookings with a `user_id` row holding `str(user_id)` |
| Booking.GetUserBookingsSpec | api/booking.py:55-98 | `[]` when no booking names the user; failures are 500 |
| Booking.UserBookingsListed | api/booking.py:67-98 | a successful answer holds one record per id found, in order |
| Booking.GetUserBookings | api/booking.py:55-98 | the endpoint answers `GetUserBookingsSpec` of the table |
| Booking.AllBookingIds | api/booking.py:103-109 | every booking id once |
| Booking.BookingEntryOf | api/booking.py:114-143 | an entry succeeds iff its user id parses and its record succeeds, and carries that record |
| Booking.BookingEntries | api/booking.py:114-143 | one entry per booking, in the ids' order |
| Booking.GetAllBookingsSpec | api/booking.py:101-145 | `[]` when there is no booking; failures are 500 |
| Booking.AllBookingsListed | api/booking.py:113-143 | a successful list holds the entry of each booking id, in order |
| Booking.AllBookingsOnce | api/booking.py:101-145 | a successful list names every booking exactly once |
| Booking.GetAllBookings | api/booking.py:101-145 | the endpoint answers `GetAllBookingsSpec` of the table |
| Booking.TablesUnchanged | api/booking.py:39-49 | writing a booking leaves every table reference as it was |
| Booking.BookingFieldsRead | api/booking.py:41-48 | the six fields read back as the booking was made |
| Booking.BookingViewOfFields | api/booking.py:75-96 | a booking made of the six fields shows them, with its table as it stands |
| Booking.CreatedBookingView | api/booking.py:55-98 | create then read: the booking is among the user's, and its record shows what was written whenever its table reads |
| Booking.CreatedBookingEntry | api/booking.py:101-145 | the full list shows the new booking with its user id |
| Tables.TableRowOf | api/tables.py:11-17 | a table row carries its id and the MAX of number, seats and location |
| Tables.GetAllTables | api/tables.py:8-22 | one record per table instance, each once and its own pivot, ordered by number as text with NULL first |
| Tables.NumbersCompareAsText | api/tables.py:18 | numbers sort as text: table "10" before table "2" |
| Tables.BusyCheck | api/tables.py:44-53 | busy iff some booking of the table has a datetime row holding exactly the requested text |
| Tables.AvailabilityOf | api/tables.py:55-61 | 500 iff the seats do not parse; otherwise the record with availability the negation of busy |
| Tables.AvailabilitySteps | api/tables.py:41-61 | one record per table, in the list's order |
| Tables.AvailabilityExact | api/tables.py:25-63 | every table is listed once in the table list's order, and is available iff no booking of it has the requested datetime text |
| Tables.TableAvailabilitySpec | api/tables.py:25-63 | the only failure is a 500, and an answer has one record per listed table |
| Tables.GetTableAvailability | api/tables.py:25-63 | the endpoint answers `TableAvailabilitySpec` of the table |
| Tables.BookedTableBusy | api/tables.py:44-53 | a booking just made makes its table busy at its datetime text |
| Tables.StampedDatetime | api/booking.py:43 | the one datetime row of a new booking holds its datetime text |
| Tables.OtherTextNotBusy | api/tables.py:44-53 | a booking with another datetime text, even for the same moment, changes no table's availability |
| Tables.OverlapsIsDistance | api/tables.py:118 | two windows of length `d` overlap iff their starts are less than `d` apart; a window of no length never conflicts |
| Tables.FindConflict | api/tables.py:113-122 | the loop reports a conflict iff some booking time parses and overlaps |
| Tables.UnparsedSkipped | api/tables.py:115-122 | a booking time that does not parse never causes a conflict |
| Tables.TwoHourWindow | api/tables.py:116-119 | with a booking at 21:00 and a two-hour duration, a request at 19:00:30 conflicts and one at 19:00 does not: seconds count |
| Tables.QualifiesOfInt | api/tables.py:86-91 | a table whose seats are stored as `str(n)` passes the HAVING clause iff `n >= min_seats` and, under a non-empty location filter, its location is that one |
| Tables.CandidatesMeaning | api/tables.py:80-97 | the candidates are exactly the tables that qualify on seats and location, ascending |
| Tables.FreeTableOf | api/tables.py:124-130 | testing one candidate can fail only with 500 |
| Tables.FreeRunFailure | api/tables.py:99-130 | the loop over candidates can fail only with 500 |
| Tables.FreeRunRecords | api/tables.py:99-130 | each table listed is its own record |
| Tables.FreeRunIds | api/tables.py:100-130 | the loop keeps exactly the candidates without a conflict |
| Tables.FreeRunOrdered | api/tables.py:99-130 | over ascending candidates, the tables are listed ascending |
| Tables.FreeTablesSpec | api/tables.py:66-132 | 400 iff the datetime does not parse; every other failure is 500 |
| Tables.FreeTablesExact | api/tables.py:66-132 | the free tables are exactly the tables that qualify and have no conflicting booking, once each, ascending by id |
| Tables.CheckCandidate | api/tables.py:101-130 | one turn: the conflict loop, then the record |
| Tables.CheckCandidates | api/tables.py:99-130 | the loop over candidates yields `FreeRun` |
| Tables.GetFreeTables | api/tables.py:66-132 | the endpoint answers `FreeTablesSpec` of the table; `d` and `minSeats` are the `duration_minutes` and `min_seats` query parameters, whose defaults 120 and 1 (api/tables.py:69-70) the caller supplies |
| Reviews.AddReview | api/review.py:17-44 | 400 with nothing written iff the review names neither a truthy dish id nor the restaurant; otherwise its rows under the next review id, which is returned |
| Reviews.ReviewFieldsDistinct | api/review.py:28-37 | the review's fields have distinct names |
| Reviews.SubjectOfReview | api/review.py:34-37 | a `dish_id` row is written iff the dish id is truthy, and a `restaurant` row iff the flag is set |
| Reviews.ReviewRecordOf | api/review.py:49-53 | a record carries its id and, for each of `user_id`, `rating`, `comment` and `created_at`, the MAX of that attribute's values |
| Reviews.ReviewsWith | api/review.py:46-65 | the reviews owned through `a = v`: each once, each its own record, ordered by `created_at` descending |
| Reviews.Avg | api/review.py:91 | `AVG` is NULL iff there are no ratings; otherwise it times their count is their sum |
| Reviews.Reported | api/review.py:101 | a mean is reported iff it is present and not 0.0 |
| Reviews.ReportedMean | api/review.py:91-101 | the reported mean of some ratings is absent iff there are none or they sum to 0, and otherwise times their count is their sum |
| Reviews.RatingsWith | api/review.py:91-97 | one rating per rating row of the matching reviews |
| Reviews.DishReviews | api/review.py:46-65 | the reviews of the dish, newest first, each once and each its own record, listing a review iff it holds `dish_id = str(dish_id)` |
| Reviews.RestaurantReviews | api/review.py:67-86 | the restaurant reviews, newest first, each once and each its own record, listing a review iff it holds `restaurant = 'true'` |
| Reviews.GetDishRating | api/review.py:88-101 | the answer carries the dish id; the rating is absent iff the dish has no ratings or they sum to 0, and otherwise is their mean |
| Reviews.GetRestaurantRating | api/review.py:103-116 | the rating is absent iff there are no restaurant ratings or they sum to 0, and otherwise is their mean |
| Reviews.AvgBounds | api/review.py:91 | the mean of terms between two bounds lies between them |
| Reviews.RatingReported | api/review.py:88-116 | with stored ratings in range, a rating is reported iff some review matches, and then it lies between 1 and 5 |
| Reviews.AddReviewKeepsRatingsInRange | api/review.py:11 | storing a validated review keeps every stored rating between 1 and 5 |
| Reviews.AddedReviewRecord | api/review.py:46-65 | the new review reads back with the user id, rating, comment and time as written |
| Reviews.OtherReviewsUnchanged | api/review.py:39-42 | storing a review leaves every other review's record as it was |
| Reviews.InsertedReviewListed | api/review.py:54-60 | a new review is listed under `a = v` iff it was written with that row |
| Reviews.AddedReviewListed | api/review.py:46-86 | a new review is listed for dish `d` iff its truthy dish id is `d`, and for the restaurant iff its flag is set |
| Reviews.AddedRating | api/review.py:91-97 | a new review adds its rating to the ratings under `a = v` iff it was written with that row |
| Reviews.AddedRestaurantRating | api/review.py:103-116 | a restaurant review adds its rating to the restaurant's ratings |
| Reviews.AddedDishRating | api/review.py:88-101 | a review adds its rating to dish `d`'s ratings iff its truthy dish id is `d` |
| Reviews.ReportedExample | api/review.py:101 | ratings 5, 3 and 4 are reported as 4.0 |
| Reviews.RestaurantRatingExample | api/review.py:103-116 | three restaurant reviews rated 5, 3 and 4, created in turn, give a restaurant rating of 4.0 |

## Left out

- api/analytics.py, main.py and db.py are not part of this model. This covers
  the analytics endpoints, the application assembly (main.py rebinds `app`
  twice, so which routes are finally served is not modelled), the
  `/ping`, `/version` and template pages, and opening the connection.
- HTTP routing is not modelled; each endpoint is called directly. Route
  precedence between `/admin/dish/{dish_id}`, `/admin/category/{name}` and
  the generic `/admin/{ent_name}/{ent_id}` routes is left out.
- Admin.DeleteSysEnt: models the handler of `DELETE /admin/_ent/{ent_name}`
  (api/admin_tools.py:171-174), which HTTP never reaches. The generic
  `DELETE /admin/{ent_name}/{ent_id}` (api/admin_tools.py:128) is registered
  first and matches the same paths: a text name then fails validation of
  `ent_id: int` (422), and an integer name deletes the rows of instance
  `ent_id` of entity type `_ent` (`Admin.DeleteEntity`).
- Request validation is not modelled; bodies and query parameters come in as
  typed values. Pydantic's rejection of a body (HTTP 422) therefore never
  reaches a handler. The one bound the handlers rely on, the rating's
  `ge=1, le=5`, is the subset type `Reviews.Rating`.
- Concurrency is not modelled. Each request runs alone and to completion, so
  check-then-act races are out: two registrations with one phone, two
  bookings of one table, two cart lines for one dish.
- Transactions: a request that fails after writing is assumed to leave
  nothing behind, because its connection is never committed. The one
  exception modelled is add_to_cart, which commits the new cart before the
  line step; the cart survives a 500 in that step.
- Response shaping is not modelled. JSON keys, the status strings and the
  Russian error details are not part of the results, except where a record's
  content is the point (`Value` for dicts, the record datatypes for pivots).
- Clock and time parsing: `datetime.now()` is the parameter `now`, and
  `datetime.fromisoformat` is the parameter `parse` (microseconds, None on
  `ValueError`). Whatever text `parse` accepts is up to the caller.
- Tables.GetFreeTables: computes windows in unbounded microseconds. The
  `OverflowError` of `start + timedelta(...)` for an extreme duration (a 500,
  because only `ValueError` is caught) is not modelled. Neither is the
  `TypeError` of comparing naive with aware datetimes, which the conflict
  loop's bare `except` would turn into a skip.
- Floats are exact reals, so the rounding in `total_price += ...`, in
  `quantity * float(price)` and in SQLite's `AVG` is not modelled. `str()` of
  a float is the parameter `fmt`.
- Orders.PlacedOrderListed: assumes, through `NoItemsOf`, that no order_item
  row already points at the new order's id. Such rows can remain after an
  admin deletes the most recent order, because that order's id is then
  reused. They would be listed under the new order.
- Orders.PlacedOrderListed, Orders.PlacedOrderInAll: assume
  `float(fmt(total)) == total`. That is Python's float `repr` round trip,
  which exact reals cannot state of `fmt` itself.
- Column affinity: the schema of `t_sys_attr_values` is not part of this
  model (db.py only opens the connection). The model assumes `value` has
  TEXT affinity, so `value = ?` compares texts exactly: `'5.0'` does not match
  `str(5)`. Under INTEGER or NUMERIC affinity SQLite would convert numeric
  texts and such matches (`Eav.WithValue`, `Eav.FindIds`) would differ.
  `ent_instance_id` is taken to have INTEGER affinity, so a text bound
  against it is converted as NUMERIC affinity converts it (`Text.NumericInt`,
  used by `Eav.EntityRowsAt`, `Cart.CartLineOf` and `Orders.PriceText`):
  '3.0', '3e0' and ' 3 ' all name instance 3.
- Text.NumericInt: leaves out the limits of SQLite's conversion. A literal
  too large for a 64-bit integer becomes a double and compares by its
  rounded value, and a fraction too long for a double can round to a whole
  number. Hexadecimal texts stay texts in SQLite too.
- Text.SqlCastInt, Text.SqlCastReal: model SQLite's CAST with leading white
  space skipped and, for REAL, an exponent. The 64-bit saturation of a huge
  integer prefix and the rounding of REAL to a double are not modelled.
- Text.StrToInt: models `int()` as an optional sign and decimal digits. The
  surrounding whitespace and digit-group underscores Python also accepts are
  not modelled: `str(n)` never produces them, and a text that an admin update
  stored with them is read by the model as one `int()` rejects.
  `Text.ParseDecimal` likewise leaves out exponents, `inf` and `nan`.
- Ordering assumptions:
  - The table is scanned in rowid order.
  - `GROUP BY` returns groups in ascending id order, which is SQLite's usual
    plan but not a guarantee.
  - Among records with equal `ORDER BY` keys, the model keeps them in group
    order; SQLite promises no order for ties.
- Admin.UpdateEntity: the fields are text pairs. The JSON numbers, booleans
  or nulls a client may put in `fields` are bound by SQLite with their own
  storage class, and that is left out.
- Tables.FreeTableOf: its own contract says only that it fails with 500. What
  it computes is stated by `Tables.FreeTableOfSkips`, `Tables.FreeRunRecords`
  and `Tables.FreeRunIds`.
