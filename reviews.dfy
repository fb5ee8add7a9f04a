/**
  The review endpoints: reviews stored as `review` instances, each about a
  dish (`dish_id`), about the restaurant (`restaurant = "true"`), or both;
  their listings and their mean ratings.
*/
module Reviews {
  import opened Wrappers
  import opened Text
  import opened Sorting
  import opened Eav

  /** The request model declares `rating` with `ge=1, le=5`: a body outside that range never reaches the handler. */
  type Rating = r: int | 1 <= r <= 5 witness 1

  /** The request body; a missing `comment` is "", a missing `dish_id` is None, a missing `is_restaurant` is false. */
  datatype ReviewIn = ReviewIn(userId: int, rating: Rating, comment: string, dishId: Option<int>, isRestaurant: bool)

  /** Python truthiness of the optional dish id: None and 0 are both false. */
  predicate HasDish(review: ReviewIn) {
    review.dishId.Some? && review.dishId.value != 0
  }

  /** The four rows every review is stored as; `now` is `datetime.now().isoformat()`. */
  function BaseFields(review: ReviewIn, now: string): seq<(string, string)> {
    [("user_id", IntToStr(review.userId)), ("rating", IntToStr(review.rating)),
     ("comment", review.comment), ("created_at", now)]
  }

  /** The rows naming what the review is about: `dish_id` when truthy, then `restaurant` when set. */
  function SubjectFields(review: ReviewIn): seq<(string, string)> {
    (if HasDish(review) then [("dish_id", IntToStr(review.dishId.value))] else [])
    + (if review.isRestaurant then [("restaurant", "true")] else [])
  }

  /** What `add_review` inserts, in the order its `data` list is built. */
  function ReviewFields(review: ReviewIn, now: string): seq<(string, string)> {
    BaseFields(review, now) + SubjectFields(review)
  }

  /** `POST /review`: 400 unless the review names a dish or the restaurant; otherwise stored under the next review id. */
  method AddReview(db: Store, review: ReviewIn, now: string) returns (r: Result<int>)
    requires db.Valid()
    modifies db
    ensures db.Valid() && db.sysEnt == old(db.sysEnt)
    ensures r.Err? <==> !HasDish(review) && !review.isRestaurant
    ensures r.Err? ==> r.status == BadRequest && db.rows == old(db.rows) && db.nextValId == old(db.nextValId)
    ensures r.Ok? ==> && r.value == NextId(old(db.rows), "review")
                      && db.rows == old(db.rows) + Stamp(old(db.nextValId), "review", r.value, ReviewFields(review, now))
                      && db.nextValId == old(db.nextValId) + |ReviewFields(review, now)|
  {
    if !HasDish(review) && !review.isRestaurant {
      return Err(BadRequest);
    }
    var reviewId := NextId(db.rows, "review");
    var data := [("user_id", IntToStr(review.userId)), ("rating", IntToStr(review.rating)),
                 ("comment", review.comment), ("created_at", now)];
    if HasDish(review) {
      data := data + [("dish_id", IntToStr(review.dishId.value))];
    }
    if review.isRestaurant {
      data := data + [("restaurant", "true")];
    }
    assert data == ReviewFields(review, now);
    db.InsertMany("review", reviewId, data);
    r := Ok(reviewId);
  }

  /** The six names differ in their first letter, or in their second for comment/created_at and rating/restaurant. */
  lemma ReviewFieldsDistinct(review: ReviewIn, now: string)
    ensures DistinctNames(ReviewFields(review, now))
  {
    var f := ReviewFields(review, now);
    forall i, j | 0 <= i < j < |f| ensures f[i].0 != f[j].0 {
      var a, b := f[i].0, f[j].0;
      assert |a| >= 2 && |b| >= 2;
      assert a[0] != b[0] || a[1] != b[1];
    }
  }

  /**
    A review carries `dish_id = str(d)` exactly when its dish id is the
    truthy `d`, and `restaurant = "true"` exactly when it is about the
    restaurant.
  */
  lemma SubjectOfReview(review: ReviewIn, now: string, d: int)
    ensures ("dish_id", IntToStr(d)) in ReviewFields(review, now) <==> HasDish(review) && review.dishId.value == d
    ensures ("restaurant", "true") in ReviewFields(review, now) <==> review.isRestaurant
  {
    var base, subject := BaseFields(review, now), SubjectFields(review);
    assert ReviewFields(review, now) == base + subject;
    assert forall k :: 0 <= k < |base| ==> base[k].0 != "dish_id" && base[k].0 != "restaurant" by {
      forall k | 0 <= k < |base| ensures base[k].0[0] != 'd' && base[k].0 != "restaurant" {
        assert base[k].0 in ["user_id", "rating", "comment", "created_at"];
      }
    }
    assert ("dish_id", IntToStr(d)) in subject <==> HasDish(review) && review.dishId.value == d by {
      if HasDish(review) && ("dish_id", IntToStr(d)) in subject {
        assert subject[0] == ("dish_id", IntToStr(review.dishId.value));
        IntToStrInjective(d, review.dishId.value);
      }
    }
  }

  // ---------------------------------------------------------------------
  // GET /reviews/dish/{dish_id} and GET /reviews/restaurant
  // ---------------------------------------------------------------------

  /** One returned row: the review id and the MAX(CASE ...) of four attributes, as text. */
  datatype ReviewRecord = ReviewRecord(
    reviewId: int, userId: Option<string>, rating: Option<string>, comment: Option<string>, createdAt: Option<string>)

  /** The MAX(CASE ...) pivot of one review instance. */
  function ReviewRecordOf(rows: seq<Row>, id: int): (v: ReviewRecord)
    ensures v.reviewId == id
    ensures IsMax(EntityRows(rows, "review", id), "user_id", v.userId)
    ensures IsMax(EntityRows(rows, "review", id), "rating", v.rating)
    ensures IsMax(EntityRows(rows, "review", id), "comment", v.comment)
    ensures IsMax(EntityRows(rows, "review", id), "created_at", v.createdAt)
  {
    var rs := EntityRows(rows, "review", id);
    ReviewRecord(id, MaxOf(rs, "user_id"), MaxOf(rs, "rating"), MaxOf(rs, "comment"), MaxOf(rs, "created_at"))
  }

  function CreatedAt(v: ReviewRecord): Option<string> {
    v.createdAt
  }

  function ReviewIdOf(v: ReviewRecord): int {
    v.reviewId
  }

  /**
    `... WHERE ent_name = 'review' AND ent_instance_id IN (SELECT ... WHERE
    attr_name = attr AND value = v) GROUP BY ent_instance_id ORDER BY
    created_at DESC`: one record per review holding that row, newest first
    (NULL last), equal dates in id order.
  */
  function ReviewsWith(rows: seq<Row>, attr: string, v: string): (all: seq<ReviewRecord>)
    ensures SortedBy(all, CreatedAt, true)
    ensures DistinctBy(all, ReviewIdOf)
    ensures forall id :: id in FindIds(rows, "review", attr, v) <==> exists i :: 0 <= i < |all| && all[i].reviewId == id
    ensures forall i :: 0 <= i < |all| ==> all[i] == ReviewRecordOf(rows, all[i].reviewId)
  {
    var ids := OwnedGroups(rows, "review", attr, v);
    AscendingNoDuplicates(ids);
    var f := (id: int) => ReviewRecordOf(rows, id);
    SortedRecords(ids, f, ReviewIdOf, CreatedAt, true);
    SortBy(Records(ids, f), CreatedAt, true)
  }

  /** `GET /reviews/dish/{dish_id}`: the reviews whose `dish_id` text is `str(dish_id)`. */
  function DishReviews(rows: seq<Row>, dishId: int): (all: seq<ReviewRecord>)
    ensures SortedBy(all, CreatedAt, true) && DistinctBy(all, ReviewIdOf)
    ensures forall id :: Lists(all, id) <==> id in FindIds(rows, "review", "dish_id", IntToStr(dishId))
    ensures forall i :: 0 <= i < |all| ==> all[i] == ReviewRecordOf(rows, all[i].reviewId)
  {
    ReviewsWith(rows, "dish_id", IntToStr(dishId))
  }

  /** `GET /reviews/restaurant`: the reviews marked `restaurant = "true"`. */
  function RestaurantReviews(rows: seq<Row>): (all: seq<ReviewRecord>)
    ensures SortedBy(all, CreatedAt, true) && DistinctBy(all, ReviewIdOf)
    ensures forall id :: Lists(all, id) <==> id in FindIds(rows, "review", "restaurant", "true")
    ensures forall i :: 0 <= i < |all| ==> all[i] == ReviewRecordOf(rows, all[i].reviewId)
  {
    ReviewsWith(rows, "restaurant", "true")
  }

  // ---------------------------------------------------------------------
  // GET /rating/dish/{dish_id} and GET /rating/restaurant
  // ---------------------------------------------------------------------

  function Sum(xs: seq<real>): real {
    if xs == [] then 0.0 else Sum(xs[..|xs| - 1]) + xs[|xs| - 1]
  }

  /** `m` times the number of terms is their sum: `m` is the mean of a non-empty `xs`. */
  predicate IsMean(m: real, xs: seq<real>) {
    m * |xs| as real == Sum(xs)
  }

  /** SQL `AVG`: NULL over no rows, the arithmetic mean otherwise. */
  function Avg(xs: seq<real>): (m: Option<real>)
    ensures m.None? <==> xs == []
    ensures m.Some? ==> IsMean(m.value, xs)
  {
    if xs == [] then None else Some(Sum(xs) / |xs| as real)
  }

  /** `float(avg) if avg else None`: a NULL mean and a mean of 0.0 both answer None. */
  function Reported(avg: Option<real>): (r: Option<real>)
    ensures r.Some? <==> avg.Some? && avg.value != 0.0
    ensures r.Some? ==> r == avg
  {
    if avg.Some? && avg.value != 0.0 then avg else None
  }

  /** `float(AVG(...)) if avg else None` over `xs`: None for no terms or a zero sum, else the mean. */
  function ReportedMean(xs: seq<real>): (r: Option<real>)
    ensures r.None? <==> xs == [] || Sum(xs) == 0.0
    ensures r.Some? ==> IsMean(r.value, xs)
  {
    var m := Avg(xs);
    assert m.Some? ==> (m.value == 0.0 <==> Sum(xs) == 0.0) by {
      if m.Some? {
        var n := |xs| as real;
        assert n > 0.0 && m.value * n == Sum(xs);
        if m.value != 0.0 {
          assert m.value * n != 0.0;
        }
      }
    }
    Reported(m)
  }

  /** The `CAST(value AS FLOAT)` of the rating rows of the reviews holding `attr = v`, in table order. */
  function RatingsWith(rows: seq<Row>, attr: string, v: string): (xs: seq<real>)
    ensures |xs| == |Select(rows, AttrIn("review", "rating", FindIds(rows, "review", attr, v)))|
  {
    var vs := Values(Select(rows, AttrIn("review", "rating", FindIds(rows, "review", attr, v))));
    seq(|vs|, i requires 0 <= i < |vs| => SqlCastReal(vs[i]))
  }

  datatype DishRating = DishRating(dishId: int, avgRating: Option<real>)

  /** `GET /rating/dish/{dish_id}`: the dish id and the reported mean of its reviews' ratings. */
  function GetDishRating(rows: seq<Row>, dishId: int): (r: DishRating)
    ensures var xs := RatingsWith(rows, "dish_id", IntToStr(dishId));
      && r.dishId == dishId
      && (r.avgRating.None? <==> xs == [] || Sum(xs) == 0.0)
      && (r.avgRating.Some? ==> IsMean(r.avgRating.value, xs))
  {
    DishRating(dishId, ReportedMean(RatingsWith(rows, "dish_id", IntToStr(dishId))))
  }

  /** `GET /rating/restaurant`: the reported mean of the restaurant reviews' ratings. */
  function GetRestaurantRating(rows: seq<Row>): (r: Option<real>)
    ensures var xs := RatingsWith(rows, "restaurant", "true");
      && (r.None? <==> xs == [] || Sum(xs) == 0.0)
      && (r.Some? ==> IsMean(r.value, xs))
  {
    ReportedMean(RatingsWith(rows, "restaurant", "true"))
  }

  /** Every stored review rating reads, under the SQL cast, as a number from 1 to 5. */
  predicate RatingsInRange(rows: seq<Row>) {
    forall x :: x in rows && x.ent == "review" && x.attr == "rating" ==> 1.0 <= SqlCastReal(x.value) <= 5.0
  }

  /** Bounds on the terms bound their sum. */
  lemma {:induction false} SumBounds(xs: seq<real>, lo: real, hi: real)
    requires forall i :: 0 <= i < |xs| ==> lo <= xs[i] <= hi
    ensures |xs| as real * lo <= Sum(xs) <= |xs| as real * hi
  {
    if xs != [] {
      SumBounds(xs[..|xs| - 1], lo, hi);
    }
  }

  /** The mean of terms between `lo` and `hi` lies between them. */
  lemma AvgBounds(xs: seq<real>, lo: real, hi: real)
    requires xs != [] && forall i :: 0 <= i < |xs| ==> lo <= xs[i] <= hi
    ensures lo <= Avg(xs).value <= hi
  {
    SumBounds(xs, lo, hi);
    var n := |xs| as real;
    var m := Avg(xs).value;
    assert m * n == Sum(xs);
  }

  /**
    While every stored rating is in range, a rating is reported exactly when
    some matching review has a rating row, and it is then between 1 and 5
    (the falsy 0.0 cannot occur).
  */
  lemma RatingReported(rows: seq<Row>, attr: string, v: string)
    requires RatingsInRange(rows)
    ensures var r := Reported(Avg(RatingsWith(rows, attr, v)));
      && (r.None? <==> RatingsWith(rows, attr, v) == [])
      && (r.Some? ==> 1.0 <= r.value <= 5.0)
  {
    var sel := Select(rows, AttrIn("review", "rating", FindIds(rows, "review", attr, v)));
    var xs := RatingsWith(rows, attr, v);
    if xs != [] {
      forall i | 0 <= i < |xs| ensures 1.0 <= xs[i] <= 5.0 {
        assert sel[i] in sel;
      }
      AvgBounds(xs, 1.0, 5.0);
    }
  }

  /** Storing a review keeps every rating in range: the model bounds the rating it writes. */
  lemma AddReviewKeepsRatingsInRange(rows: seq<Row>, start: nat, id: int, review: ReviewIn, now: string)
    requires RatingsInRange(rows)
    ensures RatingsInRange(rows + Stamp(start, "review", id, ReviewFields(review, now)))
  {
    var f := ReviewFields(review, now);
    var s := Stamp(start, "review", id, f);
    forall x | x in rows + s && x.ent == "review" && x.attr == "rating" ensures 1.0 <= SqlCastReal(x.value) <= 5.0 {
      if x in s {
        var k :| 0 <= k < |s| && s[k] == x;
        ReviewFieldsDistinct(review, now);
        assert f[1].0 == "rating";
        assert k == 1;
        SqlCastRealOfInt(review.rating);
      }
    }
  }

  // ---------------------------------------------------------------------
  // Create then read
  // ---------------------------------------------------------------------

  /** The new review reads back with the user id, rating, comment and creation time as written. */
  lemma AddedReviewRecord(rows: seq<Row>, start: nat, review: ReviewIn, now: string)
    ensures var id := NextId(rows, "review");
      ReviewRecordOf(rows + Stamp(start, "review", id, ReviewFields(review, now)), id)
        == ReviewRecord(id, Some(IntToStr(review.userId)), Some(IntToStr(review.rating)), Some(review.comment), Some(now))
  {
    var id := NextId(rows, "review");
    var f := ReviewFields(review, now);
    InsertedEntity(rows, start, "review", f);
    ReviewFieldsDistinct(review, now);
    MaxOfStampDistinct(start, "review", id, f, 0);
    MaxOfStampDistinct(start, "review", id, f, 1);
    MaxOfStampDistinct(start, "review", id, f, 2);
    MaxOfStampDistinct(start, "review", id, f, 3);
  }

  /** Storing a review leaves every other review's record as it was. */
  lemma OtherReviewsUnchanged(rows: seq<Row>, start: nat, id: int, fields: seq<(string, string)>, z: int)
    requires z != id
    ensures ReviewRecordOf(rows + Stamp(start, "review", id, fields), z) == ReviewRecordOf(rows, z)
  {
    InsertInvisible(rows, start, "review", id, fields, OfEntity("review", z));
  }

  /** The listing holds a record of review `id`. */
  predicate Lists(all: seq<ReviewRecord>, id: int) {
    exists i :: 0 <= i < |all| && all[i].reviewId == id
  }

  /** A new review is listed among those holding `attr = v` exactly when it was written with that row. */
  lemma InsertedReviewListed(rows: seq<Row>, start: nat, fields: seq<(string, string)>, attr: string, v: string)
    ensures var id := NextId(rows, "review");
      Lists(ReviewsWith(rows + Stamp(start, "review", id, fields), attr, v), id) <==> (attr, v) in fields
  {
    InsertedFindIds(rows, start, "review", fields, attr, v);
  }

  /** Listed after the create: in its dish's reviews when the dish id is truthy, in the restaurant's when set. */
  lemma AddedReviewListed(rows: seq<Row>, start: nat, review: ReviewIn, now: string, d: int)
    ensures var id := NextId(rows, "review");
      var after := rows + Stamp(start, "review", id, ReviewFields(review, now));
      && (Lists(DishReviews(after, d), id) <==> HasDish(review) && review.dishId.value == d)
      && (Lists(RestaurantReviews(after), id) <==> review.isRestaurant)
  {
    var f := ReviewFields(review, now);
    SubjectOfReview(review, now, d);
    InsertedReviewListed(rows, start, f, "dish_id", IntToStr(d));
    InsertedReviewListed(rows, start, f, "restaurant", "true");
  }

  /** The SQL casts of some rating rows followed by one more. */
  lemma RatingsAppend(rs: seq<Row>, x: Row)
    ensures var vs := Values(rs + [x]);
      seq(|vs|, i requires 0 <= i < |vs| => SqlCastReal(vs[i]))
        == (var ws := Values(rs); seq(|ws|, i requires 0 <= i < |ws| => SqlCastReal(ws[i]))) + [SqlCastReal(x.value)]
  {
  }

  /**
    Storing a review adds its rating at the end of the ratings averaged for
    `attr = v` when it carries that row, and leaves them as they were otherwise.
  */
  lemma AddedRating(rows: seq<Row>, start: nat, review: ReviewIn, now: string, attr: string, v: string)
    ensures var id := NextId(rows, "review");
      var after := rows + Stamp(start, "review", id, ReviewFields(review, now));
      RatingsWith(after, attr, v)
        == RatingsWith(rows, attr, v) + (if (attr, v) in ReviewFields(review, now) then [review.rating as real] else [])
  {
    var id := NextId(rows, "review");
    var f := ReviewFields(review, now);
    ReviewFieldsDistinct(review, now);
    assert f[1].0 == "rating";
    InsertedAttrRows(rows, start, "review", f, attr, v, "rating", 1);
    var before := Select(rows, AttrIn("review", "rating", FindIds(rows, "review", attr, v)));
    if (attr, v) in f {
      RatingsAppend(before, Row(start + 1, "review", "rating", id, f[1].1));
      SqlCastRealOfInt(review.rating);
    }
  }

  /** A restaurant review adds its rating to the restaurant's. */
  lemma AddedRestaurantRating(rows: seq<Row>, after: seq<Row>, start: nat, review: ReviewIn, now: string)
    requires review.isRestaurant
    requires after == rows + Stamp(start, "review", NextId(rows, "review"), ReviewFields(review, now))
    ensures RatingsWith(after, "restaurant", "true") == RatingsWith(rows, "restaurant", "true") + [review.rating as real]
  {
    SubjectOfReview(review, now, 0);
    AddedRating(rows, start, review, now, "restaurant", "true");
  }

  /** A review adds its rating to dish `d`'s exactly when its truthy dish id is `d`. */
  lemma AddedDishRating(rows: seq<Row>, after: seq<Row>, start: nat, review: ReviewIn, now: string, d: int)
    requires after == rows + Stamp(start, "review", NextId(rows, "review"), ReviewFields(review, now))
    ensures RatingsWith(after, "dish_id", IntToStr(d))
      == RatingsWith(rows, "dish_id", IntToStr(d)) + (if HasDish(review) && review.dishId.value == d then [review.rating as real] else [])
  {
    SubjectOfReview(review, now, d);
    AddedRating(rows, start, review, now, "dish_id", IntToStr(d));
  }

  /** The mean that SQL AVG and the Python check report for ratings 5, 3 and 4. */
  lemma ReportedExample()
    ensures Reported(Avg([5.0, 3.0, 4.0])) == Some(4.0)
  {
    var a, b, c := [5.0], [5.0, 3.0], [5.0, 3.0, 4.0];
    assert a[..0] == [] && b[..1] == a && c[..2] == b;
    assert Sum(a) == 5.0 && Sum(b) == 8.0 && Sum(c) == 12.0;
  }

  /**
    Three restaurant reviews rated 5, 3 and 4, stored one after another on a
    table without restaurant ratings, average 4.0.
  */
  lemma RestaurantRatingExample(rows0: seq<Row>, rows1: seq<Row>, rows2: seq<Row>, rows3: seq<Row>,
                                s0: nat, s1: nat, s2: nat, r1: ReviewIn, r2: ReviewIn, r3: ReviewIn,
                                t1: string, t2: string, t3: string)
    requires RatingsWith(rows0, "restaurant", "true") == []
    requires r1.isRestaurant && r2.isRestaurant && r3.isRestaurant
    requires r1.rating == 5 && r2.rating == 3 && r3.rating == 4
    requires rows1 == rows0 + Stamp(s0, "review", NextId(rows0, "review"), ReviewFields(r1, t1))
    requires rows2 == rows1 + Stamp(s1, "review", NextId(rows1, "review"), ReviewFields(r2, t2))
    requires rows3 == rows2 + Stamp(s2, "review", NextId(rows2, "review"), ReviewFields(r3, t3))
    ensures GetRestaurantRating(rows3) == Some(4.0)
  {
    AddedRestaurantRating(rows0, rows1, s0, r1, t1);
    AddedRestaurantRating(rows1, rows2, s1, r2, t2);
    AddedRestaurantRating(rows2, rows3, s2, r3, t3);
    RatingsChain(RatingsWith(rows0, "restaurant", "true"), RatingsWith(rows1, "restaurant", "true"),
                 RatingsWith(rows2, "restaurant", "true"), RatingsWith(rows3, "restaurant", "true"),
                 r1.rating as real, r2.rating as real, r3.rating as real);
    ReportedExample();
  }

  lemma RatingsChain(x0: seq<real>, x1: seq<real>, x2: seq<real>, x3: seq<real>, a: real, b: real, c: real)
    requires x0 == [] && x1 == x0 + [a] && x2 == x1 + [b] && x3 == x2 + [c]
    ensures x3 == [a, b, c]
  {
  }
}
