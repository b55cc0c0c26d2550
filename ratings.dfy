/**
 * Ratings (controllers/rating.controller.js). A user may rate a product only after a completed
 * order of theirs contains it; the new rating's id is appended to the product and the product's
 * average is recomputed from all of its ratings. Ratings are integers 1..5 (models/rating.model.js)
 * and the average is a real number.
 */
module Ratings {
  import opened Common
  import opened Store
  import opened Collections

  /** The `reduce` of rating.controller.js:28: the values summed from the first to the last. */
  function Sum(values: seq<int>): int
    decreases |values|
  {
    if values == [] then 0 else Sum(values[..|values| - 1]) + values[|values| - 1]
  }

  function Mean(values: seq<int>): real
    requires |values| > 0
  {
    Sum(values) as real / |values| as real
  }

  lemma {:induction false} SumBounds(values: seq<int>, lo: int, hi: int)
    requires forall i :: 0 <= i < |values| ==> lo <= values[i] <= hi
    ensures lo * |values| <= Sum(values) <= hi * |values|
  {
    if values != [] {
      var init := values[..|values| - 1];
      SumBounds(init, lo, hi);
      assert lo * |values| == lo * |init| + lo;
      assert hi * |values| == hi * |init| + hi;
    }
  }

  lemma QuotientBounds(s: real, n: real, lo: real, hi: real)
    requires n > 0.0 && lo * n <= s <= hi * n
    ensures lo <= s / n <= hi
  {
  }

  /** The mean of values that all lie in [lo, hi] lies in [lo, hi]. */
  lemma MeanBounds(values: seq<int>, lo: int, hi: int)
    requires |values| > 0
    requires forall i :: 0 <= i < |values| ==> lo <= values[i] <= hi
    ensures lo as real <= Mean(values) <= hi as real
  {
    SumBounds(values, lo, hi);
    var n := |values|;
    assert (lo * n) as real == lo as real * n as real;
    assert (hi * n) as real == hi as real * n as real;
    QuotientBounds(Sum(values) as real, n as real, lo as real, hi as real);
  }

  /**
   * The values of the ratings `populate('ratings')` finds for a list of rating ids, in list order;
   * an id with no rating document behind it is dropped.
   */
  function RatingValues(ratings: map<Id, Rating>, ids: seq<Id>): (r: seq<int>)
    ensures |r| <= |ids|
    decreases |ids|
  {
    if ids == [] then []
    else
      var last := ids[|ids| - 1];
      RatingValues(ratings, ids[..|ids| - 1]) + (if last in ratings then [ratings[last].rating] else [])
  }

  /** Every stored rating respects the schema's bounds. */
  predicate RatingsInRange(ratings: map<Id, Rating>) {
    forall id :: id in ratings ==> 1 <= ratings[id].rating <= 5
  }

  lemma {:induction false} RatingValuesInRange(ratings: map<Id, Rating>, ids: seq<Id>)
    requires RatingsInRange(ratings)
    ensures forall i :: 0 <= i < |RatingValues(ratings, ids)| ==> 1 <= RatingValues(ratings, ids)[i] <= 5
  {
    if ids != [] {
      RatingValuesInRange(ratings, ids[..|ids| - 1]);
    }
  }

  /** Whether some completed order of `user` lists `product` (rating.controller.js:11). */
  predicate HasPurchased(orders: map<Id, Order>, user: Id, product: Id) {
    exists id :: id in orders && orders[id].user == user && orders[id].status == Completed
      && exists i :: 0 <= i < |orders[id].products| && orders[id].products[i].product == product
  }

  /** The product after `ratingId` is pushed onto its ratings and its average recomputed (lines 21-31). */
  function Rated(product: Product, ratings: map<Id, Rating>, ratingId: Id): Product
    requires ratingId in ratings
  {
    var ids := product.ratings + [ratingId];
    assert ids[..|ids| - 1] == product.ratings;
    product.(ratings := ids, averageRating := Mean(RatingValues(ratings, ids)))
  }

  /**
   * After a rating, the product's rating list is the old one with the new id at the end; its average
   * is the sum of the values behind that list divided by their count, which is at least one; and
   * when every stored rating is within the schema's bounds, so is the average.
   */
  lemma RatedAverage(product: Product, ratings: map<Id, Rating>, ratingId: Id)
    requires ratingId in ratings
    ensures Rated(product, ratings, ratingId).ratings == product.ratings + [ratingId]
    ensures var values := RatingValues(ratings, product.ratings + [ratingId]);
      |values| >= 1
      && Rated(product, ratings, ratingId).averageRating * |values| as real == Sum(values) as real
    ensures RatingsInRange(ratings) ==> 1.0 <= Rated(product, ratings, ratingId).averageRating <= 5.0
  {
    var ids := product.ratings + [ratingId];
    assert ids[..|ids| - 1] == product.ratings;
    var values := RatingValues(ratings, ids);
    assert values == RatingValues(ratings, product.ratings) + [ratings[ratingId].rating];
    if RatingsInRange(ratings) {
      RatingValuesInRange(ratings, ids);
      MeanBounds(values, 1, 5);
    }
  }

  /**
   * addRating (rating.controller.js:6-37). Without a completed order listing the product the answer is
   * Forbidden. A value outside 1..5 fails the schema when the rating is saved. Otherwise the rating is
   * saved; if the product no longer exists, the reload of line 26 yields null and reading its ratings
   * throws, so the answer is a 500 with the rating saved and no product changed.
   */
  method AddRating(db: Database, value: int, message: string, user: Id, product: Id, ratingId: Id, now: nat)
    returns (r: Result<Id>)
    requires ratingId !in db.ratings
    modifies db`ratings, db`products
    ensures !HasPurchased(old(db.orders), user, product) ==> r == Err(Forbidden)
    ensures HasPurchased(old(db.orders), user, product) && !(1 <= value <= 5) ==> r == Err(ValidationFailed)
    ensures r == Err(Forbidden) || r == Err(ValidationFailed) ==>
      db.ratings == old(db.ratings) && db.products == old(db.products)
    ensures HasPurchased(old(db.orders), user, product) && 1 <= value <= 5 ==>
      db.ratings == old(db.ratings)[ratingId := Rating(value, message, user, product, now)]
    ensures HasPurchased(old(db.orders), user, product) && 1 <= value <= 5 && product !in old(db.products) ==>
      r == Err(Unexpected) && db.products == old(db.products)
    ensures HasPurchased(old(db.orders), user, product) && 1 <= value <= 5 && product in old(db.products) ==>
      r == Ok(ratingId) && db.products == old(db.products)[product := Rated(old(db.products)[product], db.ratings, ratingId)]
    ensures RatingsInRange(old(db.ratings)) ==> RatingsInRange(db.ratings)
  {
    if !HasPurchased(db.orders, user, product) {
      return Err(Forbidden);
    }
    if !(1 <= value <= 5) {
      return Err(ValidationFailed);
    }
    db.ratings := db.ratings[ratingId := Rating(value, message, user, product, now)];
    if product !in db.products {
      return Err(Unexpected);
    }
    db.products := db.products[product := Rated(db.products[product], db.ratings, ratingId)];
    r := Ok(ratingId);
  }

  /**
   * getRatingsByProduct (rating.controller.js:40-52): the ids of exactly the ratings of `product`,
   * each once, newest first.
   */
  function RatingsByProduct(ratings: map<Id, Rating>, product: Id): (r: seq<Id>)
    ensures forall id :: id in r <==> id in ratings && ratings[id].product == product
    ensures forall id :: id in r ==> multiset(r)[id] == 1
    ensures forall i, j :: 0 <= i < j < |r| ==>
      r[i] in ratings && r[j] in ratings && ratings[r[i]].createdAt >= ratings[r[j]].createdAt
  {
    NewestFirst(ratings, (rating: Rating) => rating.product == product, (rating: Rating) => rating.createdAt)
  }
}
