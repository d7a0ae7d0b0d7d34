/**
 * Review posting: at most one review per (user, product) pair, and a
 * product's rating and review count recomputed from all of its reviews.
 */
module Ratings {
  import opened Records
  import opened Lists

  /** The duplicate check: the user has already reviewed the product. */
  function HasReviewed(reviews: seq<Review>, user: UserId, product: ProductId): (b: bool)
    ensures b <==> exists x :: x in ReviewsOf(reviews, product) && x.user == user
  {
    exists r :: r in reviews && r.user == user && r.product == product
  }

  /** The schema's bounds on a rating: 1 to 5 stars. */
  predicate InRange(rating: int) {
    1 <= rating <= 5
  }

  /** Every stored review passed the schema's rating bounds. */
  ghost predicate RatingsInRange(reviews: seq<Review>) {
    forall r :: r in reviews ==> InRange(r.rating)
  }

  /** No two stored reviews share a (user, product) pair. */
  ghost predicate OneReviewPerPair(reviews: seq<Review>) {
    forall i, j :: 0 <= i < j < |reviews| ==>
      reviews[i].user != reviews[j].user || reviews[i].product != reviews[j].product
  }

  /** `Review.find({ product })`: the product's reviews, in store order. */
  function ReviewsOf(reviews: seq<Review>, product: ProductId): (r: seq<Review>)
    ensures forall x :: x in r <==> x in reviews && x.product == product
    ensures |r| <= |reviews|
  {
    Filter(reviews, (x: Review) => x.product == product)
  }

  /** The `reduce` that adds up the ratings, from the left starting at 0. */
  function RatingSum(rs: seq<Review>): (r: int)
    ensures (forall x :: x in rs ==> x.rating >= 0) ==> r >= 0
    ensures forall i :: 0 <= i < |rs| && (forall x :: x in rs ==> x.rating >= 0) ==> rs[i].rating <= r
    decreases |rs|
  {
    if rs == [] then 0 else RatingSum(rs[..|rs| - 1]) + rs[|rs| - 1].rating
  }

  /** The mean rating `sum / length`, kept as a fraction. */
  function Average(rs: seq<Review>): (a: Ratio)
    ensures a.den == |rs|
    ensures (forall x :: x in rs ==> InRange(x.rating)) ==> a.den <= a.num <= 5 * a.den
  {
    assert (forall x :: x in rs ==> InRange(x.rating)) ==> |rs| <= RatingSum(rs) <= 5 * |rs| by {
      if forall x :: x in rs ==> InRange(x.rating) {
        RatingSumBounds(rs);
      }
    }
    Ratio(RatingSum(rs), |rs|)
  }

  /** Ratings between 1 and 5 add up to between 1 and 5 times their number, so a mean of at least one of them lies in [1, 5]. */
  lemma {:induction false} RatingSumBounds(rs: seq<Review>)
    requires forall r :: r in rs ==> InRange(r.rating)
    ensures |rs| <= RatingSum(rs) <= 5 * |rs|
    decreases |rs|
  {
    if rs != [] {
      var init := rs[..|rs| - 1];
      assert forall r :: r in init ==> r in rs;
      assert rs[|rs| - 1] in rs;
      RatingSumBounds(init);
    }
  }

  /** A new review joins the end of its own product's list and no other. */
  lemma ReviewsOfAppend(reviews: seq<Review>, r: Review, product: ProductId)
    ensures ReviewsOf(reviews + [r], product) == ReviewsOf(reviews, product) + if r.product == product then [r] else []
  {
    FilterAppend(reviews, [r], (x: Review) => x.product == product);
    assert [r][1..] == [];
  }

  /**
   * The catalogue after the rating update: the product's rating becomes the
   * mean of all of its reviews and its count their number; an update of a
   * product that does not exist changes nothing.
   */
  function Rerated(catalog: map<ProductId, Product>, reviews: seq<Review>, product: ProductId): (r: map<ProductId, Product>)
    ensures r.Keys == catalog.Keys
    ensures forall id :: id in catalog && id != product ==> r[id] == catalog[id]
    ensures product in catalog ==>
      r[product].reviews == |ReviewsOf(reviews, product)| && r[product].rating == Average(ReviewsOf(reviews, product))
      && r[product].(rating := catalog[product].rating, reviews := catalog[product].reviews) == catalog[product]
  {
    if product in catalog then
      var rs := ReviewsOf(reviews, product);
      catalog[product := catalog[product].(rating := Average(rs), reviews := |rs|)]
    else catalog
  }

  /** Accepting a review of a not yet reviewed pair keeps both store invariants. */
  lemma AcceptPreservesInvariants(reviews: seq<Review>, r: Review)
    requires RatingsInRange(reviews) && OneReviewPerPair(reviews)
    requires !HasReviewed(reviews, r.user, r.product) && InRange(r.rating)
    ensures RatingsInRange(reviews + [r]) && OneReviewPerPair(reviews + [r])
  {
    var rs := reviews + [r];
    forall i, j | 0 <= i < j < |rs| ensures rs[i].user != rs[j].user || rs[i].product != rs[j].product {
      if j == |reviews| {
        assert rs[i] in reviews;
      }
    }
  }

  /** After an accepted review the product's mean lies between 1 and 5 stars. */
  lemma {:induction false} AverageWithinStars(catalog: map<ProductId, Product>, reviews: seq<Review>, product: ProductId)
    requires RatingsInRange(reviews) && product in catalog
    requires exists r :: r in reviews && r.product == product
    ensures var p := Rerated(catalog, reviews, product)[product];
            p.reviews >= 1 && p.rating.den == p.reviews && p.rating.den <= p.rating.num <= 5 * p.rating.den
  {
    var rs := ReviewsOf(reviews, product);
    var w :| w in reviews && w.product == product;
    assert w in rs;
    RatingSumBounds(rs);
  }

  /** Storing an accepted review keeps the invariants and leaves its product, if any, rated within 1 to 5 stars. */
  lemma AcceptedReview(catalog: map<ProductId, Product>, reviews: seq<Review>, r: Review)
    requires RatingsInRange(reviews) && OneReviewPerPair(reviews)
    requires !HasReviewed(reviews, r.user, r.product) && InRange(r.rating)
    ensures RatingsInRange(reviews + [r]) && OneReviewPerPair(reviews + [r])
    ensures r.product in catalog ==>
      var p := Rerated(catalog, reviews + [r], r.product)[r.product];
      p.reviews >= 1 && p.rating.den == p.reviews && p.reviews <= p.rating.num <= 5 * p.reviews
  {
    AcceptPreservesInvariants(reviews, r);
    if r.product in catalog {
      assert r in reviews + [r];
      AverageWithinStars(catalog, reviews + [r], r.product);
    }
  }

  /** Ratings 4, 5 and 3 give a stored rating of 12/3, which is 4, over 3 reviews. */
  lemma ThreeReviewsAverageFour()
    ensures var rs := [Review(1, 9, 4, "good"), Review(2, 9, 5, "great"), Review(3, 9, 3, "fine")];
            Average(rs) == Ratio(12, 3) && Average(rs).num == 4 * Average(rs).den
  {
    var rs := [Review(1, 9, 4, "good"), Review(2, 9, 5, "great"), Review(3, 9, 3, "fine")];
    assert rs[..2][..1] == [rs[0]];
    assert RatingSum(rs[..2][..1]) == 4;
    assert RatingSum(rs[..2]) == 9;
  }
}
