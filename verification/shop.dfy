/**
 * The API's store and the routes that change it, one request at a time:
 * placing an order (validate every line, record the order, decrement stock),
 * adding and removing a favourite, and posting a review.
 */
module Server {
  import opened Results
  import opened Records
  import opened Lists
  import opened Stock
  import opened Ratings

  class Shop {
    var products: map<ProductId, Product>
    var orders: seq<Order>
    /** Each registered user's favourites list; a user is registered exactly when a key is present. */
    var favorites: map<UserId, seq<ProductId>>
    var reviews: seq<Review>

    /** What the routes keep true: no favourite listed twice, ratings 1..5, one review per (user, product). */
    ghost predicate Valid()
      reads this
    {
      && (forall u :: u in favorites ==> Distinct(favorites[u]))
      && RatingsInRange(reviews)
      && OneReviewPerPair(reviews)
    }

    /** A store holding a catalogue and users with empty favourites lists, and no orders or reviews. */
    constructor (catalog: map<ProductId, Product>, users: set<UserId>)
      ensures products == catalog && orders == [] && reviews == []
      ensures favorites == map u | u in users :: []
      ensures Valid()
    {
      products := catalog;
      orders := [];
      favorites := map u | u in users :: [];
      reviews := [];
    }

    /**
     * POST /api/orders for the authenticated `user`. A line whose product is
     * missing or short of stock rejects the order and nothing changes;
     * otherwise a pending order is recorded as sent and every line's quantity
     * is subtracted from its product's stock.
     */
    method PlaceOrder(user: UserId, items: seq<LineItem>, total: int, shippingAddress: Address)
      returns (r: Result<Order, ApiError>)
      modifies this
      ensures favorites == old(favorites) && reviews == old(reviews)
      ensures Shortfall(old(products), items).Some? ==>
        r == Err(Shortfall(old(products), items).value) && products == old(products) && orders == old(orders)
      ensures Shortfall(old(products), items) == None ==>
        && r == Ok(Order(user, items, total, Pending, shippingAddress))
        && orders == old(orders) + [r.value]
        && products == StockAfter(old(products), items)
      ensures old(Valid()) ==> Valid()
    {
      var i := 0;
      while i < |items|
        invariant 0 <= i <= |items|
        invariant products == old(products) && orders == old(orders)
        invariant favorites == old(favorites) && reviews == old(reviews)
        invariant Shortfall(products, items) == Shortfall(products, items[i..])
      {
        var item := items[i];
        if item.product !in products || products[item.product].stock < item.quantity {
          r := Err(Rejection(products, item));
          return;
        }
        assert items[i..][1..] == items[i + 1..];
        i := i + 1;
      }
      assert items[|items|..] == [];

      var order := Order(user, items, total, Pending, shippingAddress);
      orders := orders + [order];

      var j := 0;
      while j < |items|
        invariant 0 <= j <= |items|
        invariant products == StockAfter(old(products), items[..j])
        invariant orders == old(orders) + [order]
        invariant favorites == old(favorites) && reviews == old(reviews)
      {
        var item := items[j];
        if item.product in products {
          var p := products[item.product];
          products := products[item.product := p.(stock := p.stock - item.quantity)];
        }
        assert items[..j + 1][..j] == items[..j];
        j := j + 1;
      }
      assert items[..|items|] == items;
      r := Ok(order);
    }

    /**
     * POST /api/favorites/:productId: appends the id unless it is already
     * listed. An unknown user makes the route fail with status 500.
     */
    method AddFavorite(user: UserId, productId: ProductId) returns (r: Result<string, ApiError>)
      modifies this
      ensures products == old(products) && orders == old(orders) && reviews == old(reviews)
      ensures user !in old(favorites) ==> r == Err(ServerError("Error adding to favorites")) && favorites == old(favorites)
      ensures user in old(favorites) ==>
        && r == Ok("Product added to favorites")
        && favorites == old(favorites)[user := AppendIfAbsent(old(favorites)[user], productId)]
      ensures old(Valid()) ==> Valid()
    {
      if user !in favorites {
        return Err(ServerError("Error adding to favorites"));
      }
      if productId !in favorites[user] {
        favorites := favorites[user := favorites[user] + [productId]];
      }
      r := Ok("Product added to favorites");
      if old(Valid()) {
        DistinctPreserved(old(favorites)[user], productId);
      }
    }

    /**
     * DELETE /api/favorites/:productId: drops every occurrence of the id,
     * keeping the others in order. An unknown user fails with status 500.
     */
    method RemoveFavorite(user: UserId, productId: ProductId) returns (r: Result<string, ApiError>)
      modifies this
      ensures products == old(products) && orders == old(orders) && reviews == old(reviews)
      ensures user !in old(favorites) ==> r == Err(ServerError("Error removing from favorites")) && favorites == old(favorites)
      ensures user in old(favorites) ==>
        && r == Ok("Product removed from favorites")
        && favorites == old(favorites)[user := Without(old(favorites)[user], productId)]
      ensures old(Valid()) ==> Valid()
    {
      if user !in favorites {
        return Err(ServerError("Error removing from favorites"));
      }
      favorites := favorites[user := Without(favorites[user], productId)];
      r := Ok("Product removed from favorites");
      if old(Valid()) {
        DistinctPreserved(old(favorites)[user], productId);
      }
    }

    /**
     * POST /api/reviews. A second review of the same product by the same user
     * is refused with status 400; a rating outside 1..5 or an empty comment
     * fails the schema on save (status 500). Otherwise the review is stored
     * and the product's rating and count are recomputed from all its reviews.
     */
    method AddReview(user: UserId, productId: ProductId, rating: int, comment: string)
      returns (r: Result<Review, ApiError>)
      modifies this
      ensures orders == old(orders) && favorites == old(favorites)
      ensures HasReviewed(old(reviews), user, productId) ==>
        r == Err(BadRequest("You have already reviewed this product")) && reviews == old(reviews) && products == old(products)
      ensures !HasReviewed(old(reviews), user, productId) && (!InRange(rating) || comment == "") ==>
        r == Err(ServerError("Error creating review")) && reviews == old(reviews) && products == old(products)
      ensures !HasReviewed(old(reviews), user, productId) && InRange(rating) && comment != "" ==>
        && r == Ok(Review(user, productId, rating, comment))
        && reviews == old(reviews) + [r.value]
        && products == Rerated(old(products), reviews, productId)
      ensures r.Ok? && old(Valid()) && productId in products ==>
        var p := products[productId];
        p.reviews >= 1 && p.rating.den == p.reviews && p.reviews <= p.rating.num <= 5 * p.reviews
      ensures old(Valid()) ==> Valid()
    {
      if HasReviewed(reviews, user, productId) {
        return Err(BadRequest("You have already reviewed this product"));
      }
      if !InRange(rating) || comment == "" {
        return Err(ServerError("Error creating review"));
      }
      var review := Review(user, productId, rating, comment);
      if Valid() {
        AcceptedReview(products, reviews, review);
      }
      reviews := reviews + [review];
      products := Rerated(products, reviews, productId);
      r := Ok(review);
      assert favorites == old(favorites);
    }
  }
}
