# Storefront order, favourites, review and cart logic in Dafny

This project models the list and counter logic of a small cosmetics
storefront: an HTTP API over a document store (`server.js`) and a
single-page React client (`src/App.js`). The stores are abstract and in
memory: the product catalogue is a map from product id to product record,
each user's favourites a sequence of product ids, orders and reviews
sequences. Money is integer cents; a product's rating is a fraction
`num / den` rather than a float.

Files and modules:

- `results.dfy` (`Results`): `Option` and `Result`.
- `lists.dfy` (`Lists`): `Array.prototype.filter`, removal of one id, and the guarded `push`. Both the server favourites routes and the client toggle use them.
- `records.dfy` (`Records`): the product, order, line item and review documents, and the error responses (status 400 or 500 with their message).
- `stock.dfy` (`Stock`): order validation and stock decrement as functions, with their lemmas.
- `ratings.dfy` (`Ratings`): the duplicate-review check and the rating recompute, with their lemmas.
- `listing.dfy` (`Listing`): the category query, sort key mapping, skip, page slice and page count.
- `shop.dfy` (`Server.Shop`): the store as a class. Its methods are the order, favourites and review routes. They update the fields in place, as the route handlers update the store.
- `storefront.dfy` (`Storefront`): the client's product filter, cart, favourites toggle, cart total and badge, as pure functions.

Behaviours of the code that the model keeps as they are:

- When `sort` is absent the code applies no sort. `newest` and any unknown non-empty key give newest first.
- When `page` or `limit` is absent they are 1 and 10.
- Line quantities are not checked to be at least 1. A quantity of 0 or below passes validation for any existing product whose stock is not negative, and a negative one raises the stock.
- A line item without a product id is looked up as a missing product, so it gets the 400 response "Insufficient stock for product", like any id with no product.
- A review of a product id that has no product is still stored. The product update then finds nothing to change.

## Model

| member | source | states |
|---|---|---|
| Lists.Filter | src/App.js:95-99 | keeps exactly the elements the test accepts, every copy of each, in their original order (a subsequence of the input) |
| Lists.FilterSameTest | src/App.js:95-99 | two tests that agree on every element filter the list alike |
| Lists.Without | server.js:347 | no occurrence of the id remains; every other id keeps its count; the result is an order-preserving subsequence; removing an absent id changes nothing |
| Lists.WithoutAppend | src/App.js:116 | removing an id from a concatenation removes it from each part |
| Lists.AppendIfAbsent | server.js:331-334 | the id is present afterwards; a list that already holds the id is unchanged; otherwise the id is appended at the end, once |
| Lists.AppendIfAbsentIdempotent | server.js:331-334 | adding a favourite twice equals adding it once |
| Lists.DistinctPreserved | server.js:331-347 | neither the guarded push nor the filter can create a duplicate favourite |
| Stock.InStock | server.js:266-267 | a line passes only if its product exists; an existing product with non-negative stock passes any quantity of 0 or below |
| Stock.Rejection | server.js:267-270 | a failing line gets a 400 response |
| Stock.Shortfall | server.js:265-272 | validation passes iff every line, checked on its own against the pre-order stock, has an existing product with `stock >= quantity`; on failure, the error is the rejection for the first failing line |
| Stock.Decrement | server.js:285-288 | one `$inc` update never adds or removes products |
| Stock.StockAfter | server.js:284-289 | the update loop never adds or removes products |
| Stock.StockAfterSubtractsOrdered | server.js:284-289 | after the update loop, each product's stock is its old stock minus the sum of the quantities of its lines; every other field is unchanged, and products not in the order are unchanged |
| Stock.OrderedSingleLine | server.js:284-289 | when no product is on two lines, a product's ordered total is its line's quantity, or 0 |
| Stock.NoOversellWithDistinctLines | server.js:265-289 | if validation passes, no product is listed twice and no stock was negative, then no stock is negative afterwards |
| Stock.RepeatedLineOversells | server.js:265-289 | stock 5 with two lines of 3 for one product passes validation and leaves stock -1 |
| Stock.SellOutThenReject | server.js:265-289 | stock 3: an order of 3 passes and leaves 0; a following order of 1 is rejected with a message naming the product |
| Stock.NegativeQuantityRaisesStock | server.js:265-289 | a negative quantity passes validation and increases the stock |
| Ratings.HasReviewed | server.js:370-377 | true iff the product's own reviews include one by this user |
| Ratings.RatingSum | server.js:391 | with non-negative ratings the sum is non-negative and at least each single rating |
| Ratings.Average | server.js:391 | the denominator is the number of reviews; with ratings in 1..5 the fraction lies in [1, 5] |
| Ratings.ReviewsOf | server.js:390 | exactly the stored reviews of that product |
| Ratings.RatingSumBounds | server.js:70 | with ratings in 1..5, the sum of n ratings lies between n and 5n |
| Ratings.ReviewsOfAppend | server.js:387-390 | a newly stored review joins the end of its own product's review list and no other |
| Ratings.Rerated | server.js:390-396 | the reviewed product's count becomes the number of its reviews and its rating the fraction (sum of their ratings)/(that number); its other fields and all other products are unchanged; a missing product is not created |
| Ratings.AcceptPreservesInvariants | server.js:370-387 | storing a review whose (user, product) pair is new and whose rating is in 1..5 keeps the store's invariants: one review per pair, every rating in 1..5 |
| Ratings.AcceptedReview | server.js:370-396 | storing a review of a new pair with a rating in 1..5 keeps the store invariants, and its product, if it exists, is re-rated to between 1 and 5 stars over at least one review |
| Ratings.AverageWithinStars | server.js:390-396 | after recomputing, the product's count is at least 1 and is the fraction's denominator, and the mean lies in [1, 5] |
| Ratings.ThreeReviewsAverageFour | server.js:390-396 | ratings 4, 5, 3 give rating 12/3 = 4 over 3 reviews |
| Listing.CategoryQuery | server.js:187-189 | a category condition is added iff the parameter is present and not 'all', and then it is that category |
| Listing.SortFor | server.js:198-216 | absent sort: no ordering; 'price-low' is the only ascending order; 'price-low' and 'price-high' sort on price, 'rating' on rating; every other non-empty key gives newest first |
| Listing.Skip | server.js:218 | page 1 skips nothing; a limit of 0 skips nothing; for a positive limit the skip is negative iff the page is below 1; pages from 1 on with a non-negative limit skip a non-negative number |
| Listing.TotalPages | server.js:228 | for a positive limit, the count n satisfies `(n-1)*limit < total <= n*limit`; for a negative limit, the mirror image; for limit 0, null |
| Listing.CeilingBounds | server.js:228 | `(total + d - 1) / d` is the ceiling of `total / d`: the least n with `total <= n*d` |
| Listing.PageOf | server.js:218-222 | entry k of the page is match `skip + k`; a non-zero limit bounds the page size by its absolute value; a page is cut short only at the end of the matches |
| Listing.EntryOfPage | server.js:218-222 | a position within the limit and within the matches is present on the page and holds the match at `skip` plus that position |
| Listing.List | server.js:181-234 | a negative skip gives the 500 response; otherwise the response carries the page's products as `PageOf` characterises them, the match count, the requested page and the page count |
| Listing.ListQuery | server.js:183-230 | an absent page is page 1: the response cannot fail and its products are a prefix of the matches; an absent limit gives at most 10 products and `ceil(total / 10)` pages; in every case the response is `List` with each absent parameter replaced by its default, page 1 and limit 10 |
| Listing.DefaultListing | server.js:183-230 | with neither parameter the response is the first ten matches, or all of them if fewer, on page 1 of `ceil(total / 10)` |
| Listing.PageIsSlice | server.js:218-222 | for page >= 1 and limit > 0, the page is the matches from `(page-1)*limit` up to `limit` further, cut at the end |
| Listing.EveryItemOnItsPage | server.js:218-228 | every match appears on page `index/limit + 1`, at position `index % limit`, and that page is between 1 and the page count |
| Listing.PagesUpToCountAreFilled | server.js:218-228 | pages 1 to totalPages are non-empty, and every later page is empty |
| Listing.SecondPageOfFive | server.js:218-228 | five matches, page 2, limit 2: the third and fourth matches, out of 3 pages |
| Server.Shop.constructor | server.js:22-79 | a new store holds the given catalogue, an empty favourites list for each user, and no orders or reviews; it satisfies the store invariants |
| Server.Shop.PlaceOrder | server.js:260-295 | if any line fails validation, the first failing line's 400 response is returned and neither orders nor stock change; otherwise a `pending` order with the caller's id and the items, total and address as sent is appended, and the stock becomes `StockAfter` of the old stock; favourites and reviews are untouched |
| Server.Shop.AddFavorite | server.js:326-340 | an unknown user gets the 500 response with nothing changed; otherwise the user's list gets the guarded push and no other user's list changes; no duplicate is introduced |
| Server.Shop.RemoveFavorite | server.js:342-354 | an unknown user gets the 500 response with nothing changed; otherwise every occurrence of the id is filtered out of that user's list only |
| Server.Shop.AddReview | server.js:366-402 | a repeated (user, product) pair gets the 400 response with reviews and products unchanged; a rating outside 1..5 or an empty comment fails the schema with the 500 response and nothing changed; otherwise the review is appended, the product is re-rated over all its reviews, its mean lies in [1, 5], and the store invariants are kept |
| Storefront.LowerChar | src/App.js:97 | A-Z map to a-z (offset 32); every other character is unchanged |
| Storefront.LowerCharAlike | src/App.js:97 | two characters lower-case alike iff they are equal or the same letter in the other ASCII case |
| Storefront.Lower | src/App.js:97 | keeps the length, leaves no upper-case letter, and each character is the input's or its lower-case form |
| Storefront.LowerIdempotent | src/App.js:97 | lower-casing twice is lower-casing once |
| Storefront.LowerAlike | src/App.js:97 | two strings lower-case alike iff they are equal up to ASCII case |
| Storefront.Contains | src/App.js:97 | a match needs a term no longer than the text; a prefix always matches; a term of the text's length matches iff it equals the text |
| Storefront.Shown | src/App.js:96-98 | shown only if the category fits and the term is no longer than the name; 'all' with an empty search shows everything; a term equal to the name up to case is shown when the category fits |
| Storefront.SearchIgnoresCase | src/App.js:95-99 | search terms equal up to ASCII case select the same products |
| Storefront.ContainsIsSubstring | src/App.js:97 | `includes` holds iff the term occurs at some position of the text |
| Storefront.FilteredProducts | src/App.js:95-99 | keeps a product iff the category is 'all' or equal to the product's and the lower-cased name contains the lower-cased term; input order and multiplicities are preserved |
| Storefront.FilteredMembership | src/App.js:95-99 | the filter's membership test, with `includes` spelled out as an occurrence at some position |
| Storefront.ShowAllWhenUnfiltered | src/App.js:96-97 | category 'all' with an empty search returns the whole catalogue |
| Storefront.Find | src/App.js:103 | finds nothing iff no entry has the id; otherwise it returns the first entry with that id |
| Storefront.AddToCartEffect | src/App.js:101-111 | on a well-formed cart, an existing product's single entry gains exactly one unit and every other entry is unchanged; a new product is appended at the end with quantity 1 |
| Storefront.AddToCart | src/App.js:101-111 | afterwards the product has an entry; the cart grows by at most one entry; existing entries keep their products and positions; a cart with one entry per product id, each of quantity at least 1, keeps that shape |
| Storefront.CartTotal | src/App.js:121 | with non-negative quantities the total is non-negative |
| Storefront.ItemCount | src/App.js:161 | with non-negative quantities the count is non-negative and at least each entry's quantity |
| Storefront.SumsSplit | src/App.js:121 | the cart total and the item count add up over any split of the cart |
| Storefront.Bump | src/App.js:105-107 | same length; every entry keeps its product and position; entries for other ids are unchanged; each entry for the id has one unit more |
| Storefront.BumpSums | src/App.js:105-107 | the map adds one unit to every entry for the id: the total rises by their unit prices and the count by their number |
| Storefront.UniqueEntry | src/App.js:103 | with unique ids, a product has no entry when `find` finds none, and otherwise exactly one, the entry `find` returns |
| Storefront.BumpAddsOneUnit | src/App.js:105-107 | on a cart with unique ids, the map adds the entry's unit price to the total and one to the count, or nothing when the id is absent |
| Storefront.AddToCartTotals | src/App.js:101-121 | on a well-formed cart, `addToCart` raises the badge count by 1; the total rises by the unit price of the existing entry, or by the product's price when it is new |
| Storefront.Badge | src/App.js:159-163 | no badge iff the cart is empty; otherwise the badge shows the sum of the quantities |
| Storefront.BadgeAtLeastEntries | src/App.js:159-163 | on a well-formed cart, the badge count is at least the number of entries |
| Storefront.ToggleFavorite | src/App.js:113-119 | the id's membership flips; removing the id from the old and the new list gives the same list, so all other ids and their order are unchanged; an absent id goes at the end |
| Storefront.ToggleTwiceRestores | src/App.js:115-117 | toggling an absent id twice restores the original list |
| Storefront.ToggleListedTwice | src/App.js:115-117 | toggling a listed id twice leaves it once, at the end, after the other ids in their original order |

## Left out

- Routing, middleware, CORS and server start-up (server.js:10-14, 560-566). These are I/O.
- The store connection and schemas as storage: `populate`, `distinct`, `countDocuments`, sample-data seeding, and timestamps. These are calls into the document-store library. The count of matches is the length of the `matched` sequence passed to `Listing.List`.
- Token signing and verification, and password hashing. Registration, login and the authentication gate are therefore left out too. The acting user id is a parameter of each route method.
- The regular-expression search of the listing and the suggestions endpoint. These follow the library's regex semantics. The ordering that the store applies for a `SortQuery` is also left out: only the choice of sort field and direction is modelled.
- Concurrent requests. Each route runs alone, so the oversell race between two overlapping orders is not modelled. Oversell within one order, through repeated lines, is modelled (`Stock.RepeatedLineOversells`).
- A failure of the store between saving an order and the stock updates.
- Profile reads and updates, order fetching, product fetching and creation, and the favourites and reviews reads. These are single store lookups.
- Floating-point prices and ratings, `toFixed` formatting and star rendering. Prices are integer cents and ratings are fractions.
- All rendering and UI toggles (`showCart`, `showMobileMenu`).
- Malformed request bodies are not modelled: a missing `items` array, or line items without a quantity or price. The routes answer these with status 500. Line items here always carry a quantity and a price. A line without a product id is modelled as an id with no product.
- Listing.List: page and limit are integers. Query strings that do not parse as integers are not modelled. Absent parameters are modelled by `Listing.ListQuery`.
- Listing.PageOf: a negative limit is modelled as returning at most its absolute value, as the store driver does.
- Storefront.Lower: only A-Z are lower-cased. Unicode case mapping is not modelled.
- Server.Shop.AddReview: only the schema checks on the rating range and the required comment are modelled. Type casting of a non-numeric rating is not modelled.
