/**
 * The arithmetic of the product listing: the category query, the mapping
 * from the `sort` parameter to a sort order, the number of products skipped
 * for a page, the page slice, and the page count `ceil(total / limit)`.
 * Matching and ordering themselves are done by the store; here `matched`
 * stands for the products it returns in sort order.
 */
module Listing {
  import opened Results
  import opened Records

  /** The category condition added to the query; "" stands for an absent parameter. */
  function CategoryQuery(category: string): (q: Option<string>)
    ensures q == None <==> category == "" || category == "all"
    ensures q.Some? ==> q.value == category
  {
    if category != "" && category != "all" then Some(category) else None
  }

  datatype Field = Price | Rating | CreatedAt
  datatype Direction = Ascending | Descending

  /** The sort object given to the store: empty, or one field and a direction. */
  datatype SortQuery = Unsorted | By(field: Field, direction: Direction)

  /** The `sort` switch; "" stands for an absent parameter, which adds no sort at all. */
  function SortFor(sort: string): (q: SortQuery)
    ensures q == Unsorted <==> sort == ""
    ensures q.By? && q.direction == Ascending <==> sort == "price-low"
    ensures q.By? && q.field == Price <==> sort == "price-low" || sort == "price-high"
    ensures q.By? && q.field == Rating <==> sort == "rating"
    ensures q.By? ==> q.field == Price || q.direction == Descending
    ensures q == By(CreatedAt, Descending) <==> sort != "" && sort != "price-low" && sort != "price-high" && sort != "rating"
  {
    if sort == "" then Unsorted
    else if sort == "price-low" then By(Price, Ascending)
    else if sort == "price-high" then By(Price, Descending)
    else if sort == "rating" then By(Rating, Descending)
    else By(CreatedAt, Descending)
  }

  /** `(page - 1) * limit`: none skipped on page 1, each page skips `limit` more than the one before. */
  function Skip(page: int, limit: int): (r: int)
    ensures page == 1 ==> r == 0
    ensures limit == 0 ==> r == 0
    ensures limit > 0 ==> (r < 0 <==> page < 1)
    ensures page >= 1 && limit >= 0 ==> r >= 0
  {
    (page - 1) * limit
  }

  function Abs(n: int): nat {
    if n < 0 then -n else n
  }

  /**
   * `Math.ceil(total / limit)` as the JSON response carries it: with limit 0
   * the quotient is Infinity or NaN, which JSON writes as null (None).
   */
  function TotalPages(total: nat, limit: int): (r: Option<int>)
    ensures r == None <==> limit == 0
    ensures limit > 0 ==> r.Some? && r.value >= 0 && (r.value - 1) * limit < total <= r.value * limit
    ensures limit < 0 ==> r.Some? && r.value <= 0 && r.value * limit <= total < (r.value - 1) * limit
  {
    if limit == 0 then None
    else if limit > 0 then
      CeilingBounds(total, limit);
      Some((total + limit - 1) / limit)
    else
      FloorBounds(total, -limit);
      Some(-(total / -limit))
  }

  /** `(total + d - 1) / d` is the least `n` with `total <= n * d`. */
  lemma CeilingBounds(total: nat, d: int)
    requires d > 0
    ensures var n := (total + d - 1) / d; n >= 0 && (n - 1) * d < total <= n * d
  {
    var n := (total + d - 1) / d;
    DivMod(total + d - 1, d);
    assert (n - 1) * d == n * d - d;
  }

  /** `-(total / d)` is the least `n` with `n * -d <= total`, the ceiling of `total / -d`. */
  lemma FloorBounds(total: nat, d: int)
    requires d > 0
    ensures var n := -(total / d); n <= 0 && n * -d <= total < (n - 1) * -d
  {
    var m := total / d;
    DivMod(total, d);
    assert -m * -d == m * d;
    assert (-m - 1) * -d == m * d + d;
  }

  /**
   * `.skip(skip).limit(parseInt(limit))` over the matched products: a limit
   * of 0 means no limit, a negative limit returns at most its absolute value.
   */
  function PageOf<T>(matched: seq<T>, page: int, limit: int): (r: seq<T>)
    requires Skip(page, limit) >= 0
    ensures limit != 0 ==> |r| <= Abs(limit)
    ensures forall k :: 0 <= k < |r| ==> Skip(page, limit) + k < |matched| && r[k] == matched[Skip(page, limit) + k]
    ensures limit == 0 || |r| < Abs(limit) ==> Skip(page, limit) + |r| >= |matched|
  {
    var skip := Skip(page, limit);
    var rest := if skip < |matched| then matched[skip..] else [];
    if limit == 0 || Abs(limit) >= |rest| then rest else rest[..Abs(limit)]
  }

  datatype Page<T> = Page(products: seq<T>, totalPages: Option<int>, currentPage: int, total: nat)

  /** The listing response; a negative skip is refused by the store and answered with status 500. */
  function List<T>(matched: seq<T>, page: int, limit: int): (r: Result<Page<T>, ApiError>)
    ensures r.Err? <==> Skip(page, limit) < 0
    ensures r.Err? ==> r.error == ServerError("Error fetching products")
    ensures r.Ok? ==> r.value.total == |matched| && r.value.currentPage == page
                      && r.value.totalPages == TotalPages(|matched|, limit)
                      && r.value.products == PageOf(matched, page, limit)
  {
    if Skip(page, limit) < 0 then Err(ServerError("Error fetching products"))
    else Ok(Page(PageOf(matched, page, limit), TotalPages(|matched|, limit), page, |matched|))
  }

  /** The values `page` and `limit` take when the query leaves them out. */
  const DefaultPage := 1
  const DefaultLimit := 10

  /**
   * The listing response for a query whose `page` and `limit` may be absent
   * (None): an absent page is page 1, so nothing is skipped and the response
   * cannot fail; an absent limit shows at most ten products a page.
   */
  function ListQuery<T>(matched: seq<T>, page: Option<int>, limit: Option<int>): (r: Result<Page<T>, ApiError>)
    ensures page.None? ==> r.Ok? && r.value.currentPage == 1 && r.value.products <= matched
    ensures limit.None? && r.Ok? ==> |r.value.products| <= 10 && r.value.totalPages == Some((|matched| + 9) / 10)
    ensures page.Some? && limit.Some? ==> r == List(matched, page.value, limit.value)
    ensures page.None? && limit.Some? ==> r == List(matched, DefaultPage, limit.value)
    ensures page.Some? && limit.None? ==> r == List(matched, page.value, DefaultLimit)
    ensures page.None? && limit.None? ==> r == List(matched, DefaultPage, DefaultLimit)
  {
    var p := if page.Some? then page.value else DefaultPage;
    var l := if limit.Some? then limit.value else DefaultLimit;
    var r := List(matched, p, l);
    assert page.None? ==> r.Ok? && r.value.products <= matched by {
      if page.None? {
        assert Skip(p, l) == 0;
        var ps := PageOf(matched, p, l);
        assert ps == matched[..|ps|];
      }
    }
    r
  }

  /** With neither parameter, the response is the first ten matches (or all of them, if fewer) with the page count `ceil(total / 10)`. */
  lemma DefaultListing<T>(matched: seq<T>)
    ensures var n := if |matched| < 10 then |matched| else 10;
            ListQuery(matched, None, None) == Ok(Page(matched[..n], Some((|matched| + 9) / 10), 1, |matched|))
  {
    PageIsSlice(matched, 1, 10);
  }

  /** With a positive limit, page `page` (from 1) holds the matches from index `(page - 1) * limit` on, at most `limit` of them. */
  lemma PageIsSlice<T>(matched: seq<T>, page: int, limit: int)
    requires limit > 0 && page >= 1
    ensures Skip(page, limit) >= 0
    ensures var skip := Skip(page, limit);
            var lo := if skip < |matched| then skip else |matched|;
            var hi := if skip + limit < |matched| then skip + limit else |matched|;
            List(matched, page, limit) == Ok(Page(matched[lo..hi], TotalPages(|matched|, limit), page, |matched|))
  {
    MulMonotone(0, page - 1, limit);
    var skip := Skip(page, limit);
    var lo := if skip < |matched| then skip else |matched|;
    var hi := if skip + limit < |matched| then skip + limit else |matched|;
    SliceOfMatches(matched, page, limit, lo, hi);
  }

  /** The page, read through `PageOf`'s contract alone, is the slice from `lo` to `hi`. */
  lemma SliceOfMatches<T>(matched: seq<T>, page: int, limit: int, lo: int, hi: int)
    requires limit > 0 && Skip(page, limit) >= 0
    requires lo == (if Skip(page, limit) < |matched| then Skip(page, limit) else |matched|)
    requires hi == (if Skip(page, limit) + limit < |matched| then Skip(page, limit) + limit else |matched|)
    ensures 0 <= lo <= hi <= |matched| && PageOf(matched, page, limit) == matched[lo..hi]
  {
    var r := PageOf(matched, page, limit);
    assert |r| == hi - lo;
  }

  /** Euclidean division by a positive divisor: quotient and remainder. */
  lemma DivMod(a: nat, b: int)
    requires b > 0
    ensures a == (a / b) * b + a % b && 0 <= a % b < b
  {
  }

  /** Multiplying by a non-negative factor keeps an inequality. */
  lemma MulMonotone(a: int, b: int, c: int)
    requires a <= b && c >= 0
    ensures a * c <= b * c
  {
    assert b * c - a * c == (b - a) * c;
  }

  /** The entry `m` places into a page is the match `m` places after the skip. */
  lemma EntryOfPage<T>(matched: seq<T>, page: int, limit: int, m: nat)
    requires limit > 0 && Skip(page, limit) >= 0 && m < limit && Skip(page, limit) + m < |matched|
    ensures m < |PageOf(matched, page, limit)| && PageOf(matched, page, limit)[m] == matched[Skip(page, limit) + m]
  {
  }

  /** An index below a total of at most `n * limit` has a quotient below `n`. */
  lemma QuotientBelowCount(k: nat, limit: int, total: nat, n: int)
    requires limit > 0 && k < total <= n * limit
    ensures k / limit < n
  {
    DivMod(k, limit);
    if k / limit >= n {
      MulMonotone(n, k / limit, limit);
    }
  }

  /** Every match appears on the page its index gives, and that page is within the page count. */
  lemma {:induction false} EveryItemOnItsPage<T>(matched: seq<T>, limit: int, k: nat)
    requires limit > 0 && k < |matched|
    ensures var page := k / limit + 1;
            var r := List(matched, page, limit);
            r.Ok? && r.value.totalPages.Some? && 1 <= page <= r.value.totalPages.value
            && k % limit < |r.value.products| && r.value.products[k % limit] == matched[k]
  {
    var q, m := k / limit, k % limit;
    DivMod(k, limit);
    var n := TotalPages(|matched|, limit).value;
    QuotientBelowCount(k, limit, |matched|, n);
    var page := q + 1;
    assert Skip(page, limit) == q * limit;
    EntryOfPage(matched, page, limit, m);
  }

  /** A page from 1 to the page count is non-empty; a page after it is empty. */
  lemma {:induction false} PagesUpToCountAreFilled<T>(matched: seq<T>, page: int, limit: int)
    requires limit > 0 && page >= 1
    ensures var r := List(matched, page, limit);
            r.Ok? && r.value.totalPages.Some? && (r.value.products != [] <==> page <= r.value.totalPages.value)
  {
    var n := TotalPages(|matched|, limit).value;
    var skip := Skip(page, limit);
    MulMonotone(0, page - 1, limit);
    if page <= n {
      MulMonotone(page - 1, n - 1, limit);
      assert skip < |matched|;
      var r := PageOf(matched, page, limit);
      assert |r| > 0;
    } else {
      MulMonotone(n, page - 1, limit);
      assert skip >= |matched|;
    }
  }

  /** Five matches, two per page: page 2 holds the third and fourth, out of 3 pages. */
  lemma SecondPageOfFive<T>(matched: seq<T>)
    requires |matched| == 5
    ensures List(matched, 2, 2) == Ok(Page(matched[2..4], Some(3), 2, 5))
  {
    PageIsSlice(matched, 2, 2);
  }
}
