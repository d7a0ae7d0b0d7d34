/**
 * The storefront page's client state: the product grid filter, the cart
 * (merge by product id), the favourites toggle, and the cart total and badge
 * count. Prices are integer cents.
 */
module Storefront {
  import opened Results
  import opened Lists

  datatype Product = Product(
    id: int,
    name: string,
    category: string,
    price: nat,
    originalPrice: nat,
    description: string,
    tag: string)

  /** `{ ...product, quantity }`: a product as it was when first added, with a quantity. */
  datatype CartItem = CartItem(product: Product, quantity: int)

  // ---------------------------------------------------------------------
  // filteredProducts

  /** `toLowerCase` on one character; letters outside A-Z are left alone. */
  function LowerChar(c: char): (d: char)
    ensures 'A' <= c <= 'Z' ==> 'a' <= d <= 'z' && d as int - c as int == 32
    ensures !('A' <= c <= 'Z') ==> d == c
  {
    if 'A' <= c <= 'Z' then (c as int + 32) as char else c
  }

  /** `c` and `d` are the same letter up to ASCII case, or the same character. */
  predicate CaseVariant(c: char, d: char) {
    c == d
    || ('A' <= c <= 'Z' && d as int == c as int + 32)
    || ('A' <= d <= 'Z' && c as int == d as int + 32)
  }

  /** Two characters lower-case alike exactly when they differ at most in ASCII case. */
  lemma LowerCharAlike(c: char, d: char)
    ensures LowerChar(c) == LowerChar(d) <==> CaseVariant(c, d)
  {
  }

  /** `toLowerCase` on a string: no upper-case letter is left, and each character keeps its letter. */
  function Lower(s: string): (r: string)
    ensures |r| == |s|
    ensures forall i :: 0 <= i < |r| ==> !('A' <= r[i] <= 'Z')
    ensures forall i :: 0 <= i < |s| ==> CaseVariant(s[i], r[i])
  {
    seq(|s|, i requires 0 <= i < |s| => LowerChar(s[i]))
  }

  /** Lower-casing twice is lower-casing once. */
  lemma LowerIdempotent(s: string)
    ensures Lower(Lower(s)) == Lower(s)
  {
  }

  /** Two strings equal up to ASCII case. */
  predicate SameUpToCase(a: string, b: string) {
    |a| == |b| && forall i :: 0 <= i < |a| ==> CaseVariant(a[i], b[i])
  }

  /** Lower-casing identifies exactly the strings that are equal up to case. */
  lemma {:induction false} LowerAlike(a: string, b: string)
    ensures Lower(a) == Lower(b) <==> SameUpToCase(a, b)
  {
    if Lower(a) == Lower(b) {
      forall i | 0 <= i < |a| ensures CaseVariant(a[i], b[i]) {
        assert Lower(a)[i] == Lower(b)[i];
        LowerCharAlike(a[i], b[i]);
      }
    }
    if SameUpToCase(a, b) {
      forall i | 0 <= i < |a| ensures Lower(a)[i] == Lower(b)[i] {
        LowerCharAlike(a[i], b[i]);
      }
    }
  }

  /** `text.includes(term)`, by trying every start position from the left. */
  function Contains(text: string, term: string): (r: bool)
    ensures r ==> |term| <= |text|
    ensures term <= text ==> r
    ensures |term| == |text| ==> (r <==> text == term)
    decreases |text|
  {
    if |term| > |text| then false
    else if text[..|term|] == term then true
    else Contains(text[1..], term)
  }

  /** `term` occurs in `text` starting at position `i`. */
  predicate OccursAt(text: string, term: string, i: int) {
    0 <= i && i + |term| <= |text| && text[i..i + |term|] == term
  }

  /** `includes` holds exactly when the term occurs at some position of the text. */
  lemma {:induction false} ContainsIsSubstring(text: string, term: string)
    ensures Contains(text, term) <==> exists i :: OccursAt(text, term, i)
    decreases |text|
  {
    if |term| > |text| {
    } else if text[..|term|] == term {
      assert OccursAt(text, term, 0);
    } else {
      var rest := text[1..];
      ContainsIsSubstring(rest, term);
      if Contains(rest, term) {
        var i :| OccursAt(rest, term, i);
        assert text[i + 1..i + 1 + |term|] == rest[i..i + |term|];
        assert OccursAt(text, term, i + 1);
      }
      if i :| OccursAt(text, term, i) {
        assert i != 0;
        assert rest[i - 1..i - 1 + |term|] == text[i..i + |term|];
        assert OccursAt(rest, term, i - 1);
      }
    }
  }

  /** The filter's test: the category is 'all' or the product's, and the lower-cased name includes the lower-cased term. */
  function Shown(p: Product, selectedCategory: string, searchTerm: string): (r: bool)
    ensures r ==> selectedCategory == "all" || p.category == selectedCategory
    ensures r ==> |searchTerm| <= |p.name|
    ensures selectedCategory == "all" && searchTerm == "" ==> r
    ensures (selectedCategory == "all" || p.category == selectedCategory) && SameUpToCase(searchTerm, p.name) ==> r
  {
    LowerAlike(searchTerm, p.name);
    (selectedCategory == "all" || p.category == selectedCategory)
    && Contains(Lower(p.name), Lower(searchTerm))
  }

  /** The products the grid shows, in catalogue order. */
  function FilteredProducts(products: seq<Product>, selectedCategory: string, searchTerm: string): (r: seq<Product>)
    ensures forall p :: p in r <==> p in products && Shown(p, selectedCategory, searchTerm)
    ensures forall p :: multiset(r)[p] == if Shown(p, selectedCategory, searchTerm) then multiset(products)[p] else 0
    ensures IsSubsequence(r, products)
  {
    Filter(products, p => Shown(p, selectedCategory, searchTerm))
  }

  /** A product is shown exactly when its category fits and the lower-cased term occurs in its lower-cased name. */
  lemma FilteredMembership(products: seq<Product>, selectedCategory: string, searchTerm: string, p: Product)
    ensures var name, term := Lower(p.name), Lower(searchTerm);
            p in FilteredProducts(products, selectedCategory, searchTerm)
            <==> p in products && (selectedCategory == "all" || p.category == selectedCategory)
                 && exists i :: OccursAt(name, term, i)
  {
    ContainsIsSubstring(Lower(p.name), Lower(searchTerm));
  }

  /** The search ignores case: terms equal up to ASCII case select the same products. */
  lemma SearchIgnoresCase(products: seq<Product>, selectedCategory: string, a: string, b: string)
    requires SameUpToCase(a, b)
    ensures FilteredProducts(products, selectedCategory, a) == FilteredProducts(products, selectedCategory, b)
  {
    LowerAlike(a, b);
    FilterSameTest(products, p => Shown(p, selectedCategory, a), p => Shown(p, selectedCategory, b));
  }

  /** With category 'all' and an empty search the grid shows the whole catalogue. */
  lemma ShowAllWhenUnfiltered(products: seq<Product>)
    ensures FilteredProducts(products, "all", "") == products
  {
    forall p | p in products ensures Shown(p, "all", "") {
      assert Lower(p.name)[..0] == [];
    }
  }

  // ---------------------------------------------------------------------
  // addToCart

  /** `prev.find(item => item.id === id)`: the first cart entry for the product. */
  function Find(cart: seq<CartItem>, id: int): (r: Option<CartItem>)
    ensures r.None? <==> forall i :: 0 <= i < |cart| ==> cart[i].product.id != id
    ensures r.Some? ==> r.value.product.id == id && exists k :: FirstEntry(cart, id, k) && cart[k] == r.value
    decreases |cart|
  {
    if cart == [] then None
    else if cart[0].product.id == id then
      assert FirstEntry(cart, id, 0);
      Some(cart[0])
    else
      var r := Find(cart[1..], id);
      assert forall i :: 0 <= i < |cart| - 1 ==> cart[1..][i] == cart[i + 1];
      assert r.Some? ==> exists k :: FirstEntry(cart, id, k) && cart[k] == r.value by {
        if r.Some? {
          var k :| FirstEntry(cart[1..], id, k) && cart[1..][k] == r.value;
          assert FirstEntry(cart, id, k + 1);
        }
      }
      r
  }

  /** Entry `k` is the first entry of the cart for product `id`. */
  predicate FirstEntry(cart: seq<CartItem>, id: int, k: int) {
    0 <= k < |cart| && cart[k].product.id == id && forall i :: 0 <= i < k ==> cart[i].product.id != id
  }

  /**
   * The `map` that adds one to the quantity of every entry for the product:
   * every entry keeps its product and position.
   */
  function Bump(cart: seq<CartItem>, id: int): (r: seq<CartItem>)
    ensures |r| == |cart|
    ensures forall i :: 0 <= i < |cart| ==> r[i].product == cart[i].product
    ensures forall i :: 0 <= i < |cart| && cart[i].product.id != id ==> r[i] == cart[i]
    ensures forall i :: 0 <= i < |cart| && cart[i].product.id == id ==> r[i].quantity == cart[i].quantity + 1
  {
    seq(|cart|, i requires 0 <= i < |cart| =>
      if cart[i].product.id == id then cart[i].(quantity := cart[i].quantity + 1) else cart[i])
  }

  /**
   * `addToCart`: a product already in the cart gains one unit; a new one is
   * appended with quantity 1. Afterwards the product is in the cart, existing
   * entries keep their products and positions, and a well-formed cart stays
   * well formed.
   */
  function AddToCart(cart: seq<CartItem>, product: Product): (r: seq<CartItem>)
    ensures Find(r, product.id).Some?
    ensures |cart| <= |r| <= |cart| + 1
    ensures forall i :: 0 <= i < |cart| ==> r[i].product == cart[i].product
    ensures WellFormed(cart) ==> WellFormed(r)
  {
    match Find(cart, product.id)
    case Some(e) =>
      var k :| FirstEntry(cart, product.id, k) && cart[k] == e;
      var r := Bump(cart, product.id);
      assert r[k].product.id == product.id;
      r
    case None =>
      var r := cart + [CartItem(product, 1)];
      assert r[|cart|].product.id == product.id;
      r
  }

  /** The cart's shape that `addToCart` keeps: one entry per product id, every quantity at least 1. */
  predicate WellFormed(cart: seq<CartItem>) {
    && (forall i, j :: 0 <= i < j < |cart| ==> cart[i].product.id != cart[j].product.id)
    && (forall i :: 0 <= i < |cart| ==> cart[i].quantity >= 1)
  }

  /**
   * On a product already in the cart, only that entry changes, and only by one
   * unit; on a new product, the cart grows by one entry of quantity 1 at the end.
   */
  lemma AddToCartEffect(cart: seq<CartItem>, product: Product)
    requires WellFormed(cart)
    ensures var r := AddToCart(cart, product);
            Find(cart, product.id).Some? ==>
              |r| == |cart| && exists k :: (0 <= k < |cart| && cart[k].product.id == product.id
                && r[k] == cart[k].(quantity := cart[k].quantity + 1)
                && forall i :: 0 <= i < |cart| && i != k ==> r[i] == cart[i])
    ensures var r := AddToCart(cart, product);
            Find(cart, product.id).None? ==>
              |r| == |cart| + 1 && r[..|cart|] == cart && r[|cart|] == CartItem(product, 1)
  {
    if Find(cart, product.id).Some? {
      var k :| 0 <= k < |cart| && cart[k].product.id == product.id;
    }
  }

  // ---------------------------------------------------------------------
  // cartTotal and the cart badge

  /** No cart entry has a negative quantity. */
  predicate NoNegativeQuantity(cart: seq<CartItem>) {
    forall i :: 0 <= i < |cart| ==> cart[i].quantity >= 0
  }

  /** `cartItems.reduce((sum, item) => sum + item.price * item.quantity, 0)`, in cents. */
  function CartTotal(cart: seq<CartItem>): (r: int)
    ensures NoNegativeQuantity(cart) ==> r >= 0
    decreases |cart|
  {
    if cart == [] then 0
    else CartTotal(cart[..|cart| - 1]) + cart[|cart| - 1].product.price * cart[|cart| - 1].quantity
  }

  /** `cartItems.reduce((sum, item) => sum + item.quantity, 0)`. */
  function ItemCount(cart: seq<CartItem>): (r: int)
    ensures NoNegativeQuantity(cart) ==> r >= 0
    ensures NoNegativeQuantity(cart) ==> forall i :: 0 <= i < |cart| ==> cart[i].quantity <= r
    decreases |cart|
  {
    if cart == [] then 0 else ItemCount(cart[..|cart| - 1]) + cart[|cart| - 1].quantity
  }

  /** The number on the cart button, shown only while the cart has entries. */
  function Badge(cart: seq<CartItem>): (r: Option<int>)
    ensures r.None? <==> cart == []
    ensures r.Some? ==> r.value == ItemCount(cart)
  {
    if |cart| > 0 then Some(ItemCount(cart)) else None
  }

  /** In a well-formed cart the badge counts at least one unit per entry. */
  lemma {:induction false} BadgeAtLeastEntries(cart: seq<CartItem>)
    requires WellFormed(cart)
    ensures ItemCount(cart) >= |cart|
    decreases |cart|
  {
    if cart != [] {
      BadgeAtLeastEntries(cart[..|cart| - 1]);
    }
  }

  /** Both sums add up over a concatenation, so splitting the cart anywhere splits the total and the count. */
  lemma {:induction false} SumsSplit(a: seq<CartItem>, b: seq<CartItem>)
    ensures CartTotal(a + b) == CartTotal(a) + CartTotal(b)
    ensures ItemCount(a + b) == ItemCount(a) + ItemCount(b)
    decreases |b|
  {
    if b == [] {
      assert a + b == a;
    } else {
      var init := b[..|b| - 1];
      assert (a + b)[..|a + b| - 1] == a + init;
      SumsSplit(a, init);
    }
  }

  /** A cart has at most one first entry for an id. */
  lemma FirstEntryUnique(cart: seq<CartItem>, id: int, a: int, b: int)
    requires FirstEntry(cart, id, a) && FirstEntry(cart, id, b)
    ensures a == b
  {
  }

  /** With unique ids, the last entry is found iff it has the id; otherwise the search finds what it finds before it. */
  lemma FindBeforeLast(cart: seq<CartItem>, id: int)
    requires |cart| > 0
    requires forall i, j :: 0 <= i < j < |cart| ==> cart[i].product.id != cart[j].product.id
    ensures var init, last := cart[..|cart| - 1], cart[|cart| - 1];
            if last.product.id == id then Find(init, id).None? && Find(cart, id) == Some(last)
            else Find(cart, id) == Find(init, id)
  {
    var init, last := cart[..|cart| - 1], cart[|cart| - 1];
    if Find(cart, id).Some? {
      var k :| FirstEntry(cart, id, k) && cart[k] == Find(cart, id).value;
      if last.product.id != id {
        assert FirstEntry(init, id, k);
        var k' :| FirstEntry(init, id, k') && init[k'] == Find(init, id).value;
        FirstEntryUnique(init, id, k, k');
      }
    }
  }

  /** The number of cart entries for a product id. */
  function EntriesFor(cart: seq<CartItem>, id: int): nat
    decreases |cart|
  {
    if cart == [] then 0
    else EntriesFor(cart[..|cart| - 1], id) + if cart[|cart| - 1].product.id == id then 1 else 0
  }

  /** The unit prices of the cart entries for a product id, added up. */
  function PricesFor(cart: seq<CartItem>, id: int): int
    decreases |cart|
  {
    if cart == [] then 0
    else PricesFor(cart[..|cart| - 1], id) + if cart[|cart| - 1].product.id == id then cart[|cart| - 1].product.price else 0
  }

  /** The map adds one unit per entry for the id: their prices to the total and their number to the count. */
  lemma {:induction false} BumpSums(cart: seq<CartItem>, id: int)
    ensures CartTotal(Bump(cart, id)) == CartTotal(cart) + PricesFor(cart, id)
    ensures ItemCount(Bump(cart, id)) == ItemCount(cart) + EntriesFor(cart, id)
    decreases |cart|
  {
    if cart != [] {
      var init, last := cart[..|cart| - 1], cart[|cart| - 1];
      var b := Bump(cart, id);
      BumpPrefix(cart, id);
      BumpLast(cart, id);
      BumpSums(init, id);
      assert CartTotal(b) == CartTotal(Bump(init, id)) + b[|b| - 1].product.price * b[|b| - 1].quantity;
      assert ItemCount(b) == ItemCount(Bump(init, id)) + b[|b| - 1].quantity;
    }
  }

  /** The last entry of a bumped cart adds one unit more than before exactly when it has the id. */
  lemma BumpLast(cart: seq<CartItem>, id: int)
    requires cart != []
    ensures var b, last := Bump(cart, id)[|cart| - 1], cart[|cart| - 1];
            && b.quantity == last.quantity + (if last.product.id == id then 1 else 0)
            && b.product.price * b.quantity
               == last.product.price * last.quantity + (if last.product.id == id then last.product.price else 0)
  {
    var last := cart[|cart| - 1];
    if last.product.id == id {
      assert last.product.price * (last.quantity + 1) == last.product.price * last.quantity + last.product.price;
    }
  }

  /** Bumping a cart and dropping its last entry is bumping the cart without it. */
  lemma BumpPrefix(cart: seq<CartItem>, id: int)
    requires cart != []
    ensures Bump(cart, id)[..|cart| - 1] == Bump(cart[..|cart| - 1], id)
  {
  }

  /** With unique ids a product has one entry, the one `find` returns, or none. */
  lemma {:induction false} UniqueEntry(cart: seq<CartItem>, id: int)
    requires forall i, j :: 0 <= i < j < |cart| ==> cart[i].product.id != cart[j].product.id
    ensures Find(cart, id).None? ==> EntriesFor(cart, id) == 0 && PricesFor(cart, id) == 0
    ensures Find(cart, id).Some? ==> EntriesFor(cart, id) == 1 && PricesFor(cart, id) == Find(cart, id).value.product.price
    decreases |cart|
  {
    if cart != [] {
      UniqueEntry(cart[..|cart| - 1], id);
      FindBeforeLast(cart, id);
    }
  }

  /** Bumping a product with exactly one entry adds that entry's price to the total and one to the count. */
  lemma BumpAddsOneUnit(cart: seq<CartItem>, id: int)
    requires forall i, j :: 0 <= i < j < |cart| ==> cart[i].product.id != cart[j].product.id
    ensures Find(cart, id).None? ==> CartTotal(Bump(cart, id)) == CartTotal(cart) && ItemCount(Bump(cart, id)) == ItemCount(cart)
    ensures Find(cart, id).Some? ==>
      CartTotal(Bump(cart, id)) == CartTotal(cart) + Find(cart, id).value.product.price
      && ItemCount(Bump(cart, id)) == ItemCount(cart) + 1
  {
    BumpSums(cart, id);
    UniqueEntry(cart, id);
  }

  /**
   * Adding a product to a well-formed cart raises the item count by one and
   * the total by one unit price: that of the entry already in the cart, or
   * the product's own when it is new.
   */
  lemma AddToCartTotals(cart: seq<CartItem>, product: Product)
    requires WellFormed(cart)
    ensures var r := AddToCart(cart, product);
            ItemCount(r) == ItemCount(cart) + 1
            && CartTotal(r) == CartTotal(cart) + match Find(cart, product.id)
                                                 case Some(e) => e.product.price
                                                 case None => product.price
  {
    var r := AddToCart(cart, product);
    if Find(cart, product.id).Some? {
      BumpAddsOneUnit(cart, product.id);
    } else {
      assert r[..|r| - 1] == cart;
    }
  }

  // ---------------------------------------------------------------------
  // toggleFavorite

  /** `toggleFavorite`: a listed id is filtered out, an unlisted one is appended. */
  function ToggleFavorite(favorites: seq<int>, id: int): (r: seq<int>)
    ensures id in r <==> id !in favorites
    ensures Without(r, id) == Without(favorites, id)
    ensures id !in favorites ==> r == favorites + [id]
  {
    if id in favorites then Without(favorites, id)
    else
      WithoutAppend(favorites, [id], id);
      favorites + [id]
  }

  /** Toggling an unlisted id twice gives back the original list. */
  lemma ToggleTwiceRestores(favorites: seq<int>, id: int)
    requires id !in favorites
    ensures ToggleFavorite(ToggleFavorite(favorites, id), id) == favorites
  {
    WithoutAppend(favorites, [id], id);
  }

  /** Toggling a listed id twice leaves it listed exactly once, at the end, after the other ids in their order. */
  lemma ToggleListedTwice(favorites: seq<int>, id: int)
    requires id in favorites
    ensures ToggleFavorite(ToggleFavorite(favorites, id), id) == Without(favorites, id) + [id]
  {
  }
}
