/**
 * Order placement against the product catalogue: every line is checked on
 * its own against the stock as it was before the order; when all pass, each
 * line's quantity is subtracted from its product's stock, one line at a time.
 */
module Stock {
  import opened Results
  import opened Records

  type Catalog = map<ProductId, Product>

  /** The check the validation loop makes of one line: the product exists and `stock >= quantity`. */
  function InStock(catalog: Catalog, item: LineItem): (b: bool)
    ensures b ==> item.product in catalog
    ensures item.product in catalog && item.quantity <= 0 && catalog[item.product].stock >= 0 ==> b
  {
    item.product in catalog && catalog[item.product].stock >= item.quantity
  }

  /** The 400 response for a line that fails the check; it names the product, or says "product" when there is none. */
  function Rejection(catalog: Catalog, item: LineItem): (e: ApiError)
    ensures e.BadRequest?
  {
    BadRequest("Insufficient stock for " + if item.product in catalog then catalog[item.product].name else "product")
  }

  /** The outcome of the validation loop: the rejection for the first failing line, if any. */
  function Shortfall(catalog: Catalog, items: seq<LineItem>): (r: Option<ApiError>)
    ensures r == None <==> forall i :: 0 <= i < |items| ==> InStock(catalog, items[i])
    ensures r.Some? ==> exists i :: 0 <= i < |items| && !InStock(catalog, items[i]) && r.value == Rejection(catalog, items[i])
                                   && forall j :: 0 <= j < i ==> InStock(catalog, items[j])
    decreases |items|
  {
    if items == [] then None
    else if !InStock(catalog, items[0]) then Some(Rejection(catalog, items[0]))
    else
      var r := Shortfall(catalog, items[1..]);
      assert forall i :: 0 <= i < |items[1..]| ==> items[1..][i] == items[i + 1];
      r
  }

  /** The total quantity the lines request of product `id`. */
  function Ordered(items: seq<LineItem>, id: ProductId): int
    decreases |items|
  {
    if items == [] then 0
    else
      var last := items[|items| - 1];
      Ordered(items[..|items| - 1], id) + if last.product == id then last.quantity else 0
  }

  /** One `$inc: { stock: -quantity }` update; an update of a missing product changes nothing. */
  function Decrement(catalog: Catalog, item: LineItem): (r: Catalog)
    ensures r.Keys == catalog.Keys
  {
    if item.product in catalog then
      var p := catalog[item.product];
      catalog[item.product := p.(stock := p.stock - item.quantity)]
    else catalog
  }

  /** The catalogue after the update loop has applied the lines in order. */
  function StockAfter(catalog: Catalog, items: seq<LineItem>): (r: Catalog)
    ensures r.Keys == catalog.Keys
    decreases |items|
  {
    if items == [] then catalog
    else Decrement(StockAfter(catalog, items[..|items| - 1]), items[|items| - 1])
  }

  /** Each product's stock drops by exactly what the order requests of it; nothing else about any product changes. */
  lemma {:induction false} StockAfterSubtractsOrdered(catalog: Catalog, items: seq<LineItem>)
    ensures forall id :: id in catalog ==>
      StockAfter(catalog, items)[id] == catalog[id].(stock := catalog[id].stock - Ordered(items, id))
    decreases |items|
  {
    if items != [] {
      StockAfterSubtractsOrdered(catalog, items[..|items| - 1]);
    }
  }

  /** When no product appears on two lines, a product's ordered total is its one line's quantity, or 0. */
  lemma {:induction false} OrderedSingleLine(items: seq<LineItem>, id: ProductId)
    requires forall i, j :: 0 <= i < j < |items| ==> items[i].product != items[j].product
    ensures (forall i :: 0 <= i < |items| ==> items[i].product != id) ==> Ordered(items, id) == 0
    ensures forall k :: 0 <= k < |items| && items[k].product == id ==> Ordered(items, id) == items[k].quantity
    decreases |items|
  {
    if items != [] {
      var init := items[..|items| - 1];
      OrderedSingleLine(init, id);
      if items[|items| - 1].product == id {
        assert forall i :: 0 <= i < |init| ==> init[i].product != id;
      }
    }
  }

  /** Validation prevents negative stock only when no product is listed twice. */
  lemma NoOversellWithDistinctLines(catalog: Catalog, items: seq<LineItem>)
    requires Shortfall(catalog, items) == None
    requires forall i, j :: 0 <= i < j < |items| ==> items[i].product != items[j].product
    requires forall id :: id in catalog ==> catalog[id].stock >= 0
    ensures forall id :: id in catalog ==> StockAfter(catalog, items)[id].stock >= 0
  {
    StockAfterSubtractsOrdered(catalog, items);
    forall id | id in catalog ensures StockAfter(catalog, items)[id].stock >= 0 {
      OrderedSingleLine(items, id);
      if k :| 0 <= k < |items| && items[k].product == id {
        assert InStock(catalog, items[k]);
      }
    }
  }

  /** A catalogue entry used by the concrete scenarios below. */
  function Sample(stock: int): Product {
    Product("Velvet Matte Lipstick", "makeup", 2499, 2999, Ratio(47, 10), 567, "lipstick.jpg",
            "Long-lasting matte lipstick", "Limited Edition", stock)
  }

  /** Stock 5 and two lines of 3 for the same product: both lines pass, and the stock ends at -1. */
  lemma RepeatedLineOversells()
    ensures var catalog := map[1 := Sample(5)];
            var items := [LineItem(1, 3, 2499), LineItem(1, 3, 2499)];
            Shortfall(catalog, items) == None && StockAfter(catalog, items)[1].stock == -1
  {
    var catalog := map[1 := Sample(5)];
    var items := [LineItem(1, 3, 2499), LineItem(1, 3, 2499)];
    StockAfterSubtractsOrdered(catalog, items);
    assert items[..1][..0] == [];
    assert Ordered(items, 1) == 6;
  }

  /** Stock 3: an order of 3 passes and leaves 0, after which an order of 1 is rejected by name. */
  lemma SellOutThenReject()
    ensures var catalog := map[1 := Sample(3)];
            var after := StockAfter(catalog, [LineItem(1, 3, 2499)]);
            Shortfall(catalog, [LineItem(1, 3, 2499)]) == None && after[1].stock == 0
            && Shortfall(after, [LineItem(1, 1, 2499)]) == Some(BadRequest("Insufficient stock for " + "Velvet Matte Lipstick"))
  {
    var catalog := map[1 := Sample(3)];
    var items := [LineItem(1, 3, 2499)];
    assert items[..0] == [];
    var after := StockAfter(catalog, items);
    assert after == map[1 := Sample(0)];
    assert !InStock(after, LineItem(1, 1, 2499));
  }

  /** Quantities are not checked for sign: a negative line passes and raises the stock. */
  lemma NegativeQuantityRaisesStock(catalog: Catalog, id: ProductId, quantity: int, price: int)
    requires id in catalog && catalog[id].stock >= 0 && quantity < 0
    ensures Shortfall(catalog, [LineItem(id, quantity, price)]) == None
    ensures StockAfter(catalog, [LineItem(id, quantity, price)])[id].stock > catalog[id].stock
  {
    var items := [LineItem(id, quantity, price)];
    assert items[..0] == [];
  }
}
