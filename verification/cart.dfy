/** The cart, where the stored quantity and the discount meet. */
module Cart {
  import opened Common
  import opened Pricing

  type StoreId = string
  type ProductId = string

  datatype Item = Item(productId: ProductId, quantity: nat, unitPrice: real)

  datatype Product = Product(storeId: StoreId, isActive: bool, price: real)

  /** What the catalogue says when an item is added. */
  datatype Catalogue = Catalogue(
    storeActive: Option<bool>, product: Option<Product>, available: Option<int>, offers: seq<Offer>)

  datatype CartError =
    | StoreNotFound
    | StoreInactive
    | ProductNotFound
    | OtherStoresProduct
    | ProductInactive
    | OneStoreAtATime
    | InventoryMissing
    | InsufficientStock(available: int)
    | EmptyCart
    | NothingSelected

  // ---- items --------------------------------------------------------------------------

  /** At most one line for a product. */
  ghost predicate OneLineEach(items: seq<Item>) {
    forall j, k :: 0 <= j < k < |items| ==> items[j].productId != items[k].productId
  }

  /** The position of a product's line, or the length of the list. */
  function FindIndex(items: seq<Item>, productId: ProductId): (k: nat)
    ensures k <= |items|
    ensures forall j :: 0 <= j < k ==> items[j].productId != productId
    ensures k < |items| ==> items[k].productId == productId
  {
    if items == [] || items[0].productId == productId then 0 else 1 + FindIndex(items[1..], productId)
  }

  /** What the cart holds of a product; None when it has no line. */
  function QuantityIn(items: seq<Item>, productId: ProductId): Option<nat> {
    var k := FindIndex(items, productId);
    if k < |items| then Some(items[k].quantity) else None
  }

  lemma {:induction false} FoundAt(items: seq<Item>, productId: ProductId, k: nat)
    requires OneLineEach(items) && k < |items| && items[k].productId == productId
    ensures FindIndex(items, productId) == k
  {
  }

  function Removed(items: seq<Item>, k: nat): seq<Item>
    requires k < |items|
  {
    items[..k] + items[k + 1..]
  }

  /** Removing a product's line leaves every other product's line as it was. */
  lemma RemovedOthers(items: seq<Item>, k: nat, other: ProductId)
    requires OneLineEach(items) && k < |items|
    ensures OneLineEach(Removed(items, k))
    ensures QuantityIn(Removed(items, k), other) == if other == items[k].productId then None else QuantityIn(items, other)
  {
    var after := Removed(items, k);
    var j := FindIndex(items, other);
    if j < |items| && other != items[k].productId {
      FoundAt(after, other, if j < k then j else j - 1);
    } else {
      forall n | 0 <= n < |after|
        ensures after[n].productId != other
      {
        assert after[n] == items[if n < k then n else n + 1];
      }
    }
  }

  function Keep(items: seq<Item>, drop: set<ProductId>): seq<Item> {
    if items == [] then [] else
      Keep(items[..|items| - 1], drop) + if items[|items| - 1].productId in drop then [] else [items[|items| - 1]]
  }

  /** The filter keeps the order, and keeps exactly the lines not dropped. */
  lemma {:induction false} KeepsOthers(items: seq<Item>, drop: set<ProductId>)
    requires OneLineEach(items)
    ensures OneLineEach(Keep(items, drop))
    ensures forall item :: item in Keep(items, drop) <==> item in items && item.productId !in drop
    decreases |items|
  {
    if items != [] {
      var n := |items| - 1;
      KeepsOthers(items[..n], drop);
      assert items == items[..n] + [items[n]];
      var kept := Keep(items[..n], drop);
      forall j | 0 <= j < |kept|
        ensures kept[j].productId != items[n].productId
      {
        assert kept[j] in items[..n];
      }
    }
  }

  /** One line comes before another. */
  ghost predicate InOrder(items: seq<Item>, first: Item, second: Item) {
    exists i, j :: 0 <= i < j < |items| && items[i] == first && items[j] == second
  }

  /** Lines that are kept stay in the order they were in. */
  lemma {:induction false} KeepsOrder(items: seq<Item>, drop: set<ProductId>, a: nat, b: nat)
    requires OneLineEach(items) && a < b < |items| && items[a].productId !in drop && items[b].productId !in drop
    ensures InOrder(Keep(items, drop), items[a], items[b])
    decreases |items|
  {
    var n := |items| - 1;
    var kept := Keep(items[..n], drop);
    if b < n {
      KeepsOrder(items[..n], drop, a, b);
      var i, j :| 0 <= i < j < |kept| && kept[i] == items[a] && kept[j] == items[b];
      assert Keep(items, drop)[i] == items[a] && Keep(items, drop)[j] == items[b];
    } else {
      KeepsOthers(items[..n], drop);
      assert items[..n][a] in kept;
      var i :| 0 <= i < |kept| && kept[i] == items[a];
      assert Keep(items, drop)[i] == items[a] && Keep(items, drop)[|kept|] == items[b];
    }
  }

  // ---- adding -------------------------------------------------------------------------

  /** What refuses an addition, in the order it is checked. */
  function Refusal(storeId: Option<StoreId>, cartEmpty: bool, store: StoreId, quantity: nat, c: Catalogue): Option<CartError> {
    if c.storeActive.None? then Some(StoreNotFound)
    else if !c.storeActive.value then Some(StoreInactive)
    else if c.product.None? then Some(ProductNotFound)
    else if c.product.value.storeId != store then Some(OtherStoresProduct)
    else if !c.product.value.isActive then Some(ProductInactive)
    else if storeId.Some? && storeId.value != store && !cartEmpty then Some(OneStoreAtATime)
    else if c.available.None? then Some(InventoryMissing)
    else if quantity > c.available.value then Some(InsufficientStock(c.available.value))
    else None
  }

  /** Each error says what is wrong, and that nothing checked before it is. */
  ghost predicate Stops(storeId: Option<StoreId>, items: seq<Item>, store: StoreId, quantity: nat, c: Catalogue, error: CartError) {
    var open := c.storeActive == Some(true);
    var sellable := open && c.product != None && c.product.value.storeId == store && c.product.value.isActive;
    var alone := sellable && (items == [] || storeId == None || storeId == Some(store));
    match error
    case StoreNotFound => c.storeActive == None
    case StoreInactive => c.storeActive == Some(false)
    case ProductNotFound => open && c.product == None
    case OtherStoresProduct => open && c.product != None && c.product.value.storeId != store
    case ProductInactive => open && c.product != None && c.product.value.storeId == store && !c.product.value.isActive
    case OneStoreAtATime => sellable && !alone
    case InventoryMissing => alone && c.available == None
    case InsufficientStock(available) => alone && c.available == Some(available) && available < quantity
    case _ => false
  }

  class Cart {
    var storeId: Option<StoreId>
    var items: seq<Item>

    constructor ()
      ensures Valid() && items == []
    {
      storeId, items := None, [];
    }

    /** One line a product, and a store exactly when there is something in the cart. */
    ghost predicate Valid()
      reads this
    {
      OneLineEach(items) && (storeId.None? <==> items == [])
    }

    /**
     * Add, change or (with quantity 0) remove a line. The line then holds what the buyer pays for
     * plus the bonus it earns, as far as stock goes, and no other line changes.
     */
    method AddToCart(store: StoreId, productId: ProductId, quantity: nat, c: Catalogue) returns (result: Result<nat, CartError>)
      requires Valid() && ValidOffers(c.offers)
      modifies this
      ensures Valid()
      ensures result.Ok? <==> quantity == 0 || Refusal(old(storeId), old(items) == [], store, quantity, c).None?
      ensures result.Err? ==>
        items == old(items) && storeId == old(storeId) &&
        Some(result.error) == Refusal(old(storeId), old(items) == [], store, quantity, c)
      ensures result.Err? ==> Stops(old(storeId), old(items), store, quantity, c, result.error)
      ensures result.Ok? && quantity > 0 ==>
        c.storeActive == Some(true) && c.product.Some? && c.product.value.storeId == store && c.product.value.isActive &&
        (old(items) == [] || old(storeId) == None || old(storeId) == Some(store)) &&
        c.available.Some? && quantity <= c.available.value
      ensures forall other :: other != productId ==> QuantityIn(items, other) == QuantityIn(old(items), other)
      ensures quantity == 0 ==> QuantityIn(items, productId).None?
      ensures result.Ok? && quantity > 0 ==>
        storeId == Some(store) &&
        QuantityIn(items, productId) == Some(result.value) &&
        quantity <= result.value == Min(StoredQuantity(c.offers, quantity), c.available.value)
    {
      var k := FindIndex(items, productId);
      if quantity == 0 {
        if k < |items| {
          forall other
            ensures QuantityIn(Removed(items, k), other) == if other == productId then None else QuantityIn(items, other)
            ensures OneLineEach(Removed(items, k))
          {
            RemovedOthers(items, k, other);
          }
          items := Removed(items, k);
        }
        if |items| == 0 {
          storeId := None;
        }
        return Ok(0);
      }
      if c.storeActive.None? {
        return Err(StoreNotFound);
      }
      if !c.storeActive.value {
        return Err(StoreInactive);
      }
      if c.product.None? {
        return Err(ProductNotFound);
      }
      if c.product.value.storeId != store {
        return Err(OtherStoresProduct);
      }
      if !c.product.value.isActive {
        return Err(ProductInactive);
      }
      if storeId.Some? && storeId.value != store && |items| > 0 {
        return Err(OneStoreAtATime);
      }
      if c.available.None? {
        return Err(InventoryMissing);
      }
      if quantity > c.available.value {
        return Err(InsufficientStock(c.available.value));
      }
      storeId := Some(store);
      var storedQuantity := ApplyBogoBonus(c.offers, quantity, c.available.value);
      SetLine(k, productId, storedQuantity, c.product.value.price);
      result := Ok(storedQuantity);
    }

    /** Change the line at `k`, keeping its price, or append one. */
    method SetLine(k: nat, productId: ProductId, quantity: nat, price: real)
      requires OneLineEach(items) && k == FindIndex(items, productId)
      modifies this`items
      ensures OneLineEach(items) && items != []
      ensures items == if k < |old(items)| then old(items)[k := old(items)[k].(quantity := quantity)]
                       else old(items) + [Item(productId, quantity, price)]
      ensures QuantityIn(items, productId) == Some(quantity)
      ensures forall other :: other != productId ==> QuantityIn(items, other) == QuantityIn(old(items), other)
    {
      ghost var before := items;
      if k < |items| {
        items := items[k := items[k].(quantity := quantity)];
      } else {
        items := items + [Item(productId, quantity, price)];
      }
      FoundAt(items, productId, k);
      forall other | other != productId
        ensures QuantityIn(items, other) == QuantityIn(before, other)
      {
        var j := FindIndex(before, other);
        if j < |before| {
          FoundAt(items, other, j);
        } else {
          forall n | 0 <= n < |items|
            ensures items[n].productId != other
          {
            assert n == k || items[n] == before[n];
          }
        }
      }
    }

    method RemoveItems(productIds: set<ProductId>)
      requires Valid()
      modifies this
      ensures Valid()
      ensures items == Keep(old(items), productIds)
      ensures forall item :: item in items <==> item in old(items) && item.productId !in productIds
      ensures forall a, b :: 0 <= a < b < |old(items)| && old(items)[a] in items && old(items)[b] in items ==>
        InOrder(items, old(items)[a], old(items)[b])
      ensures items != [] ==> storeId == old(storeId)
    {
      if |items| == 0 {
        return;
      }
      KeepsOthers(items, productIds);
      forall a, b | 0 <= a < b < |items| && items[a].productId !in productIds && items[b].productId !in productIds
        ensures InOrder(Keep(items, productIds), items[a], items[b])
      {
        KeepsOrder(items, productIds, a, b);
      }
      items := Keep(items, productIds);
      if |items| == 0 {
        storeId := None;
      }
    }
  }

  // ---- preview ------------------------------------------------------------------------

  /** What the totals of a preview are made of: products still sold, at their current price. */
  datatype Totals = Totals(subtotal: real, discount: real)

  /** The live ads of each product, and the products that can still be bought. */
  datatype Prices = Prices(products: map<ProductId, Product>, offers: map<ProductId, seq<Offer>>)

  ghost predicate ValidPrices(p: Prices) {
    forall id :: id in p.products ==>
      id in p.offers && ValidOffers(p.offers[id]) && p.products[id].price >= 0.0
  }

  predicate Sold(p: Prices, id: ProductId) {
    id in p.products && p.products[id].isActive
  }

  /** `best` is the best discount of a sold line, within what the line costs. */
  ghost predicate BestOfLine(item: Item, p: Prices, best: real)
    requires ValidPrices(p) && Sold(p, item.productId)
  {
    IsBest(p.offers[item.productId], item.quantity, p.products[item.productId].price, best) &&
    0.0 <= best <= Cost(item, p)
  }

  function Cost(item: Item, p: Prices): real
    requires Sold(p, item.productId)
  {
    p.products[item.productId].price * item.quantity as real
  }

  /** The totals of a preview add up each sold line's cost and best discount. */
  ghost predicate BestTotals(items: seq<Item>, p: Prices, t: Totals)
    requires ValidPrices(p)
    decreases |items|
  {
    if items == [] then t == Totals(0.0, 0.0) else
      var last, rest := items[|items| - 1], items[..|items| - 1];
      if !Sold(p, last.productId) then BestTotals(rest, p, t) else
        exists best :: BestOfLine(last, p, best) && BestTotals(rest, p, Totals(t.subtotal - Cost(last, p), t.discount - best))
  }

  lemma BestTotalsNext(items: seq<Item>, p: Prices, t: Totals, item: Item, best: real)
    requires ValidPrices(p) && Sold(p, item.productId) && BestTotals(items, p, t) && BestOfLine(item, p, best)
    ensures BestTotals(items + [item], p, Totals(t.subtotal + Cost(item, p), t.discount + best))
  {
    hide Cost, BestOfLine;
    assert (items + [item])[..|items|] == items;
    assert Totals((t.subtotal + Cost(item, p)) - Cost(item, p), (t.discount + best) - best) == t;
  }

  /** The totals before the pricing engine: the discount never exceeds what the goods cost. */
  method PreviewTotals(items: seq<Item>, p: Prices) returns (t: Totals)
    requires ValidPrices(p)
    ensures BestTotals(items, p, t)
    ensures 0.0 <= t.discount <= t.subtotal
  {
    hide IsBest, FirstBest;
    t := Totals(0.0, 0.0);
    for k := 0 to |items|
      invariant BestTotals(items[..k], p, t)
      invariant 0.0 <= t.discount <= t.subtotal
    {
      var item := items[k];
      assert items[..k + 1] == items[..k] + [item];
      assert items[..k + 1][..k] == items[..k];
      if item.productId in p.products && p.products[item.productId].isActive {
        var price := p.products[item.productId].price;
        var best := ComputeItemDiscount(p.offers[item.productId], item.quantity, price);
        BestTotalsNext(items[..k], p, t, item, best.itemDiscount);
        assert Cost(item, p) == price * item.quantity as real;
        hide Cost;
        t := Totals(t.subtotal + price * item.quantity as real, t.discount + best.itemDiscount);
      }
    }
    assert items[..|items|] == items;
  }
}
