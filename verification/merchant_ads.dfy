/** A store's promotions: at no instant do two of them discount the same product or variant. */
module MerchantAds {
  import opened Common
  import opened AdWindow

  type AdId = string
  type StoreId = string
  type ProductId = string
  type VariantId = string

  const START_GRACE_MS := 120 * 1000

  datatype Kind = Promo | Job | Event

  datatype DiscountType = Percentage | Fixed | Bogo

  /** A link without a variant covers the whole product. */
  datatype Link = Link(productId: ProductId, variantId: Option<VariantId>)

  datatype Ad = Ad(
    storeId: StoreId, kind: Kind, discountType: Option<DiscountType>, window: Window, isActive: bool,
    products: seq<Link>, lastNotified: Option<State>)

  type Ads = map<AdId, Ad>

  /** A key of an update payload: not there, there with no value, or there with one. */
  datatype Field<T> = Absent | Undefined | SetTo(value: T)

  datatype AdUpdate = AdUpdate(
    kind: Field<Kind>, discountType: Field<Option<DiscountType>>, startAt: Field<Option<Instant>>,
    expiresAt: Field<Option<Instant>>, products: Option<seq<Link>>)

  datatype AdError =
    | AdNotFound
    | StartInPast
    | StartLocked
    | WindowInverted
    | WindowConflict(other: AdId)
    | AlreadyEnded
    | HasOrders

  // ---- scopes and conflicts -----------------------------------------------------------

  predicate SameScope(x: Link, y: Link) {
    x.productId == y.productId && (x.variantId.None? || y.variantId.None? || x.variantId == y.variantId)
  }

  /** The links of `a` that share stock with some link of `b`, in order. */
  function ProductScopesIntersect(a: seq<Link>, b: seq<Link>): seq<Link> {
    if a == [] then [] else
      var x := a[|a| - 1];
      ProductScopesIntersect(a[..|a| - 1], b) +
      if exists k :: 0 <= k < |b| && SameScope(x, b[k]) then [x] else []
  }

  predicate LinkCovers(x: Link, p: ProductId, v: Option<VariantId>) {
    x.productId == p && (x.variantId.None? || x.variantId == v)
  }

  /** Whether links apply to a product or, with `v`, to that variant of it. */
  ghost predicate LinksCover(links: seq<Link>, p: ProductId, v: Option<VariantId>) {
    exists k :: 0 <= k < |links| && LinkCovers(links[k], p, v)
  }

  lemma {:induction false} ScopesSharePair(a: seq<Link>, b: seq<Link>, j: nat, k: nat)
    requires j < |a| && k < |b| && SameScope(a[j], b[k])
    ensures ProductScopesIntersect(a, b) != []
    decreases |a|
  {
    if j < |a| - 1 {
      ScopesSharePair(a[..|a| - 1], b, j, k);
    }
  }

  /** Links covering one product or variant in common make the scopes intersect. */
  lemma CommonCoverIntersects(a: seq<Link>, b: seq<Link>, p: ProductId, v: Option<VariantId>)
    requires LinksCover(a, p, v) && LinksCover(b, p, v)
    ensures ProductScopesIntersect(a, b) != []
  {
    var j :| 0 <= j < |a| && LinkCovers(a[j], p, v);
    var k :| 0 <= k < |b| && LinkCovers(b[k], p, v);
    ScopesSharePair(a, b, j, k);
  }

  /** And scopes that intersect do cover something in common: the conflict check has no false alarm. */
  lemma {:induction false} IntersectingCoverCommon(a: seq<Link>, b: seq<Link>)
    requires ProductScopesIntersect(a, b) != []
    ensures exists p, v :: LinksCover(a, p, v) && LinksCover(b, p, v)
    decreases |a|
  {
    var n := |a| - 1;
    if ProductScopesIntersect(a[..n], b) != [] {
      IntersectingCoverCommon(a[..n], b);
      var p, v :| LinksCover(a[..n], p, v) && LinksCover(b, p, v);
      var j :| 0 <= j < n && LinkCovers(a[..n][j], p, v);
      assert LinkCovers(a[j], p, v);
    } else {
      var k :| 0 <= k < |b| && SameScope(a[n], b[k]);
      var v := if a[n].variantId.Some? then a[n].variantId else b[k].variantId;
      assert LinkCovers(a[n], b[k].productId, v) && LinkCovers(b[k], b[k].productId, v);
      assert LinksCover(a, b[k].productId, v) && LinksCover(b, b[k].productId, v);
    }
  }

  predicate Discounts(ad: Ad) {
    ad.kind.Promo? && ad.discountType.Some?
  }

  /** Two discounting promotions of one store that would price the same stock at the same time. */
  predicate Clash(a: Ad, b: Ad) {
    a.storeId == b.storeId && Discounts(a) && Discounts(b) &&
    WindowsOverlap(a.window, b.window) && ProductScopesIntersect(a.products, b.products) != []
  }

  // ---- the conflict query and check ---------------------------------------------------

  predicate LinksTouch(links: seq<Link>, products: set<ProductId>) {
    exists k :: 0 <= k < |links| && links[k].productId in products
  }

  function ProductIds(links: seq<Link>): set<ProductId> {
    set k | 0 <= k < |links| :: links[k].productId
  }

  /** The rows the conflict query returns: a coarse pre-selection by product. */
  function FindWindowConflicts(ads: Ads, storeId: StoreId, window: Window, products: set<ProductId>, exclude: Option<AdId>): set<AdId> {
    set id | id in ads && ads[id].storeId == storeId && Discounts(ads[id]) && Some(id) != exclude &&
             LinksTouch(ads[id].products, products) && OverlappingWindowFilter(ads[id].window, window)
  }

  lemma {:induction false} IntersectingTouch(a: seq<Link>, b: seq<Link>)
    requires ProductScopesIntersect(a, b) != []
    ensures LinksTouch(b, ProductIds(a))
    decreases |a|
  {
    var n := |a| - 1;
    if ProductScopesIntersect(a[..n], b) != [] {
      IntersectingTouch(a[..n], b);
      var k :| 0 <= k < |b| && b[k].productId in ProductIds(a[..n]);
      var j :| 0 <= j < n && a[..n][j].productId == b[k].productId;
      assert a[j].productId == b[k].productId;
    } else {
      var k :| 0 <= k < |b| && SameScope(a[n], b[k]);
      assert b[k].productId in ProductIds(a);
    }
  }

  /** No clash is filtered out by the pre-selection. */
  lemma ClashIsPreselected(ads: Ads, candidate: Ad, exclude: Option<AdId>, id: AdId)
    requires id in ads && Some(id) != exclude && Clash(candidate, ads[id])
    ensures id in FindWindowConflicts(ads, candidate.storeId, candidate.window, ProductIds(candidate.products), exclude)
  {
    FilterIsTheTest(candidate.window, ads[id].window);
    IntersectingTouch(candidate.products, ads[id].products);
  }

  /** Every other ad is free of a clash with the candidate. */
  ghost predicate Free(ads: Ads, candidate: Ad, exclude: Option<AdId>) {
    forall id :: id in ads && Some(id) != exclude ==> !Clash(candidate, ads[id])
  }

  /** Nothing of the store but `exclude` would ever price the same stock together with the ad. */
  ghost predicate PricesAlone(ads: Ads, ad: Ad, exclude: Option<AdId>) {
    forall other, p, v, t :: other in ads && Some(other) != exclude ==> !PriceTogether(ad, ads[other], p, v, t)
  }

  /** Both are discounting promotions of one store, and unless a window is empty they would price something together. */
  ghost predicate Refusable(ads: Ads, ad: Ad, other: AdId) {
    other in ads && ad.kind == Promo && ads[other].kind == Promo && ad.discountType != None && ads[other].discountType != None &&
    ad.storeId == ads[other].storeId &&
    (NonEmpty(ad.window) && NonEmpty(ads[other].window) ==> exists p, v, t :: PriceTogether(ad, ads[other], p, v, t))
  }

  lemma FreePricesAlone(ads: Ads, ad: Ad, exclude: Option<AdId>)
    ensures Free(ads, ad, exclude) ==> PricesAlone(ads, ad, exclude)
  {
    forall other, p, v, t | other in ads && PriceTogether(ad, ads[other], p, v, t)
      ensures Clash(ad, ads[other])
    {
      PricingTogetherClashes(ad, ads[other], p, v, t);
    }
  }

  method AssertNoWindowConflict(ads: Ads, candidate: Ad, exclude: Option<AdId>) returns (conflict: Option<AdId>)
    ensures conflict.None? <==> Free(ads, candidate, exclude)
    ensures conflict.Some? ==> conflict.value in ads && Some(conflict.value) != exclude && Clash(candidate, ads[conflict.value])
    ensures conflict.Some? ==> Refusable(ads, candidate, conflict.value)
    ensures conflict.None? ==> PricesAlone(ads, candidate, exclude)
  {
    FreePricesAlone(ads, candidate, exclude);
    if !Discounts(candidate) {
      return None;
    }
    if |candidate.products| == 0 {
      assert ProductScopesIntersect(candidate.products, []) == [];
      return None;
    }
    var conflicts := FindWindowConflicts(ads, candidate.storeId, candidate.window, ProductIds(candidate.products), exclude);
    var todo := conflicts;
    while todo != {}
      invariant todo <= conflicts
      invariant forall id :: id in conflicts && id !in todo ==> !Clash(candidate, ads[id])
    {
      var id :| id in todo;
      todo := todo - {id};
      var other := ads[id];
      if WindowsOverlap(candidate.window, other.window) {
        var shared := ProductScopesIntersect(candidate.products, other.products);
        if |shared| != 0 {
          ClashPricesTogether(candidate, other);
          return Some(id);
        }
      }
    }
    forall id | id in ads && Some(id) != exclude
      ensures !Clash(candidate, ads[id])
    {
      if Clash(candidate, ads[id]) {
        ClashIsPreselected(ads, candidate, exclude, id);
      }
    }
    conflict := None;
  }

  // ---- the invariant ------------------------------------------------------------------

  /** No two ads clash, paused or not: pausing must not make room that resuming would take back. */
  ghost predicate NoConflict(ads: Ads) {
    forall a, b :: a in ads && b in ads && a != b ==> !Clash(ads[a], ads[b])
  }

  /** An ad is discounting a product or variant at an instant. */
  ghost predicate Applies(ad: Ad, p: ProductId, v: Option<VariantId>, t: Instant) {
    Discounts(ad) && LiveWindowFilter(ad.window, ad.isActive, t) && LinksCover(ad.products, p, v)
  }

  /**
   * What an ad does by its own fields: a promotion with a discount type prices a product or variant
   * at an instant from its start on and before its end, unless it is paused.
   */
  ghost predicate WouldPrice(ad: Ad, p: ProductId, v: Option<VariantId>, t: Instant) {
    ad.kind == Promo && ad.discountType != None &&
    (ad.window.startAt == None || ad.window.startAt.value <= t) &&
    (ad.window.expiresAt == None || t < ad.window.expiresAt.value) &&
    exists k :: 0 <= k < |ad.products| && ad.products[k].productId == p &&
      (ad.products[k].variantId == None || ad.products[k].variantId == v)
  }

  /** Two ads of one store would price the same stock at the same instant. */
  ghost predicate PriceTogether(a: Ad, b: Ad, p: ProductId, v: Option<VariantId>, t: Instant) {
    a.storeId == b.storeId && WouldPrice(a, p, v, t) && WouldPrice(b, p, v, t)
  }

  lemma AppliesIsPricing(ad: Ad, p: ProductId, v: Option<VariantId>, t: Instant)
    ensures Applies(ad, p, v, t) <==> ad.isActive && WouldPrice(ad, p, v, t)
  {
    if LinksCover(ad.products, p, v) {
      var k :| 0 <= k < |ad.products| && LinkCovers(ad.products[k], p, v);
      assert ad.products[k].productId == p;
    }
    if k :| 0 <= k < |ad.products| && ad.products[k].productId == p && (ad.products[k].variantId == None || ad.products[k].variantId == v) {
      assert LinkCovers(ad.products[k], p, v);
    }
  }

  lemma PricingTogetherClashes(a: Ad, b: Ad, p: ProductId, v: Option<VariantId>, t: Instant)
    requires PriceTogether(a, b, p, v, t)
    ensures Clash(a, b)
  {
    var x, y := a.(isActive := true), b.(isActive := true);
    AppliesIsPricing(x, p, v, t);
    AppliesIsPricing(y, p, v, t);
    CommonCoverIntersects(a.products, b.products, p, v);
    OverlapIsSharing(a.window, b.window);
  }

  /** Ads that clash, with windows that are not empty, would price something together. */
  lemma ClashPricesTogether(a: Ad, b: Ad)
    requires Clash(a, b)
    ensures a.storeId == b.storeId && a.kind == b.kind == Promo && a.discountType.Some? && b.discountType.Some?
    ensures NonEmpty(a.window) && NonEmpty(b.window) ==> exists p, v, t :: PriceTogether(a, b, p, v, t)
  {
    if NonEmpty(a.window) && NonEmpty(b.window) {
      var x, y := a.(isActive := true), b.(isActive := true);
      ClashMeets(x, y);
      var p, v, t :| Applies(x, p, v, t) && Applies(y, p, v, t);
      AppliesIsPricing(x, p, v, t);
      AppliesIsPricing(y, p, v, t);
      assert PriceTogether(a, b, p, v, t);
    }
  }

  /** No two ads of one store discount the same product or variant at the instant. */
  ghost predicate AtMostOne(ads: Ads, p: ProductId, v: Option<VariantId>, t: Instant) {
    forall a, b :: a in ads && b in ads && a != b && ads[a].storeId == ads[b].storeId ==>
      !(Applies(ads[a], p, v, t) && Applies(ads[b], p, v, t))
  }

  /** With no conflict, at every instant each product or variant has at most one discounting ad of its store. */
  lemma AtMostOneApplies(ads: Ads, p: ProductId, v: Option<VariantId>, t: Instant)
    requires NoConflict(ads)
    ensures AtMostOne(ads, p, v, t)
  {
    forall a, b | a in ads && b in ads && a != b && ads[a].storeId == ads[b].storeId
      ensures !(Applies(ads[a], p, v, t) && Applies(ads[b], p, v, t))
    {
      if Applies(ads[a], p, v, t) && Applies(ads[b], p, v, t) {
        CommonCoverIntersects(ads[a].products, ads[b].products, p, v);
        LiveIsTheFilter(ads[a].window, ads[a].isActive, t);
        LiveIsTheFilter(ads[b].window, ads[b].isActive, t);
        OverlapIsSharing(ads[a].window, ads[b].window);
      }
    }
  }

  /** And the check refuses nothing it need not: two clashing non-empty ads, both active, do meet. */
  lemma ClashMeets(a: Ad, b: Ad)
    requires Clash(a, b) && NonEmpty(a.window) && NonEmpty(b.window) && a.isActive && b.isActive
    ensures exists p, v, t :: Applies(a, p, v, t) && Applies(b, p, v, t)
  {
    IntersectingCoverCommon(a.products, b.products);
    var p, v :| LinksCover(a.products, p, v) && LinksCover(b.products, p, v);
    OverlapIsSharing(a.window, b.window);
    var t :| Covers(a.window, t) && Covers(b.window, t);
    LiveIsTheFilter(a.window, a.isActive, t);
    LiveIsTheFilter(b.window, b.isActive, t);
    assert Applies(a, p, v, t) && Applies(b, p, v, t);
  }

  lemma {:induction false} IntersectSymmetric(a: seq<Link>, b: seq<Link>)
    requires ProductScopesIntersect(a, b) != []
    ensures ProductScopesIntersect(b, a) != []
  {
    IntersectingCoverCommon(a, b);
    var p, v :| LinksCover(a, p, v) && LinksCover(b, p, v);
    CommonCoverIntersects(b, a, p, v);
  }

  /** Storing an ad that is free of the others keeps the store free of conflicts. */
  lemma StoringFreeAd(ads: Ads, id: AdId, ad: Ad)
    requires NoConflict(ads) && Free(ads, ad, Some(id))
    ensures NoConflict(ads[id := ad])
  {
    var after := ads[id := ad];
    forall a, b | a in after && b in after && a != b
      ensures !Clash(after[a], after[b])
    {
      if b == id && Clash(after[a], after[b]) {
        IntersectSymmetric(after[a].products, after[b].products);
        assert Clash(ad, ads[a]);
      }
    }
  }

  /** An ad whose window lies within another's clashes only where the other does. */
  lemma NarrowerClashesLess(narrow: Ad, wide: Ad, other: Ad)
    requires Clash(narrow, other) && narrow == wide.(window := narrow.window)
    requires wide.window.startAt.None? || wide.window.startAt == narrow.window.startAt
    requires wide.window.expiresAt.None? || wide.window.expiresAt == narrow.window.expiresAt
    ensures Clash(wide, other)
  {
  }

  // ---- updates ------------------------------------------------------------------------

  /** The value a check works with: a present key without a value counts as unset. */
  function Checked(field: Field<Option<Instant>>, stored: Option<Instant>): Option<Instant> {
    match field
    case Absent => stored
    case Undefined => None
    case SetTo(v) => v
  }

  /** The value that is stored: a key without a value is ignored by the write. */
  function Stored<T>(field: Field<T>, stored: T): T {
    if field.SetTo? then field.value else stored
  }

  function CheckedAd(ad: Ad, u: AdUpdate): Ad {
    ad.(kind := Stored(u.kind, ad.kind), discountType := Stored(u.discountType, ad.discountType),
        window := Window(Checked(u.startAt, ad.window.startAt), Checked(u.expiresAt, ad.window.expiresAt)),
        products := if u.products.Some? then u.products.value else ad.products)
  }

  function UpdatedAd(ad: Ad, u: AdUpdate): Ad {
    CheckedAd(ad, u).(window := Window(Stored(u.startAt, ad.window.startAt), Stored(u.expiresAt, ad.window.expiresAt)))
  }

  predicate StartIsPast(startAt: Option<Instant>, stored: Option<Instant>, now: Instant) {
    startAt.Some? && startAt != stored && startAt.value < now - START_GRACE_MS
  }

  /** Only a scheduled ad may have its start changed. */
  predicate StartIsLocked(ad: Ad, field: Field<Option<Instant>>, now: Instant) {
    !field.Absent? && !DeriveAdState(ad.window, ad.isActive, now).Scheduled? &&
    Checked(field, None) != ad.window.startAt
  }

  predicate Inverted(w: Window) {
    w.startAt.Some? && w.expiresAt.Some? && w.expiresAt.value <= w.startAt.value
  }

  /** What refuses an update before the conflict check, in the order it is checked. */
  function UpdateRefusal(ad: Ad, u: AdUpdate, now: Instant): Option<AdError> {
    if StartIsLocked(ad, u.startAt, now) then Some(StartLocked)
    else if StartIsPast(if u.startAt.SetTo? then u.startAt.value else None, ad.window.startAt, now) then Some(StartInPast)
    else if Inverted(CheckedAd(ad, u).window) then Some(WindowInverted)
    else None
  }

  /**
   * What an update is refused for: a new start once the ad has begun, a new start in the past beyond
   * two minutes, an end not after the start. A start or end key without a value counts as none here.
   */
  lemma UpdateRefusalIs(ad: Ad, u: AdUpdate, now: Instant)
    ensures var start := if u.startAt == Absent then ad.window.startAt else if u.startAt.SetTo? then u.startAt.value else None;
      var end := if u.expiresAt == Absent then ad.window.expiresAt else if u.expiresAt.SetTo? then u.expiresAt.value else None;
      var ended := ad.window.expiresAt != None && ad.window.expiresAt.value <= now;
      var waiting := ad.window.startAt != None && now < ad.window.startAt.value && !ended;
      UpdateRefusal(ad, u, now) ==
        if start != ad.window.startAt && !waiting then Some(StartLocked)
        else if u.startAt.SetTo? && start != ad.window.startAt && start != None && start.value < now - 120 * 1000 then Some(StartInPast)
        else if start != None && end != None && end.value <= start.value then Some(WindowInverted)
        else None
  {
  }

  /** What an update stores: each column given with a value, and the old one otherwise. */
  lemma UpdatedIs(ad: Ad, u: AdUpdate)
    ensures UpdatedAd(ad, u) == Ad(
      ad.storeId,
      if u.kind.SetTo? then u.kind.value else ad.kind,
      if u.discountType.SetTo? then u.discountType.value else ad.discountType,
      Window(if u.startAt.SetTo? then u.startAt.value else ad.window.startAt,
             if u.expiresAt.SetTo? then u.expiresAt.value else ad.window.expiresAt),
      ad.isActive,
      if u.products.Some? then u.products.value else ad.products,
      ad.lastNotified)
  {
  }

  ghost predicate MayUpdate(ads: Ads, id: AdId, u: AdUpdate, now: Instant)
    requires id in ads
  {
    UpdateRefusal(ads[id], u, now).None? && Free(ads, CheckedAd(ads[id], u), Some(id))
  }

  // ---- the service --------------------------------------------------------------------

  class AdStore {
    var ads: Ads

    constructor ()
      ensures ads == map[]
    {
      ads := map[];
    }

    method CreateAd(id: AdId, ad: Ad, now: Instant) returns (result: Result<Ad, AdError>)
      requires id !in ads && ad.isActive
      modifies this
      ensures result.Ok? <==> !StartIsPast(ad.window.startAt, None, now) && Free(old(ads), ad, None)
      ensures ads == if result.Ok? then old(ads)[id := ad] else old(ads)
      ensures result.Err? && !StartIsPast(ad.window.startAt, None, now) ==>
        result.error.WindowConflict? && result.error.other in ads && Clash(ad, ads[result.error.other])
      ensures NoConflict(old(ads)) ==> NoConflict(ads)
      ensures result == Err(StartInPast) <==> ad.window.startAt.Some? && ad.window.startAt.value < now - 120 * 1000
      ensures result.Ok? ==> PricesAlone(old(ads), ad, None)
      ensures result.Err? && result.error.WindowConflict? ==> Refusable(old(ads), ad, result.error.other)
    {
      if StartIsPast(ad.window.startAt, None, now) {
        return Err(StartInPast);
      }
      var conflict := AssertNoWindowConflict(ads, ad, None);
      if conflict.Some? {
        return Err(WindowConflict(conflict.value));
      }
      if NoConflict(ads) {
        StoringFreeAd(ads, id, ad);
      }
      ads := ads[id := ad];
      result := Ok(ad);
    }

    /** Pausing or resuming; resuming an ended ad is refused. */
    method SetActive(id: AdId, isActive: bool, now: Instant) returns (result: Result<Ad, AdError>)
      modifies this
      ensures result.Ok? <==> id in old(ads) && !(isActive && StateOf(old(ads)[id], now).Ended?)
      ensures ads == if result.Ok? then old(ads)[id := old(ads)[id].(isActive := isActive)] else old(ads)
      ensures NoConflict(old(ads)) ==> NoConflict(ads)
    {
      if id !in ads {
        return Err(AdNotFound);
      }
      var ad := ads[id];
      if isActive && DeriveAdState(ad.window, ad.isActive, now).Ended? {
        return Err(AlreadyEnded);
      }
      ads := ads[id := ad.(isActive := isActive)];
      result := Ok(ads[id]);
    }

    method UpdateAd(id: AdId, u: AdUpdate, now: Instant) returns (result: Result<Ad, AdError>)
      modifies this
      ensures result.Ok? <==> id in old(ads) && MayUpdate(old(ads), id, u, now)
      ensures ads == if result.Ok? then old(ads)[id := UpdatedAd(old(ads)[id], u)] else old(ads)
      ensures id !in old(ads) ==> result == Err(AdNotFound)
      ensures id in old(ads) && UpdateRefusal(old(ads)[id], u, now).Some? ==>
        result == Err(UpdateRefusal(old(ads)[id], u, now).value)
      ensures NoConflict(old(ads)) ==> NoConflict(ads)
      ensures result.Ok? ==> id in ads && PricesAlone(ads, ads[id], Some(id))
    {
      if id !in ads {
        return Err(AdNotFound);
      }
      var ad := ads[id];
      if StartIsLocked(ad, u.startAt, now) {
        return Err(StartLocked);
      }
      if StartIsPast(if u.startAt.SetTo? then u.startAt.value else None, ad.window.startAt, now) {
        return Err(StartInPast);
      }
      var next := CheckedAd(ad, u);
      if Inverted(next.window) {
        return Err(WindowInverted);
      }
      var conflict := AssertNoWindowConflict(ads, next, Some(id));
      if conflict.Some? {
        return Err(WindowConflict(conflict.value));
      }
      UpdateStaysFree(ads, id, u);
      FreePricesAlone(ads, UpdatedAd(ad, u), Some(id));
      if NoConflict(ads) {
        StoringFreeAd(ads, id, UpdatedAd(ad, u));
      }
      ads := ads[id := UpdatedAd(ad, u)];
      result := Ok(ads[id]);
    }

    /** Ads that past orders refer to are kept. */
    method DeleteAd(id: AdId, orderItems: nat) returns (result: Result<bool, AdError>)
      modifies this
      ensures result.Ok? <==> id in old(ads) && orderItems == 0
      ensures ads == if result.Ok? then old(ads) - {id} else old(ads)
      ensures NoConflict(old(ads)) ==> NoConflict(ads)
    {
      if id !in ads {
        return Err(AdNotFound);
      }
      if orderItems > 0 {
        return Err(HasOrders);
      }
      ads := ads - {id};
      result := Ok(true);
    }

    /**
     * The transition sweep over the candidates it read: it publishes a transition for exactly the
     * candidates whose recorded state is behind, and records what it acted on.
     */
    method ProcessWindowTransitions(candidates: set<AdId>, now: Instant) returns (processed: nat, ghost published: set<AdId>)
      requires candidates <= ads.Keys
      modifies this
      ensures ads == Swept(old(ads), candidates, now)
      ensures published == Behind(old(ads), candidates, now) && processed == |published|
    {
      processed, published := 0, {};
      ghost var before := ads;
      var todo := candidates;
      while todo != {}
        invariant todo <= candidates && candidates <= before.Keys
        invariant ads == Swept(before, candidates - todo, now)
        invariant published == Behind(before, candidates - todo, now) && processed == |published|
      {
        var id :| id in todo;
        assert candidates - (todo - {id}) == candidates - todo + {id};
        todo := todo - {id};
        var state := DeriveAdState(ads[id].window, ads[id].isActive, now);
        if Some(state) != ads[id].lastNotified {
          assert Behind(before, candidates - todo, now) == published + {id};
          published := published + {id};
          ads := ads[id := ads[id].(lastNotified := Some(state))];
          processed := processed + 1;
        } else {
          assert Behind(before, candidates - todo, now) == published;
        }
      }
      assert candidates - todo == candidates;
    }
  }

  // ---- whole runs ---------------------------------------------------------------------

  datatype Request =
    | Create(id: AdId, ad: Ad)
    | Update(id: AdId, update: AdUpdate)
    | Pause(id: AdId, resume: bool)
    | Delete(id: AdId, orderItems: nat)
    | Sweep(candidates: set<AdId>)

  /** What one request leaves; a refused one leaves the ads alone. An id in use is never generated again. */
  ghost function ServeOne(ads: Ads, request: Request, now: Instant): Ads {
    match request
    case Create(id, ad) =>
      if id !in ads && ad.isActive && !StartIsPast(ad.window.startAt, None, now) && Free(ads, ad, None)
      then ads[id := ad] else ads
    case Update(id, u) =>
      if id in ads && MayUpdate(ads, id, u, now) then ads[id := UpdatedAd(ads[id], u)] else ads
    case Pause(id, resume) =>
      if id in ads && !(resume && StateOf(ads[id], now).Ended?) then ads[id := ads[id].(isActive := resume)] else ads
    case Delete(id, orderItems) =>
      if id in ads && orderItems == 0 then ads - {id} else ads
    case Sweep(candidates) =>
      Swept(ads, candidates * ads.Keys, now)
  }

  /** The ads after requests served one after the other, from none. */
  ghost function After(requests: seq<(Request, Instant)>): Ads {
    if requests == [] then map[] else
      var last := requests[|requests| - 1];
      ServeOne(After(requests[..|requests| - 1]), last.0, last.1)
  }

  lemma ServingKeepsNoConflict(ads: Ads, request: Request, now: Instant)
    requires NoConflict(ads)
    ensures NoConflict(ServeOne(ads, request, now))
  {
    match request
    case Create(id, ad) =>
      if id !in ads && Free(ads, ad, None) {
        StoringFreeAd(ads, id, ad);
      }
    case Update(id, u) =>
      if id in ads && MayUpdate(ads, id, u, now) {
        UpdateStaysFree(ads, id, u);
        StoringFreeAd(ads, id, UpdatedAd(ads[id], u));
      }
    case Sweep(candidates) => SweepAgainDoesNothing(ads, candidates * ads.Keys, now);
    case _ =>
  }

  lemma {:induction false} NeverConflict(requests: seq<(Request, Instant)>)
    ensures NoConflict(After(requests))
    decreases |requests|
  {
    if requests != [] {
      var n := |requests| - 1;
      NeverConflict(requests[..n]);
      ServingKeepsNoConflict(After(requests[..n]), requests[n].0, requests[n].1);
    }
  }

  /**
   * Exclusivity over whole runs: after any creates, updates, pauses, resumes, deletes and sweeps at
   * any instants, no instant has two live discounting ads on one product or variant of a store.
   */
  lemma ExclusiveAfter(requests: seq<(Request, Instant)>, p: ProductId, v: Option<VariantId>, t: Instant)
    ensures AtMostOne(After(requests), p, v, t)
    ensures var ads := After(requests);
      forall a, b :: a in ads && b in ads && a != b && ads[a].isActive && ads[b].isActive ==> !PriceTogether(ads[a], ads[b], p, v, t)
  {
    NeverConflict(requests);
    var ads := After(requests);
    AtMostOneApplies(ads, p, v, t);
    forall a | a in ads
      ensures Applies(ads[a], p, v, t) <==> ads[a].isActive && WouldPrice(ads[a], p, v, t)
    {
      AppliesIsPricing(ads[a], p, v, t);
    }
  }

  /** The service, serving requests one after the other, holds exactly those ads. */
  method Serve(requests: seq<(Request, Instant)>) returns (store: AdStore)
    ensures store.ads == After(requests)
    ensures forall p, v, t :: AtMostOne(store.ads, p, v, t)
  {
    store := new AdStore();
    for k := 0 to |requests|
      invariant fresh(store) && store.ads == After(requests[..k])
    {
      assert requests[..k + 1][..k] == requests[..k];
      var now := requests[k].1;
      match requests[k].0
      case Create(id, ad) =>
        if id !in store.ads && ad.isActive {
          var _ := store.CreateAd(id, ad, now);
        }
      case Update(id, update) =>
        var _ := store.UpdateAd(id, update, now);
      case Pause(id, resume) =>
        var _ := store.SetActive(id, resume, now);
      case Delete(id, orderItems) =>
        var _ := store.DeleteAd(id, orderItems);
      case Sweep(candidates) =>
        var _, _ := store.ProcessWindowTransitions(candidates * store.ads.Keys, now);
    }
    assert requests[..|requests|] == requests;
    forall p, v, t
      ensures AtMostOne(store.ads, p, v, t)
    {
      ExclusiveAfter(requests, p, v, t);
    }
  }

  /** What is stored after an update is no wider than what was checked. */
  lemma UpdateStaysFree(ads: Ads, id: AdId, u: AdUpdate)
    requires id in ads && Free(ads, CheckedAd(ads[id], u), Some(id))
    ensures Free(ads, UpdatedAd(ads[id], u), Some(id))
  {
    forall other | other in ads && other != id
      ensures !Clash(UpdatedAd(ads[id], u), ads[other])
    {
      if Clash(UpdatedAd(ads[id], u), ads[other]) {
        NarrowerClashesLess(UpdatedAd(ads[id], u), CheckedAd(ads[id], u), ads[other]);
      }
    }
  }

  // ---- the sweep ----------------------------------------------------------------------

  function StateOf(ad: Ad, now: Instant): State {
    DeriveAdState(ad.window, ad.isActive, now)
  }

  function Behind(ads: Ads, candidates: set<AdId>, now: Instant): set<AdId> {
    set id | id in candidates && id in ads && ads[id].lastNotified != Some(StateOf(ads[id], now))
  }

  function Swept(ads: Ads, candidates: set<AdId>, now: Instant): Ads {
    map id | id in ads :: if id in candidates then ads[id].(lastNotified := Some(StateOf(ads[id], now))) else ads[id]
  }

  /** Sweeping again at the same instant publishes nothing; it never changes who discounts what. */
  lemma SweepAgainDoesNothing(ads: Ads, candidates: set<AdId>, now: Instant)
    ensures var after := Swept(ads, candidates, now);
      Behind(after, candidates, now) == {} && Swept(after, candidates, now) == after &&
      (NoConflict(ads) ==> NoConflict(after))
  {
    var after := Swept(ads, candidates, now);
    forall id | id in after
      ensures StateOf(after[id], now) == StateOf(ads[id], now)
    {
    }
  }
}
