/**
 * Discounts, and the free units that adding to a cart stores. Money is real: rounding happens
 * elsewhere. Percentages lie in (0, 100], amounts and bundle sizes are positive where set.
 */
module Pricing {
  import opened Common

  type AdId = string
  type Quantity = nat

  datatype DiscountType = Percentage | FixedAmount | Bogo

  datatype Offer = Offer(
    id: AdId, discountType: DiscountType, discountValue: Option<real>, buyQuantity: Option<int>, freeQuantity: Option<int>)

  datatype Discount = Discount(itemDiscount: real, appliedAdId: Option<AdId>, freeUnits: nat)

  const NO_DISCOUNT := Discount(0.0, None, 0)

  predicate ValidOffer(o: Offer) {
    (o.discountValue.Some? ==> o.discountValue.value > 0.0) &&
    (o.discountValue.Some? && o.discountType.Percentage? ==> o.discountValue.value <= 100.0) &&
    (o.buyQuantity.Some? ==> o.buyQuantity.value >= 1) &&
    (o.freeQuantity.Some? ==> o.freeQuantity.value >= 1)
  }

  ghost predicate ValidOffers(offers: seq<Offer>) {
    forall k :: 0 <= k < |offers| ==> ValidOffer(offers[k])
  }

  // ---- one ad -------------------------------------------------------------------------

  predicate IsBundle(o: Offer) {
    o.buyQuantity.Some? && o.freeQuantity.Some?
  }

  /** The free units of the complete bundles within `quantity`. */
  function FreeUnits(buy: int, free: int, quantity: nat): int
    requires buy >= 1 && free >= 1
  {
    Min(quantity, quantity / (buy + free) * free)
  }

  function MinReal(a: real, b: real): real { if a < b then a else b }

  function PercentOf(percent: real, total: real): real {
    total * (percent / 100.0)
  }

  /** The bundle branch is reached by every ad the first two do not answer, whatever its type. */
  function DiscountForAd(o: Offer, itemTotal: real, quantity: nat, unitPrice: real): Discount
    requires ValidOffer(o)
  {
    if o.discountType.Percentage? && o.discountValue.Some? then
      Discount(PercentOf(o.discountValue.value, itemTotal), Some(o.id), 0)
    else if o.discountType.FixedAmount? && o.discountValue.Some? then
      Discount(MinReal(itemTotal, o.discountValue.value * quantity as real), Some(o.id), 0)
    else if IsBundle(o) then
      var freeUnits := FreeUnits(o.buyQuantity.value, o.freeQuantity.value, quantity);
      if freeUnits > 0 then Discount(freeUnits as real * unitPrice, Some(o.id), freeUnits) else NO_DISCOUNT
    else NO_DISCOUNT
  }

  /** What an ad takes off at a quantity and price. */
  function Off(o: Offer, quantity: nat, unitPrice: real): real
    requires ValidOffer(o)
  {
    DiscountForAd(o, unitPrice * quantity as real, quantity, unitPrice).itemDiscount
  }

  /** A percentage takes that many hundredths of the total. */
  lemma PercentageIs(o: Offer, total: real, quantity: nat, unitPrice: real)
    requires ValidOffer(o) && o.discountType == Percentage && o.discountValue != None
    ensures var d := DiscountForAd(o, total, quantity, unitPrice);
      100.0 * d.itemDiscount == o.discountValue.value * total && d.appliedAdId == Some(o.id) && d.freeUnits == 0
  {
  }

  /** An amount takes that much off each unit, and no more than the total. */
  lemma AmountIs(o: Offer, total: real, quantity: nat, unitPrice: real)
    requires ValidOffer(o) && o.discountType == FixedAmount && o.discountValue != None
    ensures var d := DiscountForAd(o, total, quantity, unitPrice);
      d.itemDiscount <= total && d.itemDiscount <= o.discountValue.value * quantity as real &&
      (d.itemDiscount == total || d.itemDiscount == o.discountValue.value * quantity as real) &&
      d.appliedAdId == Some(o.id) && d.freeUnits == 0
  {
  }

  /** A bundle takes the free units of the `m` whole bundles, if any; every other ad takes nothing. */
  lemma BundleIs(o: Offer, total: real, quantity: nat, unitPrice: real) returns (m: nat)
    requires ValidOffer(o) && (o.discountType == Bogo || o.discountValue == None)
    ensures o.buyQuantity == None || o.freeQuantity == None ==> DiscountForAd(o, total, quantity, unitPrice) == Discount(0.0, None, 0)
    ensures o.buyQuantity != None && o.freeQuantity != None ==>
      var d, bundle := DiscountForAd(o, total, quantity, unitPrice), o.buyQuantity.value + o.freeQuantity.value;
      m * bundle <= quantity < m * bundle + bundle && d.freeUnits == m * o.freeQuantity.value &&
      d.itemDiscount == d.freeUnits as real * unitPrice && d.appliedAdId == (if d.freeUnits > 0 then Some(o.id) else None)
  {
    m := 0;
    if IsBundle(o) {
      var buy, free := o.buyQuantity.value, o.freeQuantity.value;
      m := quantity / (buy + free);
      BundleParts(buy, free, quantity);
      assert m * (buy + free) == m * buy + m * free;
      hide FreeUnits;
    }
  }

  lemma FreeUnitsBounds(buy: int, free: int, quantity: nat)
    requires buy >= 1 && free >= 1
    ensures 0 <= FreeUnits(buy, free, quantity) <= quantity
  {
    assert quantity / (buy + free) * free >= 0;
  }

  lemma ScaleMonotone(a: real, b: real, c: real)
    requires a <= b && c >= 0.0
    ensures a * c <= b * c
  {
  }

  lemma PercentWithin(percent: real, total: real)
    requires 0.0 < percent <= 100.0 && total >= 0.0
    ensures 0.0 <= PercentOf(percent, total) <= total
  {
    var part := percent / 100.0;
    assert 0.0 <= part <= 1.0;
    ScaleMonotone(part, 1.0, total);
    ScaleMonotone(0.0, part, total);
  }

  lemma PriceOf(units: nat, quantity: nat, unitPrice: real)
    requires units <= quantity && unitPrice >= 0.0
    ensures 0.0 <= units as real * unitPrice <= unitPrice * quantity as real
  {
    ScaleMonotone(0.0, units as real, unitPrice);
    ScaleMonotone(units as real, quantity as real, unitPrice);
  }

  lemma AmountOf(amount: real, quantity: nat)
    requires amount > 0.0
    ensures amount * quantity as real >= 0.0
  {
    ScaleMonotone(0.0, quantity as real, amount);
  }

  lemma PercentageWithin(o: Offer, quantity: nat, unitPrice: real)
    requires ValidOffer(o) && unitPrice >= 0.0 && o.discountType.Percentage? && o.discountValue.Some?
    ensures 0.0 <= Off(o, quantity, unitPrice) <= unitPrice * quantity as real
  {
    hide PercentOf;
    PriceOf(0, quantity, unitPrice);
    PercentWithin(o.discountValue.value, unitPrice * quantity as real);
  }

  lemma AmountWithin(o: Offer, quantity: nat, unitPrice: real)
    requires ValidOffer(o) && unitPrice >= 0.0 && o.discountType.FixedAmount? && o.discountValue.Some?
    ensures 0.0 <= Off(o, quantity, unitPrice) <= unitPrice * quantity as real
  {
    PriceOf(0, quantity, unitPrice);
    AmountOf(o.discountValue.value, quantity);
  }

  lemma BundleWithin(o: Offer, quantity: nat, unitPrice: real)
    requires ValidOffer(o) && unitPrice >= 0.0 && IsBundle(o)
    requires o.discountType.Bogo? || o.discountValue.None?
    ensures 0.0 <= Off(o, quantity, unitPrice) <= unitPrice * quantity as real
  {
    hide FreeUnits;
    PriceOf(0, quantity, unitPrice);
    FreeUnitsBounds(o.buyQuantity.value, o.freeQuantity.value, quantity);
    PriceOf(FreeUnits(o.buyQuantity.value, o.freeQuantity.value, quantity), quantity, unitPrice);
  }

  /** No ad takes off more than the items cost. */
  lemma OffWithinTotal(o: Offer, quantity: nat, unitPrice: real)
    requires ValidOffer(o) && unitPrice >= 0.0
    ensures 0.0 <= Off(o, quantity, unitPrice) <= unitPrice * quantity as real
  {
    if o.discountType.Percentage? && o.discountValue.Some? {
      hide Off;
      PercentageWithin(o, quantity, unitPrice);
    } else if o.discountType.FixedAmount? && o.discountValue.Some? {
      hide Off;
      AmountWithin(o, quantity, unitPrice);
    } else if IsBundle(o) {
      hide Off;
      BundleWithin(o, quantity, unitPrice);
    } else {
      PriceOf(0, quantity, unitPrice);
    }
  }

  // ---- the best of several ------------------------------------------------------------

  /** `d` is the most any of the offers takes off, or nothing. */
  ghost predicate IsBest(offers: seq<Offer>, quantity: nat, unitPrice: real, d: real)
    requires ValidOffers(offers)
  {
    (forall k :: 0 <= k < |offers| ==> Off(offers[k], quantity, unitPrice) <= d) &&
    (d == 0.0 || exists k :: 0 <= k < |offers| && Off(offers[k], quantity, unitPrice) == d)
  }

  /** The first `n` offers' best discount, taken from the earliest that gives it. */
  ghost predicate FirstBest(offers: seq<Offer>, n: nat, quantity: nat, unitPrice: real, best: Discount)
    requires ValidOffers(offers) && n <= |offers|
  {
    (forall k :: 0 <= k < n ==> Off(offers[k], quantity, unitPrice) <= best.itemDiscount) &&
    (best.itemDiscount == 0.0 ==> best == NO_DISCOUNT) &&
    (best.itemDiscount != 0.0 ==> exists k :: FirstAt(offers, n, quantity, unitPrice, best, k))
  }

  ghost predicate FirstAt(offers: seq<Offer>, n: nat, quantity: nat, unitPrice: real, best: Discount, k: int)
    requires ValidOffers(offers) && n <= |offers|
  {
    0 <= k < n && best == DiscountForAd(offers[k], unitPrice * quantity as real, quantity, unitPrice) &&
    forall j :: 0 <= j < k ==> Off(offers[j], quantity, unitPrice) < best.itemDiscount
  }

  /** The largest discount, from the first ad that gives it; none when no ad gives any. */
  method ComputeItemDiscount(offers: seq<Offer>, quantity: nat, unitPrice: real) returns (best: Discount)
    requires ValidOffers(offers) && unitPrice >= 0.0
    ensures FirstBest(offers, |offers|, quantity, unitPrice, best)
    ensures IsBest(offers, quantity, unitPrice, best.itemDiscount)
    ensures 0.0 <= best.itemDiscount <= unitPrice * quantity as real
    ensures best.itemDiscount == 0.0 ==> best.appliedAdId == None && best.freeUnits == 0
    ensures best.itemDiscount > 0.0 ==> exists k :: FirstAt(offers, |offers|, quantity, unitPrice, best, k)
  {
    hide PercentOf, FreeUnits;
    var itemTotal := unitPrice * quantity as real;
    PriceOf(0, quantity, unitPrice);
    best := NO_DISCOUNT;
    for n := 0 to |offers|
      invariant 0.0 <= best.itemDiscount <= itemTotal
      invariant FirstBest(offers, n, quantity, unitPrice, best)
    {
      OffWithinTotal(offers[n], quantity, unitPrice);
      var candidate := DiscountForAd(offers[n], itemTotal, quantity, unitPrice);
      ghost var was := best;
      if candidate.itemDiscount > best.itemDiscount {
        best := candidate;
        assert FirstAt(offers, n + 1, quantity, unitPrice, best, n);
      } else if best.itemDiscount != 0.0 {
        ghost var k :| FirstAt(offers, n, quantity, unitPrice, was, k);
        assert FirstAt(offers, n + 1, quantity, unitPrice, best, k);
      }
    }
    if best.itemDiscount != 0.0 {
      ghost var k :| FirstAt(offers, |offers|, quantity, unitPrice, best, k);
      assert Off(offers[k], quantity, unitPrice) == best.itemDiscount;
    }
  }

  // ---- bonus units --------------------------------------------------------------------

  predicate IsBogo(o: Offer) {
    o.discountType.Bogo? && IsBundle(o)
  }

  /** The free units that paying for `quantity` earns under one ad. */
  function Earned(o: Offer, quantity: nat): int
    requires ValidOffer(o)
  {
    if IsBogo(o) then quantity / o.buyQuantity.value * o.freeQuantity.value else 0
  }

  /** The most free units any of the offers earns. */
  function BonusUnits(offers: seq<Offer>, quantity: nat): (bonus: int)
    requires ValidOffers(offers)
    ensures bonus >= 0
  {
    if offers == [] then 0 else
      Max(BonusUnits(offers[..|offers| - 1], quantity), Earned(offers[|offers| - 1], quantity))
  }

  /** Some ad earns the bonus, if there is one. */
  lemma {:induction false} BonusIsEarned(offers: seq<Offer>, quantity: nat)
    requires ValidOffers(offers) && BonusUnits(offers, quantity) > 0
    ensures exists k :: 0 <= k < |offers| && IsBogo(offers[k]) && Earned(offers[k], quantity) == BonusUnits(offers, quantity)
    decreases |offers|
  {
    var n := |offers| - 1;
    if Earned(offers[n], quantity) < BonusUnits(offers, quantity) {
      BonusIsEarned(offers[..n], quantity);
      var k :| 0 <= k < n && IsBogo(offers[..n][k]) && Earned(offers[..n][k], quantity) == BonusUnits(offers[..n], quantity);
      assert IsBogo(offers[k]);
    }
  }

  /** The quantity to store for the quantity a buyer pays for. */
  method ApplyBogoBonus(offers: seq<Offer>, quantity: nat, availableStock: int) returns (stored: int)
    requires ValidOffers(offers)
    ensures stored == Min(quantity + BonusUnits(offers, quantity), availableStock)
    ensures quantity <= availableStock ==> quantity <= stored <= availableStock
  {
    var bonusUnits := 0;
    for n := 0 to |offers|
      invariant bonusUnits == BonusUnits(offers[..n], quantity)
    {
      assert offers[..n + 1][..n] == offers[..n];
      var o := offers[n];
      if o.discountType.Bogo? && o.buyQuantity.Some? && o.freeQuantity.Some? {
        var bundles := quantity / o.buyQuantity.value;
        bonusUnits := Max(bonusUnits, bundles * o.freeQuantity.value);
      }
    }
    assert offers[..|offers|] == offers;
    stored := Min(quantity + bonusUnits, availableStock);
  }

  // ---- the round trip -----------------------------------------------------------------

  /** Paying for q and getting each bundle's free units gives a quantity with as many whole bundles. */
  lemma BundlesSurvive(buy: int, free: int, q: nat)
    requires buy >= 1 && free >= 1
    ensures (q + q / buy * free) / (buy + free) == q / buy
    ensures FreeUnits(buy, free, q + q / buy * free) == q / buy * free
  {
    var k, r := q / buy, q % buy;
    assert q == k * buy + r;
    assert k * free >= 0;
    assert k * (buy + free) == k * buy + k * free;
    DivUnique(q + k * free, buy + free, k, r);
  }

  /** The quantity stored when stock does not cap the bonus. */
  function StoredQuantity(offers: seq<Offer>, q: nat): nat
    requires ValidOffers(offers)
  {
    q + BonusUnits(offers, q)
  }

  /** At the stored quantity, the ad that earned the bonus takes off exactly its price. */
  lemma BonusOff(o: Offer, q: nat, bonus: nat, unitPrice: real)
    requires ValidOffer(o) && IsBogo(o) && bonus == Earned(o, q)
    ensures Off(o, q + bonus, unitPrice) == bonus as real * unitPrice
  {
    BundlesSurvive(o.buyQuantity.value, o.freeQuantity.value, q);
  }

  lemma ChargeSplits(q: nat, bonus: nat, unitPrice: real)
    ensures unitPrice * (q + bonus) as real == unitPrice * q as real + bonus as real * unitPrice
  {
    assert (q + bonus) as real == q as real + bonus as real;
  }

  /**
   * Checkout on the stored quantity charges at most the units the buyer asked to pay for, whatever
   * ads are live: the best discount is worth at least the bonus.
   */
  lemma BonusIsFree(offers: seq<Offer>, q: nat, unitPrice: real, best: real)
    requires ValidOffers(offers) && IsBest(offers, StoredQuantity(offers, q), unitPrice, best) && best >= 0.0
    ensures unitPrice * StoredQuantity(offers, q) as real - best <= unitPrice * q as real
  {
    hide Off, Earned;
    var bonus := BonusUnits(offers, q);
    if bonus > 0 {
      BonusIsEarned(offers, q);
      var k :| 0 <= k < |offers| && IsBogo(offers[k]) && Earned(offers[k], q) == bonus;
      BonusOff(offers[k], q, bonus, unitPrice);
      ChargeSplits(q, bonus, unitPrice);
    }
  }

  lemma OneOffer(o: Offer, q: nat)
    requires ValidOffer(o) && IsBogo(o)
    ensures BonusUnits([o], q) == Earned(o, q)
  {
    assert [o][..0] == [];
    assert q / o.buyQuantity.value * o.freeQuantity.value >= 0;
  }

  /** With one BOGO ad the charge is exactly the units asked for. */
  lemma BogoRoundTrip(o: Offer, q: nat, unitPrice: real, best: real)
    requires ValidOffer(o) && IsBogo(o) && unitPrice >= 0.0
    requires IsBest([o], StoredQuantity([o], q), unitPrice, best) && best >= 0.0
    ensures unitPrice * StoredQuantity([o], q) as real - best == unitPrice * q as real
  {
    hide Off;
    var bonus := BonusUnits([o], q);
    OneOffer(o, q);
    BundlesSurvive(o.buyQuantity.value, o.freeQuantity.value, q);
    OneOfferBest(o, q + bonus, unitPrice, best);
    ChargeSplits(q, bonus, unitPrice);
  }

  /** Any quantity is its whole bundles' paid and free units, and what is left over. */
  lemma BundleParts(buy: int, free: int, stock: nat)
    requires buy >= 1 && free >= 1
    ensures var m, r := stock / (buy + free), stock % (buy + free);
      m * buy >= 0 && m * free >= 0 && stock == m * buy + m * free + r && FreeUnits(buy, free, stock) == m * free
  {
    var m, r := stock / (buy + free), stock % (buy + free);
    assert m * (buy + free) == m * buy + m * free;
    assert stock == m * (buy + free) + r;
    TimesMonotone(0, m, buy);
    TimesMonotone(0, m, free);
  }

  lemma CheaperExactly(paid: nat, q: nat, unitPrice: real)
    requires unitPrice > 0.0
    ensures unitPrice * paid as real <= unitPrice * q as real <==> paid <= q
  {
    if paid <= q {
      ScaleMonotone(paid as real, q as real, unitPrice);
    } else {
      ScaleMonotone((q + 1) as real, paid as real, unitPrice);
      assert (q + 1) as real * unitPrice == q as real * unitPrice + unitPrice;
    }
  }

  lemma ScaleExactly(a: real, b: real, c: real)
    requires c > 0.0
    ensures c * a <= c * b <==> a <= b
  {
    if a <= b {
      ScaleMonotone(a, b, c);
    } else {
      assert c * (a - b) == c * a - c * b && c * (a - b) > 0.0;
    }
  }

  /**
   * An ad gives the units beyond `q` away, by its own terms: its percentage of all units is as many
   * units, its amount on each is as much money, or what its whole bundles leave over fits the paid
   * units that those bundles do not use.
   */
  predicate Covers(o: Offer, q: nat, stored: nat, unitPrice: real)
    requires ValidOffer(o)
  {
    if o.discountType.Percentage? && o.discountValue.Some? then
      o.discountValue.value * stored as real >= 100.0 * (stored - q) as real
    else if o.discountType.FixedAmount? && o.discountValue.Some? then
      o.discountValue.value * stored as real >= unitPrice * (stored - q) as real
    else if IsBundle(o) then
      var bundle := o.buyQuantity.value + o.freeQuantity.value;
      stored % bundle <= q - stored / bundle * o.buyQuantity.value
    else false
  }

  lemma PercentageCovers(percent: real, extra: nat, stored: nat, unitPrice: real)
    requires unitPrice > 0.0
    ensures PercentOf(percent, unitPrice * stored as real) >= unitPrice * extra as real <==>
      percent * stored as real >= 100.0 * extra as real
  {
    var units := percent * stored as real / 100.0;
    assert PercentOf(percent, unitPrice * stored as real) == unitPrice * units;
    ScaleExactly(extra as real, units, unitPrice);
  }

  lemma BundleCovers(o: Offer, q: nat, stored: nat, unitPrice: real)
    requires ValidOffer(o) && IsBundle(o) && q < stored && unitPrice > 0.0
    requires o.discountType.Bogo? || o.discountValue.None?
    ensures Off(o, stored, unitPrice) >= unitPrice * (stored - q) as real <==> Covers(o, q, stored, unitPrice)
  {
    var buy, free := o.buyQuantity.value, o.freeQuantity.value;
    BundleParts(buy, free, stored);
    var units := FreeUnits(buy, free, stored);
    hide FreeUnits;
    assert Off(o, stored, unitPrice) == unitPrice * units as real;
    ScaleExactly((stored - q) as real, units as real, unitPrice);
  }

  lemma CoversExactly(o: Offer, q: nat, stored: nat, unitPrice: real)
    requires ValidOffer(o) && q < stored && unitPrice > 0.0
    ensures Off(o, stored, unitPrice) >= unitPrice * (stored - q) as real <==> Covers(o, q, stored, unitPrice)
  {
    ScaleMonotone((stored - q) as real, stored as real, unitPrice);
    if o.discountType.Percentage? && o.discountValue.Some? {
      PercentageCovers(o.discountValue.value, stored - q, stored, unitPrice);
    } else if o.discountType.FixedAmount? && o.discountValue.Some? {
    } else if IsBundle(o) {
      BundleCovers(o, q, stored, unitPrice);
    } else {
      ScaleExactly((stored - q) as real, 0.0, unitPrice);
    }
  }

  /**
   * Whatever ads are live and however stock cuts the bonus short: checkout on the stored quantity
   * charges at most the units asked for exactly when nothing was added, the goods cost nothing, or
   * some ad covers the added units.
   */
  lemma CappedBoundExactly(offers: seq<Offer>, q: nat, stored: nat, unitPrice: real, best: real)
    requires ValidOffers(offers) && q <= stored && unitPrice >= 0.0 && IsBest(offers, stored, unitPrice, best)
    ensures unitPrice * stored as real - best <= unitPrice * q as real <==>
      q == stored || unitPrice == 0.0 || exists k :: 0 <= k < |offers| && Covers(offers[k], q, stored, unitPrice)
  {
    hide Off, Covers;
    var price := unitPrice * (stored - q) as real;
    ChargeSplits(q, stored - q, unitPrice);
    forall k | 0 <= k < |offers|
      ensures Off(offers[k], stored, unitPrice) >= 0.0
      ensures q < stored && unitPrice > 0.0 ==> (Off(offers[k], stored, unitPrice) >= price <==> Covers(offers[k], q, stored, unitPrice))
    {
      OffWithinTotal(offers[k], stored, unitPrice);
      if q < stored && unitPrice > 0.0 {
        CoversExactly(offers[k], q, stored, unitPrice);
      }
    }
    if q < stored && unitPrice > 0.0 {
      ScaleExactly((stored - q) as real, 0.0, unitPrice);
    }
  }

  /**
   * When stock cuts the bonus short the bound can fail. With one BOGO ad it holds exactly when the
   * units left over from whole bundles are no more than the paid units those bundles do not use.
   */
  lemma CappedBonus(o: Offer, q: nat, stock: nat, unitPrice: real, best: real)
    requires ValidOffer(o) && IsBogo(o) && unitPrice > 0.0
    requires q <= stock && IsBest([o], stock, unitPrice, best) && best >= 0.0
    ensures var bundle := o.buyQuantity.value + o.freeQuantity.value;
      unitPrice * stock as real - best <= unitPrice * q as real <==>
        stock % bundle <= q - stock / bundle * o.buyQuantity.value
  {
    var buy, free := o.buyQuantity.value, o.freeQuantity.value;
    BundleParts(buy, free, stock);
    hide FreeUnits;
    var paid, bonus := stock / (buy + free) * buy + stock % (buy + free), FreeUnits(buy, free, stock);
    OneOfferBest(o, stock, unitPrice, best);
    PaidFor(paid, bonus, q, unitPrice, best);
  }

  /** One BOGO ad's best discount is its free units' price. */
  lemma OneOfferBest(o: Offer, quantity: nat, unitPrice: real, best: real)
    requires ValidOffer(o) && IsBogo(o) && unitPrice >= 0.0
    requires IsBest([o], quantity, unitPrice, best) && best >= 0.0
    ensures FreeUnits(o.buyQuantity.value, o.freeQuantity.value, quantity) >= 0
    ensures best == FreeUnits(o.buyQuantity.value, o.freeQuantity.value, quantity) as real * unitPrice
  {
    var bonus := FreeUnits(o.buyQuantity.value, o.freeQuantity.value, quantity);
    FreeUnitsBounds(o.buyQuantity.value, o.freeQuantity.value, quantity);
    hide FreeUnits;
    assert Off([o][0], quantity, unitPrice) == bonus as real * unitPrice;
    ScaleMonotone(0.0, bonus as real, unitPrice);
  }

  lemma PaidFor(paid: nat, bonus: nat, q: nat, unitPrice: real, best: real)
    requires unitPrice > 0.0 && best == bonus as real * unitPrice
    ensures unitPrice * (paid + bonus) as real - best <= unitPrice * q as real <==> paid <= q
  {
    ChargeSplits(paid, bonus, unitPrice);
    CheaperExactly(paid, q, unitPrice);
  }

  /** Buy one, get two: asking for two with five in stock is charged for three. */
  lemma CappedBonusCostsMore(best: real)
    requires var o := Offer("ad", Bogo, None, Some(1), Some(2));
      ValidOffers([o]) && IsBest([o], Min(2 + BonusUnits([o], 2), 5), 1.0, best)
    ensures 1.0 * 5.0 - best == 3.0
  {
    var o := Offer("ad", Bogo, None, Some(1), Some(2));
    assert BonusUnits([o], 2) == Max(BonusUnits([], 2), Earned([o][0], 2)) by {
      assert [o][..0] == [];
    }
    assert Off([o][0], 5, 1.0) == 2.0;
  }
}
