/**
 Coupons: one pure decision shared by the cart display and the charge, and the
 rounding gap between the discount previewed for a whole basket and the discount
 charged unit by unit (internal/order/coupon.go).
 */
module Coupons {
  import opened Options
  import opened Sums
  import opened Pricing

  datatype Coupon = Coupon(id: int, code: string, percentOff: int, minBasketMinor: int,
                           maxRedemptions: Option<int>, startsAt: int, expiresAt: Option<int>, active: bool)

  datatype Reason = Fine | NotFound | NotActive | NotStarted | Expired | MinBasket | Exhausted

  datatype CouponValidation = CouponValidation(valid: bool, percentOff: int, discountMinor: int, reason: Reason)

  function ResolveCoupon(c: Option<Coupon>, subtotalMinor: int, redemptions: int, now: int): CouponValidation {
    if c.None? then CouponValidation(false, 0, 0, NotFound)
    else
      var k := c.value;
      if !k.active then CouponValidation(false, k.percentOff, 0, NotActive)
      else if now < k.startsAt then CouponValidation(false, k.percentOff, 0, NotStarted)
      else if k.expiresAt.Some? && k.expiresAt.value <= now then CouponValidation(false, k.percentOff, 0, Expired)
      else if subtotalMinor < k.minBasketMinor then CouponValidation(false, k.percentOff, 0, MinBasket)
      else if k.maxRedemptions.Some? && redemptions >= k.maxRedemptions.value
      then CouponValidation(false, k.percentOff, 0, Exhausted)
      else CouponValidation(true, k.percentOff, BasketDiscountMinor(subtotalMinor, k.percentOff), Fine)
  }

  /** The state of the coupon tables and the clock, as one checkout or display sees it. */
  datatype CouponView = CouponView(coupon: Option<Coupon>, redemptions: int, now: int)

  /** The percentage that applies: an invalid coupon is dropped silently. */
  function CouponPct(view: CouponView, subtotalMinor: int): int {
    var v := ResolveCoupon(view.coupon, subtotalMinor, view.redemptions, view.now);
    if v.valid then v.percentOff else 0
  }

  /** A coupon applies exactly when it is active, running, affordable and not used up. */
  lemma {:induction false} CouponValidIff(c: Coupon, subtotal: int, redemptions: int, now: int)
    ensures ResolveCoupon(Some(c), subtotal, redemptions, now).valid <==>
      && c.active && c.startsAt <= now
      && (c.expiresAt.Some? ==> now < c.expiresAt.value)
      && c.minBasketMinor <= subtotal
      && (c.maxRedemptions.Some? ==> redemptions < c.maxRedemptions.value)
    ensures ResolveCoupon(Some(c), subtotal, redemptions, now).valid
       <==> ResolveCoupon(Some(c), subtotal, redemptions, now).reason == Fine
  { }

  /** The five conditions under which a coupon applies. */
  predicate Applies(c: Coupon, subtotal: int, redemptions: int, now: int) {
    && c.active && c.startsAt <= now
    && (c.expiresAt.Some? ==> now < c.expiresAt.value)
    && c.minBasketMinor <= subtotal
    && (c.maxRedemptions.Some? ==> redemptions < c.maxRedemptions.value)
  }

  /** The charge takes the coupon's own percentage when it applies, and nothing otherwise. */
  lemma {:induction false} CouponPctIs(view: CouponView, subtotal: int)
    ensures CouponPct(view, subtotal) ==
      if view.coupon.Some? && Applies(view.coupon.value, subtotal, view.redemptions, view.now)
      then view.coupon.value.percentOff else 0
  {
    if view.coupon.Some? { CouponValidIff(view.coupon.value, subtotal, view.redemptions, view.now); }
  }

  /** What the buyer is told: the preview of a coupon that applies, the first failing condition of one that does not. */
  lemma {:induction false} CouponAnswer(c: Option<Coupon>, subtotal: int, redemptions: int, now: int)
    ensures var v := ResolveCoupon(c, subtotal, redemptions, now);
      && (c.None? ==> !v.valid && v.reason == NotFound && v.percentOff == 0 && v.discountMinor == 0)
      && (c.Some? ==>
            var k := c.value;
            && (v.valid <==> Applies(k, subtotal, redemptions, now))
            && v.percentOff == k.percentOff
            && v.discountMinor == (if Applies(k, subtotal, redemptions, now)
                                   then BasketDiscountMinor(subtotal, k.percentOff) else 0)
            && (v.reason == NotActive <==> !k.active)
            && (v.reason == NotStarted <==> k.active && now < k.startsAt)
            && (v.reason == Expired ==> k.expiresAt.Some? && k.expiresAt.value <= now)
            && (v.reason == MinBasket ==> subtotal < k.minBasketMinor)
            && (v.reason == Exhausted ==> k.maxRedemptions.Some? && redemptions >= k.maxRedemptions.value))
  { }

  // ---- preview against charge ----

  /** Units of a basket: a basket-discounted unit price and how many of it. */
  datatype Units = Units(unitMinor: int, qty: int)

  predicate RealUnits(u: Units) { u.unitMinor >= 0 && u.qty >= 0 }

  function Subtotal(basket: seq<Units>): int { SumBy(basket, (u: Units) => u.unitMinor * u.qty) }
  function Quantity(basket: seq<Units>): int { SumBy(basket, (u: Units) => u.qty) }

  /** What the coupon takes off when it is applied to each unit. */
  function ChargedDiscount(basket: seq<Units>, pct: int): int {
    SumBy(basket, (u: Units) => BasketDiscountMinor(u.unitMinor, pct) * u.qty)
  }

  /** What rounding one unit adds, in hundredths of a minor unit: between -49 and 50. */
  function RoundingGain(unitMinor: int, pct: int): int {
    var r := (unitMinor * pct) % 100;
    if r < 50 then -r else 100 - r
  }

  function TotalGain(basket: seq<Units>, pct: int): int {
    SumBy(basket, (u: Units) => RoundingGain(u.unitMinor, pct) * u.qty)
  }

  lemma {:induction false} GainOfUnit(base: int, pct: int)
    requires base >= 0 && 0 <= pct <= 100
    ensures 100 * BasketDiscountMinor(base, pct) == base * pct + RoundingGain(base, pct)
    ensures -49 <= RoundingGain(base, pct) <= 50
  { }

  lemma {:induction false} GainOfUnits(u: Units, pct: int)
    requires 0 <= pct <= 100 && RealUnits(u)
    ensures 100 * (BasketDiscountMinor(u.unitMinor, pct) * u.qty)
         == (u.unitMinor * u.qty) * pct + RoundingGain(u.unitMinor, pct) * u.qty
    ensures -49 * u.qty <= RoundingGain(u.unitMinor, pct) * u.qty <= 50 * u.qty
    ensures u.unitMinor * u.qty >= 0
  {
    GainOfUnit(u.unitMinor, pct);
    GainTimes(BasketDiscountMinor(u.unitMinor, pct), RoundingGain(u.unitMinor, pct), u.unitMinor, pct, u.qty);
  }

  lemma {:induction false} GainTimes(d: int, g: int, base: int, pct: int, qty: int)
    requires 100 * d == base * pct + g && -49 <= g <= 50 && base >= 0 && qty >= 0
    ensures 100 * (d * qty) == (base * qty) * pct + g * qty
    ensures -49 * qty <= g * qty <= 50 * qty
    ensures base * qty >= 0
  { }

  lemma {:induction false} Distribute(a: int, b: int, c: int)
    ensures (a + b) * c == a * c + b * c
  { }

  lemma {:induction false} ChargedExactly(basket: seq<Units>, pct: int)
    requires 0 <= pct <= 100
    requires forall i :: 0 <= i < |basket| ==> RealUnits(basket[i])
    ensures 100 * ChargedDiscount(basket, pct) == Subtotal(basket) * pct + TotalGain(basket, pct)
    ensures Subtotal(basket) >= 0
    ensures -49 * Quantity(basket) <= TotalGain(basket, pct) <= 50 * Quantity(basket)
  {
    if |basket| > 0 {
      var front, u := basket[..|basket| - 1], basket[|basket| - 1];
      ChargedExactly(front, pct);
      GainOfUnits(u, pct);
      var s, t := Subtotal(front), u.unitMinor * u.qty;
      assert Subtotal(basket) == s + t;
      assert Quantity(basket) == Quantity(front) + u.qty;
      assert TotalGain(basket, pct) == TotalGain(front, pct) + RoundingGain(u.unitMinor, pct) * u.qty;
      assert ChargedDiscount(basket, pct)
          == ChargedDiscount(front, pct) + BasketDiscountMinor(u.unitMinor, pct) * u.qty;
      Distribute(s, t, pct);
    }
  }

  /** Percentages outside 0..100 act like the nearer end. */
  function Clamped(pct: int): int { if pct < 0 then 0 else if pct > 100 then 100 else pct }

  lemma {:induction false} ClampedCharges(basket: seq<Units>, pct: int)
    ensures ChargedDiscount(basket, pct) == ChargedDiscount(basket, Clamped(pct))
    ensures BasketDiscountMinor(Subtotal(basket), pct) == BasketDiscountMinor(Subtotal(basket), Clamped(pct))
  {
    SumByEqual(basket, (u: Units) => BasketDiscountMinor(u.unitMinor, pct) * u.qty,
               (u: Units) => BasketDiscountMinor(u.unitMinor, Clamped(pct)) * u.qty);
  }

  /**
   For every basket of Q units and every percentage, the per-unit charge stays within
   a fixed distance of the whole-basket preview.
   */
  lemma {:induction false} PreviewGapBounded(basket: seq<Units>, pct: int)
    requires forall i :: 0 <= i < |basket| ==> RealUnits(basket[i])
    ensures var gap := ChargedDiscount(basket, pct) - BasketDiscountMinor(Subtotal(basket), pct);
      -(49 * Quantity(basket) + 50) <= 100 * gap <= 50 * Quantity(basket) + 49
  {
    ClampedCharges(basket, pct);
    ChargedExactly(basket, Clamped(pct));
    GainOfUnit(Subtotal(basket), Clamped(pct));
  }

  /**
   The charge equals the preview exactly when the rounding gains of the units add
   up to less than half a minor unit either way.
   */
  lemma {:induction false} PreviewExactIff(basket: seq<Units>, pct: int)
    requires forall i :: 0 <= i < |basket| ==> RealUnits(basket[i])
    ensures ChargedDiscount(basket, pct) == BasketDiscountMinor(Subtotal(basket), pct)
       <==> -49 <= TotalGain(basket, Clamped(pct)) <= 50
  {
    var q := Clamped(pct);
    ClampedCharges(basket, pct);
    ChargedExactly(basket, q);
    GainOfUnit(Subtotal(basket), q);
    var c, p, s := ChargedDiscount(basket, q), BasketDiscountMinor(Subtotal(basket), q), Subtotal(basket) * q;
    assert 100 * c - s == TotalGain(basket, q) && -49 <= 100 * p - s <= 50;
  }

  /** Two units of 5 at 10%: previewed 1, charged 2. */
  lemma {:induction false} PreviewCanDiffer()
    ensures ChargedDiscount([Units(5, 2)], 10) == 2
    ensures BasketDiscountMinor(Subtotal([Units(5, 2)]), 10) == 1
  { }
}
