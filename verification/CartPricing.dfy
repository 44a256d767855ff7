/**
 Cart lines and what they cost: the specification both the cart display
 (cmd/core-svc/cart_enrich.go) and the checkout (internal/order/saga.go) are proved
 against.
 */
module CartPricing {
  import opened Options
  import opened Sums
  import opened Pricing
  import opened Coupons

  datatype Variant = Variant(id: int, sellerId: int, categoryId: int, priceMinor: int, basketPct: Option<int>)
  datatype CartItem = CartItem(variantId: int, qty: int)
  datatype Commission = Commission(bps: int, kdvBps: int)
  datatype Catalog = Catalog(variants: map<int, Variant>, commissions: map<int, Commission>)

  /** A cart item together with the variant it resolved to. */
  datatype Line = Line(item: CartItem, variant: Variant)

  /** The lines whose variant exists, in cart order. */
  function Resolved(items: seq<CartItem>, variants: map<int, Variant>): seq<Line> {
    if |items| == 0 then []
    else
      var it := items[|items| - 1];
      Resolved(items[..|items| - 1], variants)
      + (if it.variantId in variants then [Line(it, variants[it.variantId])] else [])
  }

  /** The basket-discounted unit price. */
  function BasketUnit(l: Line): int { DiscountedUnitMinor(l.variant.priceMinor, BasketPctOf(l.variant.basketPct)) }

  /** The charged unit price: the coupon comes off the basket price. */
  function ChargedUnit(l: Line, couponPct: int): int { DiscountedUnitMinor(BasketUnit(l), couponPct) }

  // Measures of a line, named so that sums over them can be compared.
  function SellerOf(): Line -> int { (l: Line) => l.variant.sellerId }
  function ListGross(): Line -> int { (l: Line) => l.variant.priceMinor * l.item.qty }
  function BasketGross(): Line -> int { (l: Line) => BasketUnit(l) * l.item.qty }
  function ChargedGross(pct: int): Line -> int { (l: Line) => ChargedUnit(l, pct) * l.item.qty }
  function SellerGross(pct: int, seller: int): Line -> int { Where(SellerOf(), seller, ChargedGross(pct)) }
  function BasketOff(): Line -> int { (l: Line) => (l.variant.priceMinor - BasketUnit(l)) * l.item.qty }
  function CouponOff(pct: int): Line -> int { (l: Line) => (BasketUnit(l) - ChargedUnit(l, pct)) * l.item.qty }

  function BasketSubtotal(lines: seq<Line>): int { SumBy(lines, BasketGross()) }
  function GrandTotal(lines: seq<Line>, pct: int): int { SumBy(lines, ChargedGross(pct)) }
  function SellerTotal(lines: seq<Line>, pct: int, seller: int): int { SumBy(lines, SellerGross(pct, seller)) }

  function SellerTotals(lines: seq<Line>, pct: int): int -> int { s => SellerTotal(lines, pct, s) }

  /** The percentage a coupon view grants a cart. */
  function PctFor(lines: seq<Line>, view: CouponView): int { CouponPct(view, BasketSubtotal(lines)) }

  /** Sellers in the order the cart first mentions them. */
  function FirstSeen(lines: seq<Line>): seq<int> {
    if |lines| == 0 then []
    else
      var front, s := FirstSeen(lines[..|lines| - 1]), lines[|lines| - 1].variant.sellerId;
      if s in front then front else front + [s]
  }

  lemma {:induction false} FirstSeenComplete(lines: seq<Line>)
    ensures NoDuplicates(FirstSeen(lines))
    ensures forall i :: 0 <= i < |lines| ==> lines[i].variant.sellerId in FirstSeen(lines)
    ensures forall s :: s in FirstSeen(lines) ==> exists i :: 0 <= i < |lines| && lines[i].variant.sellerId == s
  {
    if |lines| > 0 {
      var front := lines[..|lines| - 1];
      FirstSeenComplete(front);
      forall i | 0 <= i < |lines| ensures lines[i].variant.sellerId in FirstSeen(lines) {
        if i < |front| { assert front[i] == lines[i]; }
      }
      forall s | s in FirstSeen(lines) ensures exists i :: 0 <= i < |lines| && lines[i].variant.sellerId == s {
        if s in FirstSeen(front) {
          var i :| 0 <= i < |front| && front[i].variant.sellerId == s;
          assert lines[i].variant.sellerId == s;
        } else {
          assert lines[|lines| - 1].variant.sellerId == s;
        }
      }
    }
  }

  lemma {:induction false} FirstSeenAppend(lines: seq<Line>, l: Line, s: int)
    ensures s in FirstSeen(lines + [l]) <==> s in FirstSeen(lines) || s == l.variant.sellerId
  {
    assert (lines + [l])[..|lines|] == lines;
  }

  // ---- what the coupon takes off ----

  /** The basket as units at their basket price. */
  function UnitsIn(lines: seq<Line>): seq<Units> {
    if |lines| == 0 then []
    else
      var l := lines[|lines| - 1];
      UnitsIn(lines[..|lines| - 1]) + [Units(BasketUnit(l), l.item.qty)]
  }

  /** The charge is the basket subtotal less the per-unit discounts of the coupon. */
  lemma {:induction false} CouponTakesOff(lines: seq<Line>, pct: int)
    ensures Subtotal(UnitsIn(lines)) == BasketSubtotal(lines)
    ensures BasketSubtotal(lines) - GrandTotal(lines, pct) == ChargedDiscount(UnitsIn(lines), pct)
  {
    if |lines| > 0 {
      var front, l := lines[..|lines| - 1], lines[|lines| - 1];
      var u := Units(BasketUnit(l), l.item.qty);
      CouponTakesOff(front, pct);
      SumByAppend(UnitsIn(front), u, (u: Units) => u.unitMinor * u.qty);
      SumByAppend(UnitsIn(front), u, (u: Units) => BasketDiscountMinor(u.unitMinor, pct) * u.qty);
      TakenOff(BasketUnit(l), BasketDiscountMinor(BasketUnit(l), pct), l.item.qty);
    }
  }

  lemma {:induction false} TakenOff(unit: int, off: int, qty: int)
    ensures unit * qty - (unit - off) * qty == off * qty
  { }

  lemma {:induction false} UnitsAreReal(lines: seq<Line>)
    requires forall i :: 0 <= i < |lines| ==> lines[i].variant.priceMinor >= 0 && lines[i].item.qty >= 0
    ensures |UnitsIn(lines)| == |lines| && forall i :: 0 <= i < |lines| ==> RealUnits(UnitsIn(lines)[i])
  {
    if |lines| > 0 {
      var l := lines[|lines| - 1];
      UnitsAreReal(lines[..|lines| - 1]);
      DiscountedUnitInRange(l.variant.priceMinor, BasketPctOf(l.variant.basketPct));
    }
  }

  /**
   What a coupon takes off a cart: its own percentage unit by unit when it applies, within
   the bound of PreviewGapBounded of the discount the buyer was shown; nothing otherwise.
   */
  lemma {:induction false} CouponCharge(lines: seq<Line>, view: CouponView)
    requires forall i :: 0 <= i < |lines| ==> lines[i].variant.priceMinor >= 0 && lines[i].item.qty >= 0
    ensures var off := BasketSubtotal(lines) - GrandTotal(lines, PctFor(lines, view));
      var shown := ResolveCoupon(view.coupon, BasketSubtotal(lines), view.redemptions, view.now).discountMinor;
      if view.coupon.Some? && Applies(view.coupon.value, BasketSubtotal(lines), view.redemptions, view.now)
      then
        && off == ChargedDiscount(UnitsIn(lines), view.coupon.value.percentOff)
        && -(49 * Quantity(UnitsIn(lines)) + 50) <= 100 * (off - shown) <= 50 * Quantity(UnitsIn(lines)) + 49
      else off == 0 && shown == 0
  {
    var subtotal, pct := BasketSubtotal(lines), PctFor(lines, view);
    CouponPctIs(view, subtotal);
    CouponAnswer(view.coupon, subtotal, view.redemptions, view.now);
    CouponTakesOff(lines, pct);
    if view.coupon.Some? && Applies(view.coupon.value, subtotal, view.redemptions, view.now) {
      UnitsAreReal(lines);
      PreviewGapBounded(UnitsIn(lines), pct);
    } else {
      NothingOff(UnitsIn(lines));
    }
  }

  lemma {:induction false} NothingOff(basket: seq<Units>)
    ensures ChargedDiscount(basket, 0) == 0
  {
    SumByZero(basket, (u: Units) => BasketDiscountMinor(u.unitMinor, 0) * u.qty);
  }

  lemma {:induction false} Complement(base: int, pct: int)
    ensures base * (100 - pct) == 100 * base - base * pct
  { }

  lemma {:induction false} UnitRounds(base: int, pct: int)
    requires base >= 0 && 0 <= pct <= 100
    ensures -50 <= 100 * DiscountedUnitMinor(base, pct) - base * (100 - pct) < 50
  {
    DiscountRoundsHalfUp(base, pct);
    Complement(base, pct);
  }

  /** The two roundings of a charged unit: each within half a minor unit of its exact percentage. */
  lemma {:induction false} ChargedUnitRounds(l: Line, pct: int)
    requires l.variant.priceMinor >= 0 && 0 <= pct <= 100
    ensures var p := BasketPctOf(l.variant.basketPct);
      && 0 <= p <= 100
      && -50 <= 100 * BasketUnit(l) - l.variant.priceMinor * (100 - p) < 50
      && -50 <= 100 * ChargedUnit(l, pct) - BasketUnit(l) * (100 - pct) < 50
  {
    var p := BasketPctOf(l.variant.basketPct);
    DiscountedUnitInRange(l.variant.priceMinor, p);
    UnitRounds(l.variant.priceMinor, p);
    UnitRounds(BasketUnit(l), pct);
  }

  // ---- the order of the cart does not matter ----

  /** A measure of an item: that of its line, or nothing when the variant is gone. */
  function OfItem(variants: map<int, Variant>, f: Line -> int): CartItem -> int {
    (it: CartItem) => if it.variantId in variants then f(Line(it, variants[it.variantId])) else 0
  }

  lemma {:induction false} ResolvedSum(items: seq<CartItem>, variants: map<int, Variant>, f: Line -> int)
    ensures SumBy(Resolved(items, variants), f) == SumBy(items, OfItem(variants, f))
  {
    if |items| > 0 {
      var front, it := items[..|items| - 1], items[|items| - 1];
      ResolvedSum(front, variants, f);
      if it.variantId in variants {
        SumByAppend(Resolved(front, variants), Line(it, variants[it.variantId]), f);
      } else {
        assert Resolved(front, variants) + [] == Resolved(front, variants);
      }
    }
  }

  lemma {:induction false} MeasureIgnoresOrder(items: seq<CartItem>, items': seq<CartItem>,
                                               variants: map<int, Variant>, f: Line -> int)
    requires multiset(items) == multiset(items')
    ensures SumBy(Resolved(items, variants), f) == SumBy(Resolved(items', variants), f)
  {
    ResolvedSum(items, variants, f);
    ResolvedSum(items', variants, f);
    SumByPermutation(items, items', OfItem(variants, f));
  }

  lemma {:induction false} CouponIgnoresOrder(items: seq<CartItem>, items': seq<CartItem>,
                                              variants: map<int, Variant>, view: CouponView)
    requires multiset(items) == multiset(items')
    ensures PctFor(Resolved(items, variants), view) == PctFor(Resolved(items', variants), view)
  {
    MeasureIgnoresOrder(items, items', variants, BasketGross());
  }

  /** Coupon decision, grand total and every seller's total are those of any reordering. */
  lemma {:induction false} TotalsIgnoreOrder(items: seq<CartItem>, items': seq<CartItem>, variants: map<int, Variant>,
                                             view: CouponView, seller: int)
    requires multiset(items) == multiset(items')
    ensures var lines, lines' := Resolved(items, variants), Resolved(items', variants);
      && PctFor(lines', view) == PctFor(lines, view)
      && GrandTotal(lines', PctFor(lines', view)) == GrandTotal(lines, PctFor(lines, view))
      && SellerTotal(lines', PctFor(lines', view), seller) == SellerTotal(lines, PctFor(lines, view), seller)
  {
    var pct := PctFor(Resolved(items, variants), view);
    CouponIgnoresOrder(items, items', variants, view);
    MeasureIgnoresOrder(items, items', variants, ChargedGross(pct));
    MeasureIgnoresOrder(items, items', variants, SellerGross(pct, seller));
  }

  /** The totals of the sellers, visited in any order without repetition, add up to the grand total. */
  lemma {:induction false} SellersSumToGrand(lines: seq<Line>, pct: int, sellers: seq<int>)
    requires NoDuplicates(sellers)
    requires forall i :: 0 <= i < |lines| ==> lines[i].variant.sellerId in sellers
    ensures SumBy(sellers, SellerTotals(lines, pct)) == GrandTotal(lines, pct)
  {
    GroupsSumToWhole(lines, sellers, SellerOf(), ChargedGross(pct));
    SumByEqual(sellers, GroupSum(lines, SellerOf(), ChargedGross(pct)), SellerTotals(lines, pct));
  }

  lemma {:induction false} GapOfUnit(list: int, basket: int, charged: int, qty: int)
    ensures list * qty == charged * qty + (list - basket) * qty + (basket - charged) * qty
  { }

  /** List price = charge + basket discount + coupon discount. */
  lemma {:induction false} DiscountsAccountForGap(lines: seq<Line>, pct: int)
    ensures SumBy(lines, ListGross())
         == GrandTotal(lines, pct) + SumBy(lines, BasketOff()) + SumBy(lines, CouponOff(pct))
  {
    if |lines| > 0 {
      var l := lines[|lines| - 1];
      DiscountsAccountForGap(lines[..|lines| - 1], pct);
      GapOfUnit(l.variant.priceMinor, BasketUnit(l), ChargedUnit(l, pct), l.item.qty);
    }
  }
}
