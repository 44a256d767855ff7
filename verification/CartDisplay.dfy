/** The cart as shown to the buyer (cmd/core-svc/cart_enrich.go). */
module CartDisplay {
  import opened Sets
  import opened Sums
  import opened Pricing
  import opened Coupons
  import opened CartPricing

  datatype SellerRow = SellerRow(sellerId: int, totalMinor: int)

  datatype Display = Display(lines: seq<Line>, totalsBySeller: seq<SellerRow>, grandTotalMinor: int,
                             basketDiscountMinor: int, couponDiscountMinor: int)

  /** What a display of the cart promises. */
  ghost predicate DisplayOk(out: Display, items: seq<CartItem>, variants: map<int, Variant>, view: CouponView) {
    && out.lines == Resolved(items, variants)
    && var pct := PctFor(out.lines, view);
    && out.grandTotalMinor == GrandTotal(out.lines, pct)
    && |out.totalsBySeller| == |FirstSeen(out.lines)|
    && (forall i :: 0 <= i < |out.totalsBySeller| ==>
          out.totalsBySeller[i] == SellerRow(FirstSeen(out.lines)[i],
                                             SellerTotal(out.lines, pct, FirstSeen(out.lines)[i])))
    && out.grandTotalMinor + out.basketDiscountMinor + out.couponDiscountMinor == SumBy(out.lines, ListGross())
  }

  datatype Acc = Acc(items: int, order: nat)

  /** Resolves the cart, skipping items whose variant is gone. */
  method ResolveItems(items: seq<CartItem>, variants: map<int, Variant>) returns (lines: seq<Line>)
    ensures lines == Resolved(items, variants)
  {
    lines := [];
    for i := 0 to |items|
      invariant lines == Resolved(items[..i], variants)
    {
      assert items[..i + 1][..i] == items[..i];
      var it := items[i];
      if it.variantId in variants { lines := lines + [Line(it, variants[it.variantId])]; }
    }
    assert items[..|items|] == items;
  }

  method SubtotalOf(lines: seq<Line>) returns (subtotal: int)
    ensures subtotal == BasketSubtotal(lines)
  {
    subtotal := 0;
    for i := 0 to |lines|
      invariant subtotal == BasketSubtotal(lines[..i])
    {
      assert lines[..i + 1][..i] == lines[..i];
      ReadingsAgree(lines[i].variant.priceMinor, lines[i].variant.basketPct);
      var unit := DiscountedUnitMinor(lines[i].variant.priceMinor, RawPct(lines[i].variant.basketPct));
      subtotal := subtotal + unit * lines[i].item.qty;
    }
    assert lines[..|lines|] == lines;
  }

  /** The accumulators after a prefix of the lines. */
  ghost predicate Accumulated(totals: map<int, Acc>, lines: seq<Line>, pct: int) {
    && |totals| == |FirstSeen(lines)|
    && (forall s :: s in totals <==> s in FirstSeen(lines))
    && (forall s :: s in totals ==> AccOk(totals[s], lines, pct, s))
  }

  predicate AccOk(acc: Acc, lines: seq<Line>, pct: int, s: int) {
    && acc.order < |FirstSeen(lines)| && FirstSeen(lines)[acc.order] == s
    && acc.items == SellerTotal(lines, pct, s)
  }

  lemma {:induction false} SellerTotalAppend(lines: seq<Line>, l: Line, pct: int, s: int)
    ensures SellerTotal(lines + [l], pct, s)
         == SellerTotal(lines, pct, s) + (if l.variant.sellerId == s then ChargedGross(pct)(l) else 0)
  { }

  lemma {:induction false} UnseenSellerHasNoTotal(lines: seq<Line>, pct: int, s: int)
    requires s !in FirstSeen(lines)
    ensures SellerTotal(lines, pct, s) == 0
  {
    FirstSeenComplete(lines);
    SumByZero(lines, SellerGross(pct, s));
  }

  method AddToSeller(totals: map<int, Acc>, ghost lines: seq<Line>, l: Line, pct: int, lineTotal: int)
    returns (totals': map<int, Acc>)
    requires Accumulated(totals, lines, pct) && lineTotal == ChargedGross(pct)(l)
    ensures Accumulated(totals', lines + [l], pct)
  {
    var s := l.variant.sellerId;
    var acc := if s in totals then totals[s] else Acc(0, |totals|);
    acc := acc.(items := acc.items + lineTotal);
    totals' := totals[s := acc];
    assert (lines + [l])[..|lines|] == lines;
    assert AccOk(acc, lines + [l], pct, s) by {
      SellerTotalAppend(lines, l, pct, s);
      if s !in totals { UnseenSellerHasNoTotal(lines, pct, s); } else { assert AccOk(totals[s], lines, pct, s); }
    }
    forall q | q in totals && q != s ensures AccOk(totals[q], lines + [l], pct, q) {
      assert AccOk(totals[q], lines, pct, q);
      SellerTotalAppend(lines, l, pct, q);
    }
    forall q { FirstSeenAppend(lines, l, q); }
  }

  lemma {:induction false} OrderIsPosition(totals: map<int, Acc>, lines: seq<Line>, pct: int, i: nat)
    requires Accumulated(totals, lines, pct) && i < |FirstSeen(lines)|
    ensures var s := FirstSeen(lines)[i];
      s in totals && totals[s].order == i && totals[s].items == SellerTotal(lines, pct, s)
  {
    FirstSeenComplete(lines);
    assert AccOk(totals[FirstSeen(lines)[i]], lines, pct, FirstSeen(lines)[i]);
  }

  lemma {:induction false} SellerIsAt(totals: map<int, Acc>, lines: seq<Line>, pct: int, s: int)
    requires Accumulated(totals, lines, pct) && s in totals
    ensures forall i :: 0 <= i < |FirstSeen(lines)| ==> (FirstSeen(lines)[i] == s <==> i == totals[s].order)
    ensures totals[s].order < |FirstSeen(lines)|
  {
    FirstSeenComplete(lines);
    assert AccOk(totals[s], lines, pct, s);
  }

  /** Fills the sellers into their places, visiting the map in any order. */
  method OrderSellers(totals: map<int, Acc>, ghost lines: seq<Line>, ghost pct: int) returns (ordered: array<int>)
    requires Accumulated(totals, lines, pct)
    ensures ordered[..] == FirstSeen(lines)
  {
    ghost var seen := FirstSeen(lines);
    ordered := new int[|totals|];
    var todo := totals.Keys;
    while todo != {}
      invariant todo <= totals.Keys
      invariant forall i :: 0 <= i < |seen| && seen[i] !in todo ==> ordered[i] == seen[i]
      decreases todo
    {
      var s := Pick(todo);
      SellerIsAt(totals, lines, pct, s);
      ordered[totals[s].order] := s;
      todo := todo - {s};
    }
  }

  /** Emits the totals in first-seen order. */
  method EmitTotals(totals: map<int, Acc>, ghost lines: seq<Line>, ghost pct: int) returns (rows: seq<SellerRow>)
    requires Accumulated(totals, lines, pct)
    ensures |rows| == |FirstSeen(lines)|
    ensures forall i :: 0 <= i < |rows| ==>
      rows[i] == SellerRow(FirstSeen(lines)[i], SellerTotal(lines, pct, FirstSeen(lines)[i]))
  {
    var filled := OrderSellers(totals, lines, pct);
    var ordered := filled[..];
    rows := [];
    for i := 0 to |ordered|
      invariant |rows| == i
      invariant forall k :: 0 <= k < i ==> rows[k] == SellerRow(ordered[k], SellerTotal(lines, pct, ordered[k]))
    {
      OrderIsPosition(totals, lines, pct, i);
      rows := rows + [SellerRow(ordered[i], totals[ordered[i]].items)];
    }
  }

  /** One line of the display: its total and its share of the two discounts. */
  method PriceLine(l: Line, couponPct: int) returns (lineTotal: int, basketOff: int, couponOff: int)
    ensures lineTotal == ChargedGross(couponPct)(l)
    ensures basketOff == BasketOff()(l)
    ensures couponOff == CouponOff(couponPct)(l)
  {
    ReadingsAgree(l.variant.priceMinor, l.variant.basketPct);
    var discUnit := DiscountedUnitMinor(l.variant.priceMinor, RawPct(l.variant.basketPct));
    var effUnit := DiscountedUnitMinor(discUnit, couponPct);
    lineTotal := effUnit * l.item.qty;
    basketOff := if discUnit != l.variant.priceMinor then (l.variant.priceMinor - discUnit) * l.item.qty else 0;
    couponOff := (discUnit - effUnit) * l.item.qty;
  }

  /** The three running totals after some lines. */
  ghost predicate RunningTotals(lines: seq<Line>, pct: int, grand: int, basketDiscount: int, couponDiscount: int) {
    && grand == GrandTotal(lines, pct)
    && basketDiscount == SumBy(lines, BasketOff())
    && couponDiscount == SumBy(lines, CouponOff(pct))
  }

  lemma {:induction false} OneMoreLine(lines: seq<Line>, l: Line, pct: int, grand: int, basket: int, coupon: int)
    requires RunningTotals(lines, pct, grand, basket, coupon)
    ensures RunningTotals(lines + [l], pct, grand + ChargedGross(pct)(l), basket + BasketOff()(l),
                          coupon + CouponOff(pct)(l))
  {
    SumByAppend(lines, l, ChargedGross(pct));
    SumByAppend(lines, l, BasketOff());
    SumByAppend(lines, l, CouponOff(pct));
  }

  /** The accumulators of the display. */
  datatype Running = Running(totals: map<int, Acc>, grand: int, basketDiscount: int, couponDiscount: int)

  ghost predicate RunningOk(r: Running, lines: seq<Line>, pct: int) {
    Accumulated(r.totals, lines, pct) && RunningTotals(lines, pct, r.grand, r.basketDiscount, r.couponDiscount)
  }

  /** The body of the main loop. */
  method AccumulateLine(r: Running, ghost lines: seq<Line>, l: Line, couponPct: int) returns (r': Running)
    requires RunningOk(r, lines, couponPct)
    ensures RunningOk(r', lines + [l], couponPct)
  {
    var lineTotal, basketOff, couponOff := PriceLine(l, couponPct);
    var totals := AddToSeller(r.totals, lines, l, couponPct, lineTotal);
    OneMoreLine(lines, l, couponPct, r.grand, r.basketDiscount, r.couponDiscount);
    r' := Running(totals, r.grand + lineTotal, r.basketDiscount + basketOff, r.couponDiscount + couponOff);
  }

  /** The main loop: running totals over all sellers and per seller. */
  method AccumulateLines(lines: seq<Line>, couponPct: int) returns (r: Running)
    ensures RunningOk(r, lines, couponPct)
  {
    r := Running(map[], 0, 0, 0);
    for i := 0 to |lines|
      invariant RunningOk(r, lines[..i], couponPct)
    {
      r := AccumulateLine(r, lines[..i], lines[i], couponPct);
      assert lines[..i + 1] == lines[..i] + [lines[i]];
    }
    assert lines[..|lines|] == lines;
  }

  /**
   The displayed totals: the grand total is the charge of every resolved line, the
   seller rows are complete, without duplicates, in first-seen order and exact, and
   the two discounts explain the distance to the list price.
   */
  method EnrichCart(items: seq<CartItem>, variants: map<int, Variant>, view: CouponView) returns (out: Display)
    ensures DisplayOk(out, items, variants, view)
  {
    var lines := ResolveItems(items, variants);
    var subtotal := SubtotalOf(lines);
    var couponPct := CouponPct(view, subtotal);
    var r := AccumulateLines(lines, couponPct);
    var rows := EmitTotals(r.totals, lines, couponPct);
    DiscountsAccountForGap(lines, couponPct);
    out := Display(lines, rows, r.grand, r.basketDiscount, r.couponDiscount);
  }
}
