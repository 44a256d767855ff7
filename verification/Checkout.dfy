/**
 The lines of a checkout: what each one splits into, and their grouping by seller
 (internal/order/saga.go:104-166).
 */
module Checkout {
  import opened Sums
  import opened Pricing
  import opened CartPricing

  datatype OrderItem = OrderItem(variantId: int, sellerId: int, qty: int, unitPriceMinor: int, listUnitPriceMinor: int,
                                 commissionMinor: int, kdvMinor: int, sellerNetMinor: int)

  datatype Group = Group(items: seq<OrderItem>, subtotal: int, discount: int, couponDiscount: int)

  datatype OrderStatus = PendingPayment | Cancelled

  /** (sessionId, sellerId) is the order's idempotency key. */
  datatype Order = Order(sessionId: int, sellerId: int, status: OrderStatus, items: seq<OrderItem>,
                         subtotalMinor: int, discountMinor: int, couponDiscountMinor: int, totalMinor: int)

  datatype SessionStatus = Pending | PspInitiated | Failed

  /** The orders of a session are inserted together: `count` rows from position `first` on. */
  datatype Session = Session(status: SessionStatus, first: nat, count: nat, amountMinor: int)

  datatype PspCall = PspCall(sessionId: int, amountMinor: int)

  datatype Error = SessionRequired | EmptyCart | UnknownVariant | UnknownCommission | PersistFailed | PspFailed

  // ---- one line ----

  function LineItem(l: Line, comm: Commission, couponPct: int): OrderItem {
    var unit := ChargedUnit(l, couponPct);
    var gross := unit * l.item.qty;
    var commAmt := TruncDiv(gross * comm.bps, 10000);
    var kdvAmt := TruncDiv(commAmt * comm.kdvBps, 10000);
    OrderItem(l.item.variantId, l.variant.sellerId, l.item.qty, unit, l.variant.priceMinor,
              commAmt, kdvAmt, gross - commAmt - kdvAmt)
  }

  /** Commission is the rate of the gross and KDV the rate of the commission, rounded down. */
  lemma {:induction false} SplitRounds(l: Line, comm: Commission, couponPct: int)
    requires l.variant.priceMinor >= 0 && l.item.qty >= 0 && 0 <= comm.bps && 0 <= comm.kdvBps
    ensures var it := LineItem(l, comm, couponPct);
      && 10000 * it.commissionMinor <= it.unitPriceMinor * it.qty * comm.bps < 10000 * (it.commissionMinor + 1)
      && 10000 * it.kdvMinor <= it.commissionMinor * comm.kdvBps < 10000 * (it.kdvMinor + 1)
      && it.unitPriceMinor * it.qty >= 0 && it.commissionMinor >= 0
  {
    DiscountedUnitInRange(l.variant.priceMinor, BasketPctOf(l.variant.basketPct));
    DiscountedUnitInRange(BasketUnit(l), couponPct);
    NotNegative(ChargedUnit(l, couponPct), l.item.qty);
    var gross := ChargedUnit(l, couponPct) * l.item.qty;
    NotNegative(gross, comm.bps);
    var commAmt := TruncDiv(gross * comm.bps, 10000);
    NotNegative(commAmt, comm.kdvBps);
  }

  lemma {:induction false} NotNegative(a: int, b: int)
    requires 0 <= a && 0 <= b
    ensures 0 <= a * b
  { }

  /**
   Commission, KDV and seller net always make up the gross; the net is not negative at
   sane rates, and the two amounts are their rates rounded down.
   */
  lemma {:induction false} LineSplits(l: Line, comm: Commission, couponPct: int)
    ensures var it := LineItem(l, comm, couponPct);
      && it.commissionMinor + it.kdvMinor + it.sellerNetMinor == it.unitPriceMinor * it.qty
      && it.unitPriceMinor * it.qty == ChargedGross(couponPct)(l)
      && it.variantId == l.item.variantId && it.sellerId == l.variant.sellerId && it.qty == l.item.qty
      && it.listUnitPriceMinor == l.variant.priceMinor
      && (l.variant.priceMinor >= 0 && l.item.qty >= 0
          && 0 <= comm.bps && 0 <= comm.kdvBps && comm.bps * (10000 + comm.kdvBps) <= 100_000_000 ==>
            0 <= it.commissionMinor && 0 <= it.kdvMinor && 0 <= it.sellerNetMinor)
      && (l.variant.priceMinor >= 0 && l.item.qty >= 0 && 0 <= comm.bps && 0 <= comm.kdvBps ==>
            && 10000 * it.commissionMinor <= it.unitPriceMinor * it.qty * comm.bps < 10000 * (it.commissionMinor + 1)
            && 10000 * it.kdvMinor <= it.commissionMinor * comm.kdvBps < 10000 * (it.kdvMinor + 1))
  {
    if l.variant.priceMinor >= 0 && l.item.qty >= 0 && 0 <= comm.bps && 0 <= comm.kdvBps {
      SplitRounds(l, comm, couponPct);
    }
    if l.variant.priceMinor >= 0 && l.item.qty >= 0
       && 0 <= comm.bps && 0 <= comm.kdvBps && comm.bps * (10000 + comm.kdvBps) <= 100_000_000 {
      DiscountedUnitInRange(l.variant.priceMinor, BasketPctOf(l.variant.basketPct));
      DiscountedUnitInRange(BasketUnit(l), couponPct);
      var gross := ChargedUnit(l, couponPct) * l.item.qty;
      assert gross >= 0;
      NetNotNegative(gross, comm.bps, comm.kdvBps);
    }
  }

  lemma {:induction false} NetNotNegative(gross: int, bps: int, kdv: int)
    requires 0 <= gross && 0 <= bps && 0 <= kdv && bps * (10000 + kdv) <= 100_000_000
    ensures var commAmt := TruncDiv(gross * bps, 10000); var kdvAmt := TruncDiv(commAmt * kdv, 10000);
      0 <= commAmt && 0 <= kdvAmt && 0 <= gross - commAmt - kdvAmt
  { }

  /** The CHECKs of the order_items table (deploy/postgres-ecom/init/65-order-schema.sql:30-52). */
  predicate ItemAccepted(it: OrderItem) {
    && it.qty > 0 && it.unitPriceMinor >= 0 && it.listUnitPriceMinor >= 0
    && it.commissionMinor >= 0 && it.kdvMinor >= 0 && it.sellerNetMinor >= 0
  }

  /** At sane rates every line with units and a price that is not negative is accepted, free lines included. */
  lemma {:induction false} SaneLinesAccepted(l: Line, comm: Commission, couponPct: int)
    requires l.variant.priceMinor >= 0 && l.item.qty > 0
    requires 0 <= comm.bps && 0 <= comm.kdvBps && comm.bps * (10000 + comm.kdvBps) <= 100_000_000
    ensures ItemAccepted(LineItem(l, comm, couponPct))
  {
    LineSplits(l, comm, couponPct);
    DiscountedUnitInRange(l.variant.priceMinor, BasketPctOf(l.variant.basketPct));
    DiscountedUnitInRange(BasketUnit(l), couponPct);
  }

  /**
   Rates the commission table admits (deploy/postgres-ecom/init/40-ref-schema.sql:50-51)
   can leave the seller less than nothing: 90% commission and 20% KDV on a line of 10000.
   */
  lemma {:induction false} AdmittedRatesCanBeRefused(l: Line, comm: Commission)
    requires l.variant.priceMinor == 10000 && l.item.qty == 1 && l.variant.basketPct.None?
    requires comm == Commission(9000, 2000)
    ensures LineItem(l, comm, 0).sellerNetMinor == -800 && !ItemAccepted(LineItem(l, comm, 0))
  {
    assert ChargedUnit(l, 0) == 10000;
  }

  // ---- grouping by seller ----

  /** The items of one seller, in cart order. */
  function ItemsOf(lines: seq<Line>, comms: map<int, Commission>, pct: int, seller: int): seq<OrderItem>
    requires forall i :: 0 <= i < |lines| ==> lines[i].variant.categoryId in comms
  {
    if |lines| == 0 then []
    else
      var l := lines[|lines| - 1];
      ItemsOf(lines[..|lines| - 1], comms, pct, seller)
      + (if l.variant.sellerId == seller then [LineItem(l, comms[l.variant.categoryId], pct)] else [])
  }

  function ItemGross(): OrderItem -> int { (it: OrderItem) => it.unitPriceMinor * it.qty }

  function SellerList(seller: int): Line -> int { Where(SellerOf(), seller, ListGross()) }
  function SellerCoupon(pct: int, seller: int): Line -> int { Where(SellerOf(), seller, CouponOff(pct)) }

  /** What the group of a seller must hold. */
  ghost predicate GroupOk(g: Group, lines: seq<Line>, comms: map<int, Commission>, pct: int, seller: int)
    requires forall i :: 0 <= i < |lines| ==> lines[i].variant.categoryId in comms
  {
    && g.items == ItemsOf(lines, comms, pct, seller)
    && g.subtotal == SumBy(lines, SellerList(seller))
    && g.subtotal - g.discount == SellerTotal(lines, pct, seller)
    && g.couponDiscount == SumBy(lines, SellerCoupon(pct, seller))
    && SumBy(g.items, ItemGross()) == SellerTotal(lines, pct, seller)
  }

  ghost predicate Grouped(groups: map<int, Group>, lines: seq<Line>, comms: map<int, Commission>, pct: int)
    requires forall i :: 0 <= i < |lines| ==> lines[i].variant.categoryId in comms
  {
    && (forall s :: s in groups <==> s in FirstSeen(lines))
    && (forall s :: s in groups ==> GroupOk(groups[s], lines, comms, pct, s))
  }

  lemma {:induction false} NoItemsOfUnseen(lines: seq<Line>, comms: map<int, Commission>, pct: int, seller: int)
    requires forall i :: 0 <= i < |lines| ==> lines[i].variant.categoryId in comms
    requires forall i :: 0 <= i < |lines| ==> lines[i].variant.sellerId != seller
    ensures ItemsOf(lines, comms, pct, seller) == []
  {
    if |lines| > 0 { NoItemsOfUnseen(lines[..|lines| - 1], comms, pct, seller); }
  }

  lemma {:induction false} EmptyGroupOk(lines: seq<Line>, comms: map<int, Commission>, pct: int, seller: int)
    requires forall i :: 0 <= i < |lines| ==> lines[i].variant.categoryId in comms
    requires seller !in FirstSeen(lines)
    ensures GroupOk(Group([], 0, 0, 0), lines, comms, pct, seller)
  {
    FirstSeenComplete(lines);
    NoItemsOfUnseen(lines, comms, pct, seller);
    SumByZero(lines, SellerList(seller));
    SumByZero(lines, SellerGross(pct, seller));
    SumByZero(lines, SellerCoupon(pct, seller));
  }

  function WithLine(g: Group, l: Line, comm: Commission, pct: int): Group {
    var gross := ChargedUnit(l, pct) * l.item.qty;
    var listGross := l.variant.priceMinor * l.item.qty;
    Group(g.items + [LineItem(l, comm, pct)], g.subtotal + listGross, g.discount + (listGross - gross),
          g.couponDiscount + (BasketUnit(l) - ChargedUnit(l, pct)) * l.item.qty)
  }

  /** Adding a line to its seller's group keeps that group, and leaves the others, right. */
  lemma {:induction false} LineJoinsGroup(g: Group, lines: seq<Line>, l: Line, comms: map<int, Commission>, pct: int,
                                          seller: int)
    requires forall i :: 0 <= i < |lines| ==> lines[i].variant.categoryId in comms
    requires l.variant.categoryId in comms && GroupOk(g, lines, comms, pct, seller)
    ensures GroupOk(if l.variant.sellerId == seller then WithLine(g, l, comms[l.variant.categoryId], pct) else g,
                    lines + [l], comms, pct, seller)
  {
    assert (lines + [l])[..|lines|] == lines;
    SumByAppend(lines, l, SellerList(seller));
    SumByAppend(lines, l, SellerGross(pct, seller));
    SumByAppend(lines, l, SellerCoupon(pct, seller));
    SumByAppend(g.items, LineItem(l, comms[l.variant.categoryId], pct), ItemGross());
    assert g.items + [] == g.items;
  }

  /** The group a line of a seller joins. */
  function GroupFor(groups: map<int, Group>, seller: int): Group {
    if seller in groups then groups[seller] else Group([], 0, 0, 0)
  }

  lemma {:induction false} JoinedGroupOk(groups: map<int, Group>, lines: seq<Line>, l: Line,
                                         comms: map<int, Commission>, pct: int, seller: int)
    requires forall i :: 0 <= i < |lines| ==> lines[i].variant.categoryId in comms
    requires l.variant.categoryId in comms && Grouped(groups, lines, comms, pct)
    requires seller in groups || seller == l.variant.sellerId
    ensures GroupOk(if l.variant.sellerId == seller
                      then WithLine(GroupFor(groups, seller), l, comms[l.variant.categoryId], pct)
                      else GroupFor(groups, seller), lines + [l], comms, pct, seller)
  {
    if seller !in groups { EmptyGroupOk(lines, comms, pct, seller); }
    LineJoinsGroup(GroupFor(groups, seller), lines, l, comms, pct, seller);
  }

  method AddLine(groups: map<int, Group>, ghost lines: seq<Line>, l: Line, comms: map<int, Commission>, pct: int)
    returns (groups': map<int, Group>)
    requires forall i :: 0 <= i < |lines| ==> lines[i].variant.categoryId in comms
    requires l.variant.categoryId in comms && Grouped(groups, lines, comms, pct)
    ensures Grouped(groups', lines + [l], comms, pct)
  {
    var s := l.variant.sellerId;
    groups' := groups[s := WithLine(GroupFor(groups, s), l, comms[l.variant.categoryId], pct)];
    forall q | q in groups' ensures GroupOk(groups'[q], lines + [l], comms, pct, q) {
      JoinedGroupOk(groups, lines, l, comms, pct, q);
    }
    forall q ensures q in groups' <==> q in FirstSeen(lines + [l]) { FirstSeenAppend(lines, l, q); }
  }

  method BuildGroups(lines: seq<Line>, comms: map<int, Commission>, pct: int)
    returns (groups: map<int, Group>, totalMinor: int)
    requires forall i :: 0 <= i < |lines| ==> lines[i].variant.categoryId in comms
    ensures Grouped(groups, lines, comms, pct)
    ensures totalMinor == GrandTotal(lines, pct)
  {
    groups, totalMinor := map[], 0;
    for i := 0 to |lines|
      invariant Grouped(groups, lines[..i], comms, pct)
      invariant totalMinor == GrandTotal(lines[..i], pct)
    {
      var l := lines[i];
      assert lines[..i + 1] == lines[..i] + [l];
      SumByAppend(lines[..i], l, ChargedGross(pct));
      groups := AddLine(groups, lines[..i], l, comms, pct);
      totalMinor := totalMinor + ChargedUnit(l, pct) * l.item.qty;
    }
    assert lines[..|lines|] == lines;
  }
}
