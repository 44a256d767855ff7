/** The steps of the checkout that touch the database and the payment provider (internal/order/saga.go:29-319). */
module CheckoutSaga {
  import opened Options
  import opened Faults
  import opened Sets
  import opened Sums
  import opened Pricing
  import opened Coupons
  import opened CartPricing
  import opened CartDisplay
  import opened Checkout

  /** Session ids are opaque; this one stands for the empty Idempotency-Key. */
  const NO_SESSION := 0

  /** What fails outside the program.  `cancelFails` speaks of order ids. */
  datatype SagaEnv = SagaEnv(lookupFails: bool, persist: TxFault, pspFails: bool,
                             cancelFails: nat -> bool, updateFails: bool)

  function OrderTotal(): Order -> int { (o: Order) => o.totalMinor }

  function SellersIn(orders: seq<Order>): seq<int> {
    seq(|orders|, i requires 0 <= i < |orders| => orders[i].sellerId)
  }

  /** The order of one seller: its lines and only those, priced to the unit. */
  ghost predicate OrderOk(o: Order, sessionId: int, lines: seq<Line>, comms: map<int, Commission>, pct: int)
    requires forall i :: 0 <= i < |lines| ==> lines[i].variant.categoryId in comms
  {
    && o.sessionId == sessionId
    && o.items == ItemsOf(lines, comms, pct, o.sellerId)
    && o.subtotalMinor == SumBy(lines, SellerList(o.sellerId))
    && o.totalMinor == o.subtotalMinor - o.discountMinor
    && o.totalMinor == SellerTotal(lines, pct, o.sellerId) == SumBy(o.items, ItemGross())
    && o.couponDiscountMinor == SumBy(lines, SellerCoupon(pct, o.sellerId))
  }

  /** The orders of one checkout: one per seller of the cart, adding up to the charge. */
  ghost predicate CheckoutOk(added: seq<Order>, sessionId: int, lines: seq<Line>, comms: map<int, Commission>, pct: int)
    requires forall i :: 0 <= i < |lines| ==> lines[i].variant.categoryId in comms
  {
    && NoDuplicates(SellersIn(added))
    && (forall s :: s in SellersIn(added) <==> s in FirstSeen(lines))
    && (forall i :: 0 <= i < |added| ==> OrderOk(added[i], sessionId, lines, comms, pct))
    && SumBy(added, OrderTotal()) == GrandTotal(lines, pct)
  }

  lemma {:induction false} TotalsBySeller(added: seq<Order>, lines: seq<Line>, pct: int)
    requires forall i :: 0 <= i < |added| ==> added[i].totalMinor == SellerTotal(lines, pct, added[i].sellerId)
    ensures SumBy(added, OrderTotal()) == SumBy(SellersIn(added), SellerTotals(lines, pct))
  {
    if |added| > 0 {
      var front := added[..|added| - 1];
      TotalsBySeller(front, lines, pct);
      assert SellersIn(added)[..|added| - 1] == SellersIn(front);
    }
  }

  lemma {:induction false} OrdersSumToGrand(added: seq<Order>, sessionId: int, lines: seq<Line>,
                                            comms: map<int, Commission>, pct: int)
    requires forall i :: 0 <= i < |lines| ==> lines[i].variant.categoryId in comms
    requires NoDuplicates(SellersIn(added))
    requires forall s :: s in SellersIn(added) <==> s in FirstSeen(lines)
    requires forall i :: 0 <= i < |added| ==> OrderOk(added[i], sessionId, lines, comms, pct)
    ensures SumBy(added, OrderTotal()) == GrandTotal(lines, pct)
  {
    FirstSeenComplete(lines);
    TotalsBySeller(added, lines, pct);
    SellersSumToGrand(lines, pct, SellersIn(added));
  }

  /** The orders to insert, visiting the groups in any order. */
  method DraftOrders(sessionId: int, groups: map<int, Group>, ghost lines: seq<Line>, comms: map<int, Commission>,
                     pct: int)
    returns (added: seq<Order>)
    requires forall i :: 0 <= i < |lines| ==> lines[i].variant.categoryId in comms
    requires Grouped(groups, lines, comms, pct)
    ensures CheckoutOk(added, sessionId, lines, comms, pct)
    ensures forall i :: 0 <= i < |added| ==> added[i].status == PendingPayment
  {
    added := [];
    var todo := groups.Keys;
    while todo != {}
      invariant todo <= groups.Keys
      invariant NoDuplicates(SellersIn(added))
      invariant forall s :: s in SellersIn(added) <==> s in groups && s !in todo
      invariant forall i :: 0 <= i < |added| ==>
        OrderOk(added[i], sessionId, lines, comms, pct) && added[i].status == PendingPayment
      decreases todo
    {
      var s := Pick(todo);
      var g := groups[s];
      assert GroupOk(g, lines, comms, pct, s);
      var o := Order(sessionId, s, PendingPayment, g.items, g.subtotal, g.discount, g.couponDiscount,
                     g.subtotal - g.discount);
      assert SellersIn(added + [o]) == SellersIn(added) + [s];
      added := added + [o];
      todo := todo - {s};
    }
    OrdersSumToGrand(added, sessionId, lines, comms, pct);
  }

  /** Every line can be priced, so the saga gets as far as the database. */
  predicate Chargeable(items: seq<CartItem>, catalog: Catalog) {
    forall i :: 0 <= i < |items| ==>
      items[i].variantId in catalog.variants && catalog.variants[items[i].variantId].categoryId in catalog.commissions
  }

  /** Phase 1: the cart resolved with its commissions and its basket subtotal, or the first failure. */
  method ResolveForCharge(items: seq<CartItem>, catalog: Catalog)
    returns (err: Option<Error>, lines: seq<Line>, basketSubtotal: int)
    ensures err.None? <==> Chargeable(items, catalog)
    ensures err.None? ==>
      && lines == Resolved(items, catalog.variants) && |lines| == |items|
      && basketSubtotal == BasketSubtotal(lines)
      && forall i :: 0 <= i < |lines| ==> lines[i].variant.categoryId in catalog.commissions
  {
    err, lines, basketSubtotal := None, [], 0;
    for i := 0 to |items|
      invariant lines == Resolved(items[..i], catalog.variants) && |lines| == i
      invariant basketSubtotal == BasketSubtotal(lines)
      invariant forall k :: 0 <= k < |lines| ==> lines[k].variant.categoryId in catalog.commissions
      invariant Chargeable(items[..i], catalog)
    {
      var it := items[i];
      if it.variantId !in catalog.variants { return Some(UnknownVariant), [], 0; }
      var v := catalog.variants[it.variantId];
      if v.categoryId !in catalog.commissions { return Some(UnknownCommission), [], 0; }
      assert items[..i + 1][..i] == items[..i];
      var discUnit := DiscountedUnitMinor(v.priceMinor, BasketPctOf(v.basketPct));
      SumByAppend(lines, Line(it, v), BasketGross());
      basketSubtotal := basketSubtotal + discUnit * it.qty;
      lines := lines + [Line(it, v)];
    }
    assert items[..|items|] == items;
  }

  /** The status column plays no part in the arithmetic. */
  lemma {:induction false} StatusDoesNotMatter(a: seq<Order>, b: seq<Order>, sessionId: int, lines: seq<Line>,
                                               comms: map<int, Commission>, pct: int)
    requires forall i :: 0 <= i < |lines| ==> lines[i].variant.categoryId in comms
    requires CheckoutOk(a, sessionId, lines, comms, pct)
    requires |a| == |b| && forall i :: 0 <= i < |a| ==> b[i] == a[i].(status := b[i].status)
    ensures CheckoutOk(b, sessionId, lines, comms, pct)
  {
    assert SellersIn(a) == SellersIn(b);
    forall i | 0 <= i < |b| ensures OrderOk(b[i], sessionId, lines, comms, pct) {
      assert OrderOk(a[i], sessionId, lines, comms, pct);
    }
    OrdersSumToGrand(b, sessionId, lines, comms, pct);
  }

  /** What the cart costs with this coupon view. */
  function Amount(items: seq<CartItem>, catalog: Catalog, view: CouponView): int {
    var lines := Resolved(items, catalog.variants);
    GrandTotal(lines, PctFor(lines, view))
  }

  /** These orders are the checkout of this cart. */
  ghost predicate Charged(added: seq<Order>, sessionId: int, items: seq<CartItem>, catalog: Catalog, view: CouponView) {
    var lines := Resolved(items, catalog.variants);
    && (forall i :: 0 <= i < |lines| ==> lines[i].variant.categoryId in catalog.commissions)
    && CheckoutOk(added, sessionId, lines, catalog.commissions, PctFor(lines, view))
  }

  lemma {:induction false} ChargedFacts(added: seq<Order>, sessionId: int, items: seq<CartItem>, catalog: Catalog,
                                        view: CouponView)
    requires Charged(added, sessionId, items, catalog, view)
    ensures forall i :: 0 <= i < |added| ==> added[i].sessionId == sessionId
    ensures SumBy(added, OrderTotal()) == Amount(items, catalog, view)
  { }

  lemma {:induction false} ChargedWhateverStatus(a: seq<Order>, b: seq<Order>, sessionId: int, items: seq<CartItem>,
                                                 catalog: Catalog, view: CouponView)
    requires Charged(a, sessionId, items, catalog, view)
    requires |a| == |b| && forall i :: 0 <= i < |a| ==> b[i] == a[i].(status := b[i].status)
    ensures Charged(b, sessionId, items, catalog, view)
  {
    var lines := Resolved(items, catalog.variants);
    StatusDoesNotMatter(a, b, sessionId, lines, catalog.commissions, PctFor(lines, view));
  }

  /** A cart with a line has an order. */
  lemma {:induction false} OrdersNotEmpty(added: seq<Order>, sessionId: int, lines: seq<Line>,
                                          comms: map<int, Commission>, pct: int)
    requires forall i :: 0 <= i < |lines| ==> lines[i].variant.categoryId in comms
    requires CheckoutOk(added, sessionId, lines, comms, pct) && lines != []
    ensures added != []
  {
    FirstSeenComplete(lines);
    assert lines[0].variant.sellerId in SellersIn(added);
  }

  /** Phases 1 and 2: price the cart and draft its orders. */
  method PriceCart(sessionId: int, items: seq<CartItem>, catalog: Catalog, view: CouponView)
    returns (err: Option<Error>, added: seq<Order>, totalMinor: int)
    ensures err.None? <==> Chargeable(items, catalog)
    ensures err.None? ==>
      && Charged(added, sessionId, items, catalog, view)
      && totalMinor == Amount(items, catalog, view)
      && (items != [] ==> added != [])
      && forall i :: 0 <= i < |added| ==> added[i].status == PendingPayment
  {
    added, totalMinor := [], 0;
    var lines, basketSubtotal;
    err, lines, basketSubtotal := ResolveForCharge(items, catalog);
    if err.Some? { return; }
    var couponPct := CouponPct(view, basketSubtotal);
    var groups;
    groups, totalMinor := BuildGroups(lines, catalog.commissions, couponPct);
    added := DraftOrders(sessionId, groups, lines, catalog.commissions, couponPct);
    if items != [] { OrdersNotEmpty(added, sessionId, lines, catalog.commissions, couponPct); }
  }

  // ---- the CHECKs of the order tables ----

  /** The CHECKs of the orders table, and those of its items (deploy/postgres-ecom/init/65-order-schema.sql:5-52). */
  predicate OrderAccepted(o: Order) {
    && o.subtotalMinor >= 0 && o.totalMinor >= 0 && o.discountMinor >= 0 && o.couponDiscountMinor >= 0
    && forall i :: 0 <= i < |o.items| ==> ItemAccepted(o.items[i])
  }

  /** Every line of the cart, charged at this percentage, makes an acceptable item. */
  predicate LinesAccepted(lines: seq<Line>, comms: map<int, Commission>, pct: int)
    requires forall i :: 0 <= i < |lines| ==> lines[i].variant.categoryId in comms
  {
    forall i :: 0 <= i < |lines| ==> ItemAccepted(LineItem(lines[i], comms[lines[i].variant.categoryId], pct))
  }

  lemma {:induction false} ItemsOfIff(lines: seq<Line>, comms: map<int, Commission>, pct: int, seller: int,
                                      it: OrderItem)
    requires forall i :: 0 <= i < |lines| ==> lines[i].variant.categoryId in comms
    ensures it in ItemsOf(lines, comms, pct, seller) <==>
      exists i :: 0 <= i < |lines| && lines[i].variant.sellerId == seller
                  && it == LineItem(lines[i], comms[lines[i].variant.categoryId], pct)
  {
    if |lines| > 0 {
      var front := lines[..|lines| - 1];
      assert forall i :: 0 <= i < |front| ==> front[i] == lines[i];
      ItemsOfIff(front, comms, pct, seller, it);
    }
  }

  /** Acceptable lines have sums in order: 0 <= charged <= list, and a coupon share that is not negative. */
  lemma {:induction false} SellerSumsInOrder(lines: seq<Line>, comms: map<int, Commission>, pct: int, seller: int)
    requires forall i :: 0 <= i < |lines| ==> lines[i].variant.categoryId in comms
    requires LinesAccepted(lines, comms, pct)
    ensures 0 <= SumBy(lines, SellerGross(pct, seller)) <= SumBy(lines, SellerList(seller))
    ensures 0 <= SumBy(lines, SellerCoupon(pct, seller))
  {
    forall i | 0 <= i < |lines|
      ensures 0 <= SellerGross(pct, seller)(lines[i]) <= SellerList(seller)(lines[i])
      ensures 0 <= SellerCoupon(pct, seller)(lines[i])
    {
      assert ItemAccepted(LineItem(lines[i], comms[lines[i].variant.categoryId], pct));
      LineInOrder(lines[i], pct);
    }
    SumByMonotone(lines, SellerGross(pct, seller), SellerList(seller));
    SumByMonotone(lines, SellerCoupon(pct, seller), SellerCoupon(pct, seller));
  }

  lemma {:induction false} LineInOrder(l: Line, pct: int)
    requires l.variant.priceMinor >= 0 && l.item.qty > 0
    ensures 0 <= ChargedGross(pct)(l) <= ListGross()(l) && 0 <= CouponOff(pct)(l)
  {
    DiscountedUnitInRange(l.variant.priceMinor, BasketPctOf(l.variant.basketPct));
    DiscountedUnitInRange(BasketUnit(l), pct);
    Ordered(ChargedUnit(l, pct), BasketUnit(l), l.variant.priceMinor, l.item.qty);
  }

  lemma {:induction false} Ordered(a: int, b: int, c: int, qty: int)
    requires 0 <= a <= b <= c && 0 <= qty
    ensures 0 <= a * qty <= c * qty && 0 <= (b - a) * qty
  { }

  lemma {:induction false} AcceptedLinesMakeOrder(o: Order, sessionId: int, lines: seq<Line>,
                                                  comms: map<int, Commission>, pct: int)
    requires forall i :: 0 <= i < |lines| ==> lines[i].variant.categoryId in comms
    requires OrderOk(o, sessionId, lines, comms, pct) && LinesAccepted(lines, comms, pct)
    ensures OrderAccepted(o)
  {
    SellerSumsInOrder(lines, comms, pct, o.sellerId);
    forall j | 0 <= j < |o.items| ensures ItemAccepted(o.items[j]) {
      ItemsOfIff(lines, comms, pct, o.sellerId, o.items[j]);
    }
  }

  /** Every line lands in some order. */
  lemma {:induction false} LineIsOrdered(added: seq<Order>, sessionId: int, lines: seq<Line>,
                                         comms: map<int, Commission>, pct: int, k: nat)
    requires forall i :: 0 <= i < |lines| ==> lines[i].variant.categoryId in comms
    requires CheckoutOk(added, sessionId, lines, comms, pct) && k < |lines|
    ensures exists i, j :: 0 <= i < |added| && 0 <= j < |added[i].items|
                           && added[i].items[j] == LineItem(lines[k], comms[lines[k].variant.categoryId], pct)
  {
    FirstSeenComplete(lines);
    assert lines[k].variant.sellerId in SellersIn(added);
    var i :| 0 <= i < |added| && SellersIn(added)[i] == lines[k].variant.sellerId;
    assert OrderOk(added[i], sessionId, lines, comms, pct);
    var it := LineItem(lines[k], comms[lines[k].variant.categoryId], pct);
    ItemsOfIff(lines, comms, pct, added[i].sellerId, it);
    var j :| 0 <= j < |added[i].items| && added[i].items[j] == it;
  }

  /** The tables accept the orders of a checkout exactly when every line makes an acceptable item. */
  lemma {:induction false} OrdersAcceptedIff(added: seq<Order>, sessionId: int, lines: seq<Line>,
                                             comms: map<int, Commission>, pct: int)
    requires forall i :: 0 <= i < |lines| ==> lines[i].variant.categoryId in comms
    requires CheckoutOk(added, sessionId, lines, comms, pct)
    ensures (forall i :: 0 <= i < |added| ==> OrderAccepted(added[i])) <==> LinesAccepted(lines, comms, pct)
  {
    if LinesAccepted(lines, comms, pct) {
      forall i | 0 <= i < |added| ensures OrderAccepted(added[i]) {
        AcceptedLinesMakeOrder(added[i], sessionId, lines, comms, pct);
      }
    } else {
      var k :| 0 <= k < |lines| && !ItemAccepted(LineItem(lines[k], comms[lines[k].variant.categoryId], pct));
      LineIsOrdered(added, sessionId, lines, comms, pct, k);
    }
  }

  /** The cart can be priced, and every line charged with this coupon view makes an acceptable item. */
  predicate Acceptable(items: seq<CartItem>, catalog: Catalog, view: CouponView) {
    var lines := Resolved(items, catalog.variants);
    && (forall i :: 0 <= i < |lines| ==> lines[i].variant.categoryId in catalog.commissions)
    && LinesAccepted(lines, catalog.commissions, PctFor(lines, view))
  }

  lemma {:induction false} AcceptableIff(added: seq<Order>, sessionId: int, items: seq<CartItem>, catalog: Catalog,
                                         view: CouponView)
    requires Charged(added, sessionId, items, catalog, view)
    ensures (forall i :: 0 <= i < |added| ==> OrderAccepted(added[i])) <==> Acceptable(items, catalog, view)
  {
    var lines := Resolved(items, catalog.variants);
    OrdersAcceptedIff(added, sessionId, lines, catalog.commissions, PctFor(lines, view));
  }

  // ---- the tables ----

  function OrdersOf(s: Session, orders: seq<Order>): seq<Order>
    requires s.first + s.count <= |orders|
  {
    orders[s.first..s.first + s.count]
  }

  /** The session charges what its orders add up to. */
  predicate SessionOk(s: Session, id: int, orders: seq<Order>) {
    && s.first + s.count <= |orders|
    && (forall i :: s.first <= i < s.first + s.count ==> orders[i].sessionId == id)
    && SumBy(OrdersOf(s, orders), OrderTotal()) == s.amountMinor
  }

  /** No order without its session, every session charges its orders, and is charged at most once, for its amount. */
  predicate Books(orders: seq<Order>, sessions: map<int, Session>, calls: seq<PspCall>) {
    && (forall i :: 0 <= i < |orders| ==> orders[i].sessionId in sessions)
    && (forall id :: id in sessions ==> SessionOk(sessions[id], id, orders))
    && (forall i :: 0 <= i < |calls| ==>
          calls[i].sessionId in sessions && sessions[calls[i].sessionId].amountMinor == calls[i].amountMinor)
    && (forall i, j :: 0 <= i < j < |calls| ==> calls[i].sessionId != calls[j].sessionId)
  }

  lemma {:induction false} PersistKeepsBooks(orders: seq<Order>, sessions: map<int, Session>, calls: seq<PspCall>,
                                             id: int, added: seq<Order>, amount: int)
    requires Books(orders, sessions, calls) && id !in sessions
    requires forall i :: 0 <= i < |added| ==> added[i].sessionId == id
    requires SumBy(added, OrderTotal()) == amount
    ensures Books(orders + added, sessions[id := Session(Pending, |orders|, |added|, amount)], calls)
  {
    var orders' := orders + added;
    var sessions' := sessions[id := Session(Pending, |orders|, |added|, amount)];
    NewSessionOk(orders, id, added, amount);
    forall q | q in sessions' ensures SessionOk(sessions'[q], q, orders') {
      if q != id { OldSessionOk(sessions[q], q, orders, added); }
    }
    forall i | 0 <= i < |orders'| ensures orders'[i].sessionId in sessions' {
      assert orders'[i] == if i < |orders| then orders[i] else added[i - |orders|];
    }
  }

  lemma {:induction false} NewSessionOk(orders: seq<Order>, id: int, added: seq<Order>, amount: int)
    requires forall i :: 0 <= i < |added| ==> added[i].sessionId == id
    requires SumBy(added, OrderTotal()) == amount
    ensures SessionOk(Session(Pending, |orders|, |added|, amount), id, orders + added)
  {
    var s, all := Session(Pending, |orders|, |added|, amount), orders + added;
    assert OrdersOf(s, all) == added;
    forall i | s.first <= i < s.first + s.count ensures all[i].sessionId == id {
      assert all[i] == added[i - |orders|];
    }
  }

  lemma {:induction false} OldSessionOk(s: Session, id: int, orders: seq<Order>, added: seq<Order>)
    requires SessionOk(s, id, orders)
    ensures SessionOk(s, id, orders + added)
  {
    assert OrdersOf(s, orders + added) == OrdersOf(s, orders);
  }

  /** A session that does not exist was never charged. */
  lemma {:induction false} NotCalledYet(orders: seq<Order>, sessions: map<int, Session>, calls: seq<PspCall>, id: int)
    requires Books(orders, sessions, calls) && id !in sessions
    ensures forall i :: 0 <= i < |calls| ==> calls[i].sessionId != id
  { }

  lemma {:induction false} StatusKeepsSession(s: Session, id: int, orders: seq<Order>, orders': seq<Order>,
                                              status: SessionStatus)
    requires SessionOk(s, id, orders) && |orders'| == |orders|
    requires forall i :: 0 <= i < |orders| ==> orders'[i] == orders[i].(status := orders'[i].status)
    ensures SessionOk(s.(status := status), id, orders')
  {
    SumByPointwise(OrdersOf(s, orders), OrdersOf(s, orders'), OrderTotal());
  }

  /** A change of statuses only keeps every amount right. */
  lemma {:induction false} StatusChangesKeepBooks(orders: seq<Order>, orders': seq<Order>, sessions: map<int, Session>,
                                                  id: int, status: SessionStatus, calls: seq<PspCall>)
    requires Books(orders, sessions, calls) && id in sessions
    requires |orders'| == |orders|
    requires forall i :: 0 <= i < |orders| ==> orders'[i] == orders[i].(status := orders'[i].status)
    ensures Books(orders', sessions[id := sessions[id].(status := status)], calls)
  {
    var sessions' := sessions[id := sessions[id].(status := status)];
    forall q | q in sessions' ensures SessionOk(sessions'[q], q, orders') {
      assert SessionOk(sessions[q], q, orders);
      StatusKeepsSession(sessions[q], q, orders, orders', sessions'[q].status);
    }
  }

  /** The key of an order refers to a session that exists. */
  predicate KeyHolds(o: Order, sessions: map<int, Session>) { o.sessionId in sessions }

  /** What becomes of an order of the checkout once the payment provider has answered. */
  function StatusAfter(env: SagaEnv, id: nat): OrderStatus {
    if env.pspFails && !env.cancelFails(id) then Cancelled else PendingPayment
  }

  function SessionAfter(env: SagaEnv): (r: SessionStatus)
    ensures env.updateFails ==> r == Pending
    ensures !env.updateFails && env.pspFails ==> r == Failed
    ensures !env.updateFails && !env.pspFails ==> r == PspInitiated
  {
    if env.updateFails then Pending else if env.pspFails then Failed else PspInitiated
  }

  /** From position n on, `orders` holds the orders of this checkout, each with its status. */
  predicate Tail(orders: seq<Order>, n: nat, added: seq<Order>, status: nat -> OrderStatus) {
    && |orders| == n + |added|
    && forall i :: 0 <= i < |added| ==> orders[n + i] == added[i].(status := status(n + i))
  }

  function Waiting(): nat -> OrderStatus { (id: nat) => PendingPayment }
  function AfterPayment(env: SagaEnv): nat -> OrderStatus { (id: nat) => StatusAfter(env, id) }

  lemma {:induction false} AppendedTail(before: seq<Order>, added: seq<Order>)
    requires forall i :: 0 <= i < |added| ==> added[i].status == PendingPayment
    ensures (before + added)[..|before|] == before && Tail(before + added, |before|, added, Waiting())
  { }

  /** Settling the ids from n on turns waiting orders into settled ones and keeps the rest. */
  lemma {:induction false} SettledTail(before: seq<Order>, after: seq<Order>, n: nat, added: seq<Order>, env: SagaEnv)
    requires Tail(before, n, added, Waiting()) && |after| == |before|
    requires forall i :: 0 <= i < n ==> after[i] == before[i]
    requires forall i :: n <= i < |before| ==>
      after[i] == if env.pspFails && !env.cancelFails(i) then before[i].(status := Cancelled) else before[i]
    ensures after[..n] == before[..n] && Tail(after, n, added, AfterPayment(env))
  { }

  lemma {:induction false} TailStatus(orders: seq<Order>, n: nat, added: seq<Order>, status: nat -> OrderStatus)
    requires Tail(orders, n, added, status)
    ensures forall i :: n <= i < |orders| ==> orders[i].status == status(i)
  {
    forall i | n <= i < |orders| ensures orders[i].status == status(i) {
      assert orders[n + (i - n)] == added[i - n].(status := status(n + (i - n)));
    }
  }

  /** The tail of the table is the checkout of the cart, each order with its status. */
  lemma {:induction false} TailIsCharged(orders: seq<Order>, n: nat, added: seq<Order>, status: nat -> OrderStatus,
                                         sessionId: int, items: seq<CartItem>, catalog: Catalog, view: CouponView)
    requires Tail(orders, n, added, status) && Charged(added, sessionId, items, catalog, view)
    ensures Charged(orders[n..], sessionId, items, catalog, view)
    ensures forall i :: n <= i < |orders| ==> orders[i].status == status(i)
  {
    TailStatus(orders, n, added, status);
    ChargedWhateverStatus(added, orders[n..], sessionId, items, catalog, view);
  }

  lemma {:induction false} Overwritten(sessions: map<int, Session>, id: int, s: Session, status: SessionStatus)
    ensures var once := sessions[id := s];
      once[id := once[id].(status := status)] == sessions[id := s.(status := status)]
  { }

  class Shop {
    var orders: seq<Order>
    var sessions: map<int, Session>
    var pspCalls: seq<PspCall>
    /** Whether the foreign key from orders to sessions waits for the commit; as shipped it does not. */
    const deferredKey: bool

    ghost predicate Valid()
      reads this
    {
      Books(orders, sessions, pspCalls)
    }

    constructor (deferredKey: bool)
      ensures orders == [] && sessions == map[] && pspCalls == [] && this.deferredKey == deferredKey
      ensures Valid()
    {
      orders, sessions, pspCalls := [], map[], [];
      this.deferredKey := deferredKey;
    }

    /** The INSERTs of the orders in an open transaction, each under its foreign key and the CHECKs. */
    method InsertOrders(sessionId: int, added: seq<Order>) returns (accepted: bool, work: seq<Order>, ids: seq<nat>)
      requires sessionId !in sessions && forall i :: 0 <= i < |added| ==> added[i].sessionId == sessionId
      ensures accepted <==> (deferredKey || added == []) && forall i :: 0 <= i < |added| ==> OrderAccepted(added[i])
      ensures accepted ==> work == orders + added && forall i :: i in ids <==> |orders| <= i < |work|
    {
      work, ids := orders, [];
      for i := 0 to |added|
        invariant work == orders + added[..i] && (i > 0 ==> deferredKey)
        invariant forall k :: k in ids <==> |orders| <= k < |work|
        invariant forall k :: 0 <= k < i ==> OrderAccepted(added[k])
      {
        if !deferredKey && !KeyHolds(added[i], sessions) { return false, work, ids; }
        if !OrderAccepted(added[i]) { return false, work, ids; }
        ids := ids + [|work|];
        work := work + [added[i]];
        assert added[..i + 1] == added[..i] + [added[i]];
      }
      assert added[..|added|] == added;
      accepted := true;
    }

    /**
     One transaction, statement by statement: the orders, each subject to its foreign
     key and CHECKs, then the session.  It commits exactly when the key waits for the
     commit (or there is no order), the CHECKs accept every order and nothing rolls it
     back; otherwise the tables are as before.
     */
    method Persist(sessionId: int, added: seq<Order>, amountMinor: int, fault: TxFault)
      returns (committed: bool, ids: seq<nat>)
      requires Valid() && sessionId !in sessions
      requires forall i :: 0 <= i < |added| ==> added[i].sessionId == sessionId && added[i].status == PendingPayment
      requires SumBy(added, OrderTotal()) == amountMinor
      modifies this`orders, this`sessions
      ensures Valid()
      ensures committed <==>
        && (deferredKey || added == []) && fault != RolledBack
        && forall i :: 0 <= i < |added| ==> OrderAccepted(added[i])
      ensures committed ==>
        && |orders| >= |old(orders)| && orders[..|old(orders)|] == old(orders)
        && Tail(orders, |old(orders)|, added, Waiting())
        && sessions == old(sessions)[sessionId := Session(Pending, |old(orders)|, |added|, amountMinor)]
        && forall i :: i in ids <==> |old(orders)| <= i < |orders|
      ensures !committed ==> orders == old(orders) && sessions == old(sessions)
    {
      var accepted, work;
      accepted, work, ids := InsertOrders(sessionId, added);
      if !accepted || fault == RolledBack { return false, []; }
      PersistKeepsBooks(orders, sessions, pspCalls, sessionId, added, amountMinor);
      AppendedTail(orders, added);
      sessions := sessions[sessionId := Session(Pending, |orders|, |added|, amountMinor)];
      orders := work;
      committed := true;
    }

    /** Compensation: cancel the orders of the failed checkout, carrying on when one cancel fails. */
    method CancelOrders(ids: seq<nat>, cancelFails: nat -> bool)
      requires forall id :: id in ids ==> id < |orders|
      modifies this`orders
      ensures |orders| == |old(orders)|
      ensures forall i :: 0 <= i < |orders| ==>
        orders[i] == if i in ids && !cancelFails(i) then old(orders)[i].(status := Cancelled) else old(orders)[i]
    {
      for k := 0 to |ids|
        invariant |orders| == |old(orders)|
        invariant forall i :: 0 <= i < |orders| ==>
          orders[i] == if i in ids[..k] && !cancelFails(i) then old(orders)[i].(status := Cancelled) else old(orders)[i]
      {
        assert ids[..k + 1] == ids[..k] + [ids[k]] && ids[k] in ids;
        if !cancelFails(ids[k]) { orders := orders[ids[k] := orders[ids[k]].(status := Cancelled)]; }
      }
      assert ids[..|ids|] == ids;
    }

    /** The payment call and what follows it. */
    method Settle(sessionId: int, ids: seq<nat>, totalMinor: int, env: SagaEnv) returns (err: Option<Error>)
      requires Valid() && sessionId in sessions && sessions[sessionId].amountMinor == totalMinor
      requires sessions[sessionId].status == Pending
      requires forall i :: 0 <= i < |pspCalls| ==> pspCalls[i].sessionId != sessionId
      requires forall id :: id in ids ==> id < |orders|
      modifies this
      ensures Valid()
      ensures |orders| == |old(orders)|
      ensures forall i :: 0 <= i < |orders| ==>
        orders[i] == if env.pspFails && i in ids && !env.cancelFails(i) then old(orders)[i].(status := Cancelled)
                     else old(orders)[i]
      ensures sessions == old(sessions)[sessionId := old(sessions)[sessionId].(status := SessionAfter(env))]
      ensures pspCalls == old(pspCalls) + [PspCall(sessionId, totalMinor)]
      ensures err == if env.pspFails then Some(PspFailed) else None
    {
      pspCalls := pspCalls + [PspCall(sessionId, totalMinor)];
      err := None;
      if env.pspFails {
        CancelOrders(ids, env.cancelFails);
        err := Some(PspFailed);
      }
      StatusChangesKeepBooks(old(orders), orders, sessions, sessionId, SessionAfter(env), pspCalls);
      sessions := sessions[sessionId := sessions[sessionId].(status := SessionAfter(env))];
    }

    /** The same for the orders just persisted, from position n on. */
    method SettleTail(sessionId: int, ids: seq<nat>, totalMinor: int, env: SagaEnv, ghost n: nat,
                      ghost added: seq<Order>)
      returns (err: Option<Error>)
      requires Valid() && sessionId in sessions && sessions[sessionId].amountMinor == totalMinor
      requires sessions[sessionId].status == Pending
      requires forall i :: 0 <= i < |pspCalls| ==> pspCalls[i].sessionId != sessionId
      requires Tail(orders, n, added, Waiting()) && forall i :: i in ids <==> n <= i < |orders|
      modifies this
      ensures Valid()
      ensures n <= |orders| && orders[..n] == old(orders)[..n] && Tail(orders, n, added, AfterPayment(env))
      ensures sessions == old(sessions)[sessionId := old(sessions)[sessionId].(status := SessionAfter(env))]
      ensures pspCalls == old(pspCalls) + [PspCall(sessionId, totalMinor)]
      ensures err == if env.pspFails then Some(PspFailed) else None
    {
      ghost var before := orders;
      err := Settle(sessionId, ids, totalMinor, env);
      SettledTail(before, orders, n, added, env);
    }

    /** The transaction that inserts these orders commits. */
    predicate Commits(added: seq<Order>, env: SagaEnv) {
      deferredKey && env.persist != RolledBack && forall i :: 0 <= i < |added| ==> OrderAccepted(added[i])
    }

    /** Steps 4 to 6: the database transaction, the payment call and its aftermath. */
    method PersistAndSettle(sessionId: int, added: seq<Order>, totalMinor: int, env: SagaEnv)
      returns (err: Option<Error>)
      requires Valid() && sessionId !in sessions && added != []
      requires forall i :: 0 <= i < |added| ==> added[i].sessionId == sessionId && added[i].status == PendingPayment
      requires SumBy(added, OrderTotal()) == totalMinor
      modifies this
      ensures Valid()
      ensures !Commits(added, env) ==>
        && orders == old(orders) && sessions == old(sessions) && pspCalls == old(pspCalls)
        && err == Some(PersistFailed)
      ensures Commits(added, env) ==>
        var n, paid := |old(orders)|, env.persist == NoFault;
        && n <= |orders| && orders[..n] == old(orders)
        && Tail(orders, n, added, if paid then AfterPayment(env) else Waiting())
        && sessions == old(sessions)[sessionId :=
             Session(if paid then SessionAfter(env) else Pending, n, |added|, totalMinor)]
        && pspCalls == old(pspCalls) + (if paid then [PspCall(sessionId, totalMinor)] else [])
        && err == (if !paid then Some(PersistFailed) else if env.pspFails then Some(PspFailed) else None)
    {
      NotCalledYet(orders, sessions, pspCalls, sessionId);
      var committed, ids := Persist(sessionId, added, totalMinor, env.persist);
      if !committed || env.persist == CommitAckLost { return Some(PersistFailed); }
      err := SettleTail(sessionId, ids, totalMinor, env, |old(orders)|, added);
      Overwritten(old(sessions), sessionId, Session(Pending, |old(orders)|, |added|, totalMinor), SessionAfter(env));
    }

    /** The call gets as far as the database. */
    ghost predicate Reaches(sessionId: int, items: seq<CartItem>, catalog: Catalog, env: SagaEnv)
      reads this
    {
      && sessionId != NO_SESSION && !env.lookupFails && sessionId !in sessions
      && items != [] && Chargeable(items, catalog)
    }

    /** The call persists: it gets that far, and key, CHECKs and transaction let it. */
    ghost predicate Persists(sessionId: int, items: seq<CartItem>, catalog: Catalog, view: CouponView, env: SagaEnv)
      reads this
    {
      && Reaches(sessionId, items, catalog, env) && env.persist != RolledBack
      && deferredKey && Acceptable(items, catalog, view)
    }

    /** What a call that persists leaves behind, `paid` telling whether the payment provider was called. */
    ghost predicate Effect(sessionId: int, items: seq<CartItem>, catalog: Catalog, view: CouponView, env: SagaEnv,
                           orders0: seq<Order>, sessions0: map<int, Session>, calls0: seq<PspCall>)
      reads this
    {
      var n, amount, paid := |orders0|, Amount(items, catalog, view), env.persist == NoFault;
      && n < |orders| && orders[..n] == orders0
      && Charged(orders[n..], sessionId, items, catalog, view)
      && sessions == sessions0[sessionId :=
           Session(if paid then SessionAfter(env) else Pending, n, |orders| - n, amount)]
      && pspCalls == calls0 + (if paid then [PspCall(sessionId, amount)] else [])
      && (forall i :: n <= i < |orders| ==> orders[i].status == if paid then StatusAfter(env, i) else PendingPayment)
    }

    /** The steps after the guards: price the cart, persist it, settle it. */
    method ChargeCart(sessionId: int, items: seq<CartItem>, catalog: Catalog, view: CouponView, env: SagaEnv)
      returns (err: Option<Error>)
      requires Valid() && sessionId !in sessions && items != []
      modifies this
      ensures Valid()
      ensures var persists := deferredKey && env.persist != RolledBack && Chargeable(items, catalog)
                              && Acceptable(items, catalog, view);
        && (!persists ==> orders == old(orders) && sessions == old(sessions) && pspCalls == old(pspCalls) && err.Some?)
        && (persists ==>
              && Effect(sessionId, items, catalog, view, env, old(orders), old(sessions), old(pspCalls))
              && err == if env.persist != NoFault then Some(PersistFailed)
                        else if env.pspFails then Some(PspFailed) else None)
    {
      var added, totalMinor;
      err, added, totalMinor := PriceCart(sessionId, items, catalog, view);
      if err.Some? { return; }
      ChargedFacts(added, sessionId, items, catalog, view);
      AcceptableIff(added, sessionId, items, catalog, view);
      ghost var n := |orders|;
      err := PersistAndSettle(sessionId, added, totalMinor, env);
      if Commits(added, env) {
        ghost var status := if env.persist == NoFault then AfterPayment(env) else Waiting();
        TailIsCharged(orders, n, added, status, sessionId, items, catalog, view);
      }
    }

    /**
     The whole saga.  Either nothing changes at all, or the session and its orders appear
     together with one payment call (none when the acknowledgement of the commit was
     lost): one order per seller, priced line by line, adding up to the amount of the
     session and of the call.  A repeat with a known session changes nothing; a failed
     payment leaves every order cancelled and the session failed, as far as the
     compensating updates succeed.  As shipped, with an immediate key, nothing ever changes.
     */
    method InitiateCheckout(sessionId: int, items: seq<CartItem>, catalog: Catalog, view: CouponView, env: SagaEnv)
      returns (err: Option<Error>)
      requires Valid()
      modifies this
      ensures Valid()
      ensures !old(Persists(sessionId, items, catalog, view, env)) ==>
        && orders == old(orders) && sessions == old(sessions) && pspCalls == old(pspCalls)
        && (err.None? <==> sessionId != NO_SESSION && !env.lookupFails && sessionId in old(sessions))
      ensures !deferredKey ==> orders == old(orders) && sessions == old(sessions) && pspCalls == old(pspCalls)
      ensures old(Persists(sessionId, items, catalog, view, env)) ==>
        && Effect(sessionId, items, catalog, view, env, old(orders), old(sessions), old(pspCalls))
        && err == if env.persist != NoFault then Some(PersistFailed)
                  else if env.pspFails then Some(PspFailed) else None
    {
      if sessionId == NO_SESSION { return Some(SessionRequired); }
      if env.lookupFails { return Some(PersistFailed); }
      if sessionId in sessions { return None; }
      if |items| == 0 { return Some(EmptyCart); }
      err := ChargeCart(sessionId, items, catalog, view, env);
    }
  }

  /**
   Display equals charge.  For the same cart in any order, the orders of a checkout
   add up to the grand total shown, there is exactly one order per seller row, and
   the order's total is the total shown in that row.
   */
  lemma {:induction false} DisplayEqualsCharge(out: Display, items: seq<CartItem>, items': seq<CartItem>,
                                               catalog: Catalog,
                                               view: CouponView, added: seq<Order>, sessionId: int)
    requires multiset(items) == multiset(items')
    requires DisplayOk(out, items, catalog.variants, view)
    requires Charged(added, sessionId, items', catalog, view)
    ensures SumBy(added, OrderTotal()) == out.grandTotalMinor == Amount(items', catalog, view)
    ensures forall i :: 0 <= i < |added| ==> SellerRow(added[i].sellerId, added[i].totalMinor) in out.totalsBySeller
    ensures forall r :: r in out.totalsBySeller ==> r.sellerId in SellersIn(added)
  {
    ChargedFacts(added, sessionId, items', catalog, view);
    TotalsIgnoreOrder(items, items', catalog.variants, view, 0);
    SameSellers(items, items', catalog.variants);
    forall i | 0 <= i < |added| ensures SellerRow(added[i].sellerId, added[i].totalMinor) in out.totalsBySeller {
      OrderIsShown(out, items, items', catalog, view, added, sessionId, i);
    }
  }

  lemma {:induction false} OrderIsShown(out: Display, items: seq<CartItem>, items': seq<CartItem>, catalog: Catalog,
                                        view: CouponView, added: seq<Order>, sessionId: int, i: nat)
    requires multiset(items) == multiset(items') && i < |added|
    requires DisplayOk(out, items, catalog.variants, view)
    requires Charged(added, sessionId, items', catalog, view)
    ensures SellerRow(added[i].sellerId, added[i].totalMinor) in out.totalsBySeller
  {
    var lines, lines' := Resolved(items, catalog.variants), Resolved(items', catalog.variants);
    var seller, total := added[i].sellerId, added[i].totalMinor;
    assert total == SellerTotal(lines', PctFor(lines', view), seller) by {
      assert OrderOk(added[i], sessionId, lines', catalog.commissions, PctFor(lines', view));
    }
    assert seller in FirstSeen(lines) by {
      SameSellers(items, items', catalog.variants);
      assert SellersIn(added)[i] == seller;
    }
    assert total == SellerTotal(lines, PctFor(lines, view), seller) by {
      TotalsIgnoreOrder(items, items', catalog.variants, view, seller);
    }
    RowIsShown(out.totalsBySeller, FirstSeen(lines), SellerTotals(lines, PctFor(lines, view)), seller);
  }

  lemma {:induction false} RowIsShown(rows: seq<SellerRow>, sellers: seq<int>, total: int -> int, seller: int)
    requires |rows| == |sellers| && seller in sellers
    requires forall k :: 0 <= k < |rows| ==> rows[k] == SellerRow(sellers[k], total(sellers[k]))
    ensures SellerRow(seller, total(seller)) in rows
  { }

  lemma {:induction false} ResolvedSellers(items: seq<CartItem>, variants: map<int, Variant>, s: int)
    ensures s in FirstSeen(Resolved(items, variants)) <==>
      exists it :: it in items && it.variantId in variants && variants[it.variantId].sellerId == s
  {
    if |items| > 0 {
      var front, it := items[..|items| - 1], items[|items| - 1];
      assert items == front + [it];
      ResolvedSellers(front, variants, s);
      if it.variantId in variants {
        FirstSeenAppend(Resolved(front, variants), Line(it, variants[it.variantId]), s);
      } else {
        assert Resolved(front, variants) + [] == Resolved(front, variants);
      }
    }
  }

  lemma {:induction false} SameSellers(items: seq<CartItem>, items': seq<CartItem>, variants: map<int, Variant>)
    requires multiset(items) == multiset(items')
    ensures forall s :: s in FirstSeen(Resolved(items, variants)) <==> s in FirstSeen(Resolved(items', variants))
  {
    forall it: CartItem ensures it in items <==> it in items' {
      assert it in items <==> it in multiset(items);
      assert it in items' <==> it in multiset(items');
    }
    forall s ensures s in FirstSeen(Resolved(items, variants)) <==> s in FirstSeen(Resolved(items', variants)) {
      ResolvedSellers(items, variants, s);
      ResolvedSellers(items', variants, s);
    }
  }
}
