/**
 What holds over every sequence of return requests of an order, and which of the
 returns offered to the buyer can actually be made.
 */
module ReturnBounds {
  import opened Options
  import opened Sums
  import opened Returns

  datatype Call = Call(returned: Snapshot, requested: seq<ReturnLine>)

  function AfterCalls(d: Desk, calls: seq<Call>): Desk
    decreases |calls|
  {
    if |calls| == 0 then d
    else AfterCalls(Created(d, calls[0].returned, calls[0].requested), calls[1..])
  }

  lemma {:induction false} CallsKeepInv(d: Desk, calls: seq<Call>)
    requires Inv(d) && forall i :: 0 <= i < |calls| ==> Sane(calls[i].returned, d.items)
    ensures Inv(AfterCalls(d, calls)) && AfterCalls(d, calls).items == d.items
    decreases |calls|
  {
    if |calls| > 0 {
      CreatedKeepsInv(d, calls[0].returned, calls[0].requested);
      CallsKeepInv(Created(d, calls[0].returned, calls[0].requested), calls[1..]);
    }
  }

  /** With unique rows a group has at most one row. */
  lemma {:induction false} GroupOfUniqueRows(rows: seq<ReturnRow>, id: int, f: ReturnRow -> int)
    requires RowsUnique(rows)
    ensures !HasRow(rows, id) ==> SumBy(rows, Where(ItemIdOf(), id, f)) == 0
    ensures forall i :: 0 <= i < |rows| && rows[i].itemId == id ==> SumBy(rows, Where(ItemIdOf(), id, f)) == f(rows[i])
  {
    if |rows| > 0 {
      var front, last := rows[..|rows| - 1], rows[|rows| - 1];
      GroupOfUniqueRows(front, id, f);
      assert forall i :: 0 <= i < |front| ==> front[i] == rows[i];
      if last.itemId == id {
        assert !HasRow(front, id);
      } else {
        if !HasRow(rows, id) {
          forall i | 0 <= i < |front| ensures front[i].itemId != id { assert rows[i].itemId != id; }
        }
      }
    }
  }

  function ItemPrice(): OrderItem -> int { (it: OrderItem) => it.unitPriceMinor * it.qty }

  function IdsOf(items: seq<OrderItem>): seq<int> { seq(|items|, i requires 0 <= i < |items| => items[i].id) }

  /** What the order was charged: the total of its lines. */
  function OrderTotal(items: seq<OrderItem>): int { SumBy(items, ItemPrice()) }

  lemma {:induction false} FewerCostLess(unit: int, k: int, n: int)
    requires 0 <= unit && 0 <= k <= n
    ensures 0 <= unit * k <= unit * n
  { }

  lemma {:induction false} QuantityWithinOrder(d: Desk, i: nat)
    requires Inv(d) && i < |d.items|
    ensures 0 <= ReturnedQty(d.rows, d.items[i].id) <= d.items[i].qty
    ensures 0 <= SumBy(d.rows, Where(ItemIdOf(), d.items[i].id, RowRefund(d.items))) <= ItemPrice()(d.items[i])
  {
    var id := d.items[i].id;
    GroupOfUniqueRows(d.rows, id, QuantityOf());
    GroupOfUniqueRows(d.rows, id, RowRefund(d.items));
    assert 0 <= d.items[i].unitPriceMinor && 0 <= d.items[i].qty;
    if HasRow(d.rows, id) {
      var k :| 0 <= k < |d.rows| && d.rows[k].itemId == id;
      assert RowOk(d, d.rows[k]) && ItemIndex(d.items, id) == Some(i);
      FewerCostLess(d.items[i].unitPriceMinor, d.rows[k].quantity, d.items[i].qty);
    }
  }

  lemma {:induction false} RefundPerItem(d: Desk, items: seq<OrderItem>, ids: seq<int>)
    requires Inv(d) && |items| <= |d.items| && items == d.items[..|items|] && ids == IdsOf(items)
    ensures SumBy(ids, GroupSum(d.rows, ItemIdOf(), RowRefund(d.items))) <= SumBy(items, ItemPrice())
  {
    if |items| > 0 {
      var n := |items| - 1;
      assert ids[..n] == IdsOf(items[..n]) && items[..n] == d.items[..n];
      RefundPerItem(d, items[..n], ids[..n]);
      QuantityWithinOrder(d, n);
    }
  }

  lemma {:induction false} RefundWithinTotal(d: Desk)
    requires Inv(d)
    ensures SumBy(d.refunds, Identity()) <= OrderTotal(d.items)
  {
    var ids := IdsOf(d.items);
    forall k | 0 <= k < |d.rows| ensures ItemIdOf()(d.rows[k]) in ids {
      assert RowOk(d, d.rows[k]);
      var i := ItemIndex(d.items, d.rows[k].itemId);
      assert ids[i.value] == d.rows[k].itemId;
    }
    GroupsSumToWhole(d.rows, ids, ItemIdOf(), RowRefund(d.items));
    assert d.items == d.items[..|d.items|];
    RefundPerItem(d, d.items, ids);
  }

  /**
   Over every sequence of return requests, each reading quantities as stale as it
   likes, no item is returned more often than it was ordered and the refunds never
   exceed the order's total.
   */
  lemma {:induction false} ReturnsBounded(items: seq<OrderItem>, calls: seq<Call>)
    requires Inv(Desk(items, [], []))
    requires forall i :: 0 <= i < |calls| ==> Sane(calls[i].returned, items)
    ensures var d := AfterCalls(Desk(items, [], []), calls);
      && (forall i :: 0 <= i < |items| ==> 0 <= ReturnedQty(d.rows, items[i].id) <= items[i].qty)
      && SumBy(d.refunds, Identity()) <= OrderTotal(items)
      && RowsUnique(d.rows)
  {
    CallsKeepInv(Desk(items, [], []), calls);
    var d := AfterCalls(Desk(items, [], []), calls);
    forall i | 0 <= i < |items| ensures 0 <= ReturnedQty(d.rows, items[i].id) <= items[i].qty {
      QuantityWithinOrder(d, i);
    }
    RefundWithinTotal(d);
  }

  // ---- what is left is worth what was not refunded ----

  /** An up-to-date reading of the quantities. */
  function Fresh(d: Desk): Snapshot { id => ReturnedQty(d.rows, id) }

  /** The refund of an item is its unit price times what was returned of it. */
  lemma {:induction false} RefundOfItem(d: Desk, i: nat)
    requires Inv(d) && i < |d.items|
    ensures GroupSum(d.rows, ItemIdOf(), RowRefund(d.items))(d.items[i].id)
         == d.items[i].unitPriceMinor * ReturnedQty(d.rows, d.items[i].id)
  {
    var id := d.items[i].id;
    GroupOfUniqueRows(d.rows, id, QuantityOf());
    GroupOfUniqueRows(d.rows, id, RowRefund(d.items));
    if HasRow(d.rows, id) {
      var k :| 0 <= k < |d.rows| && d.rows[k].itemId == id;
      assert ItemIndex(d.items, id) == Some(i);
    }
  }

  lemma {:induction false} SplitPrice(unit: int, qty: int, returned: int)
    ensures unit * returned + unit * (qty - returned) == unit * qty
  { }

  lemma {:induction false} RemainingNext(items: seq<OrderItem>, n: nat, returned: Snapshot, f: ReturnLine -> int)
    requires n < |items|
    ensures var left := items[n].qty - returned(items[n].id);
      SumBy(Remaining(items[..n + 1], returned), f)
        == SumBy(Remaining(items[..n], returned), f) + (if left > 0 then f(ReturnLine(items[n].id, left)) else 0)
  {
    var left := items[n].qty - returned(items[n].id);
    assert items[..n + 1][..n] == items[..n];
    SumByAppend(Remaining(items[..n], returned), ReturnLine(items[n].id, left), f);
    assert Remaining(items[..n], returned) + [] == Remaining(items[..n], returned);
  }

  /** For one item: its refund so far and the refund of its rest make up its price. */
  lemma {:induction false} ItemPlusRest(d: Desk, n: nat)
    requires Inv(d) && n < |d.items|
    ensures var it := d.items[n]; var left := it.qty - Fresh(d)(it.id);
      GroupSum(d.rows, ItemIdOf(), RowRefund(d.items))(it.id)
        + (if left > 0 then LineRefund(d.items)(ReturnLine(it.id, left)) else 0) == ItemPrice()(it)
  {
    var it := d.items[n];
    RefundOfItem(d, n);
    LineRefundIs(d.items, n, it.qty - ReturnedQty(d.rows, it.id));
    SplitPrice(it.unitPriceMinor, it.qty, ReturnedQty(d.rows, it.id));
    QuantityWithinOrder(d, n);
  }

  lemma {:induction false} IdsNext(items: seq<OrderItem>, n: nat, g: int -> int)
    requires n < |items|
    ensures SumBy(IdsOf(items[..n + 1]), g) == SumBy(IdsOf(items[..n]), g) + g(items[n].id)
  {
    assert IdsOf(items[..n + 1]) == IdsOf(items[..n]) + [items[n].id];
    SumByAppend(IdsOf(items[..n]), items[n].id, g);
  }

  lemma {:induction false} PricesNext(items: seq<OrderItem>, n: nat)
    requires n < |items|
    ensures SumBy(items[..n + 1], ItemPrice()) == SumBy(items[..n], ItemPrice()) + ItemPrice()(items[n])
  {
    assert items[..n + 1] == items[..n] + [items[n]];
    SumByAppend(items[..n], items[n], ItemPrice());
  }

  /** Refunds so far, by item. */
  function RefundedFor(d: Desk): int -> int { GroupSum(d.rows, ItemIdOf(), RowRefund(d.items)) }

  lemma {:induction false} RestOfItems(d: Desk, n: nat)
    requires Inv(d) && n <= |d.items|
    ensures SumBy(IdsOf(d.items[..n]), RefundedFor(d)) + SumBy(Remaining(d.items[..n], Fresh(d)), LineRefund(d.items))
         == SumBy(d.items[..n], ItemPrice())
  {
    if n > 0 {
      RestOfItems(d, n - 1);
      IdsNext(d.items, n - 1, RefundedFor(d));
      PricesNext(d.items, n - 1);
      RemainingNext(d.items, n - 1, Fresh(d), LineRefund(d.items));
      ItemPlusRest(d, n - 1);
    }
  }

  /**
   To the unit: what was refunded so far and what returning the rest would refund make up
   the order's total.
   */
  lemma {:induction false} RefundsPlusRest(d: Desk)
    requires Inv(d)
    ensures SumBy(d.refunds, Identity()) + SumBy(Remaining(d.items, Fresh(d)), LineRefund(d.items))
         == OrderTotal(d.items)
  {
    var ids := IdsOf(d.items);
    RestOfItems(d, |d.items|);
    assert d.items[..|d.items|] == d.items;
    forall k | 0 <= k < |d.rows| ensures ItemIdOf()(d.rows[k]) in ids {
      assert RowOk(d, d.rows[k]);
      assert ids[ItemIndex(d.items, d.rows[k].itemId).value] == d.rows[k].itemId;
    }
    GroupsSumToWhole(d.rows, ids, ItemIdOf(), RowRefund(d.items));
  }

  // ---- offers against the guard ----

  /** What the order page offers: items with something left (internal/order/returns.go:228-233). */
  method ComputeReturnable(items: seq<OrderItem>, returned: Snapshot) returns (offers: seq<ReturnLine>)
    ensures offers == Remaining(items, returned)
    ensures forall l :: l in offers <==> IsRest(items, returned, l)
  {
    forall l ensures l in Remaining(items, returned) <==> IsRest(items, returned, l) {
      RemainingIff(items, returned, l);
    }
    offers := [];
    for i := 0 to |items|
      invariant offers == Remaining(items[..i], returned)
    {
      assert items[..i + 1][..i] == items[..i];
      var remaining := items[i].qty - returned(items[i].id);
      if remaining > 0 { offers := offers + [ReturnLine(items[i].id, remaining)]; }
    }
    assert items[..|items|] == items;
  }

  lemma {:induction false} HasRowIffReturned(d: Desk, id: int)
    requires Inv(d)
    ensures HasRow(d.rows, id) <==> ReturnedQty(d.rows, id) > 0
    ensures ReturnedQty(d.rows, id) >= 0
  {
    GroupOfUniqueRows(d.rows, id, QuantityOf());
    if HasRow(d.rows, id) {
      var k :| 0 <= k < |d.rows| && d.rows[k].itemId == id;
      assert RowOk(d, d.rows[k]);
    }
  }

  /** A fresh reading: exactly the requests within what is left that touch only untouched items succeed. */
  lemma {:induction false} FreshReturnSucceedsIff(d: Desk, requested: seq<ReturnLine>)
    requires Inv(d)
    ensures Created(d, Fresh(d), requested) != d <==>
      && Resolvable(d, Fresh(d), requested)
      && var lines := Asked(d.items, Fresh(d), requested);
      && AskedOnce(lines) && forall i :: 0 <= i < |lines| ==> ReturnedQty(d.rows, lines[i].itemId) == 0
  {
    CreatedIff(d, Fresh(d), requested);
    var lines := Asked(d.items, Fresh(d), requested);
    forall i | 0 <= i < |lines| ensures HasRow(d.rows, lines[i].itemId) <==> ReturnedQty(d.rows, lines[i].itemId) != 0 {
      HasRowIffReturned(d, lines[i].itemId);
    }
  }

  /** Some of the item was returned and some is left. */
  predicate PartlyReturned(d: Desk, i: nat)
    requires i < |d.items|
  {
    0 < ReturnedQty(d.rows, d.items[i].id) < d.items[i].qty
  }

  predicate Untouched(d: Desk, i: nat)
    requires i < |d.items|
  {
    ReturnedQty(d.rows, d.items[i].id) == 0 < d.items[i].qty
  }

  /**
   "Return everything that is left" succeeds exactly when some item is untouched and
   none is partly returned: one partly returned item blocks the whole request.
   */
  lemma {:induction false} ReturnTheRestIff(d: Desk)
    requires Inv(d)
    ensures Created(d, Fresh(d), []) != d <==>
      && (exists i :: 0 <= i < |d.items| && Untouched(d, i))
      && (forall i :: 0 <= i < |d.items| ==> !PartlyReturned(d, i))
  {
    var rest := Remaining(d.items, Fresh(d));
    FreshReturnSucceedsIff(d, []);
    RemainingOnce(d.items, Fresh(d));
    forall j | 0 <= j < |rest| ensures LineOk(d.items, Fresh(d), rest[j]) { RestLine(d, rest[j]); }
    if i: nat :| i < |d.items| && PartlyReturned(d, i) {
      RestHas(d, i);
    } else if rest != [] {
      forall j | 0 <= j < |rest| ensures ReturnedQty(d.rows, rest[j].itemId) == 0 { RestLine(d, rest[j]); }
      RestLine(d, rest[0]);
    } else if i: nat :| i < |d.items| && Untouched(d, i) {
      RestHas(d, i);
    }
  }

  lemma {:induction false} RestHas(d: Desk, i: nat)
    requires i < |d.items| && (Untouched(d, i) || PartlyReturned(d, i))
    ensures var rest := Remaining(d.items, Fresh(d)); exists j :: 0 <= j < |rest| && rest[j].itemId == d.items[i].id
  {
    var l := ReturnLine(d.items[i].id, d.items[i].qty - ReturnedQty(d.rows, d.items[i].id));
    RemainingIff(d.items, Fresh(d), l);
    assert l in Remaining(d.items, Fresh(d));
  }

  lemma {:induction false} RestLine(d: Desk, l: ReturnLine)
    requires Inv(d) && l in Remaining(d.items, Fresh(d))
    ensures LineOk(d.items, Fresh(d), l)
    ensures exists i :: 0 <= i < |d.items| && l.itemId == d.items[i].id && (Untouched(d, i) || PartlyReturned(d, i))
  {
    RemainingIff(d.items, Fresh(d), l);
    var i :| 0 <= i < |d.items| && l.itemId == d.items[i].id
             && l.quantity == d.items[i].qty - Fresh(d)(d.items[i].id) > 0;
    HasRowIffReturned(d, l.itemId);
    assert ItemIndex(d.items, l.itemId) == Some(i);
    assert Untouched(d, i) || PartlyReturned(d, i);
  }

  /** Returning an untouched order as a whole refunds exactly its total. */
  lemma {:induction false} WholeOrderRefund(items: seq<OrderItem>)
    requires Inv(Desk(items, [], [])) && exists i :: 0 <= i < |items| && items[i].qty > 0
    ensures Created(Desk(items, [], []), Fresh(Desk(items, [], [])), []).refunds == [OrderTotal(items)]
  {
    var d := Desk(items, [], []);
    var i :| 0 <= i < |items| && items[i].qty > 0;
    assert Untouched(d, i);
    ReturnTheRestIff(d);
    RefundsPlusRest(d);
  }

  /**
   The order page offers the rest of a partly returned item, and the request for it
   is always refused: three ordered, one returned, two offered, none accepted.
   */
  lemma {:induction false} OfferCanBeUnacceptable()
    ensures var d := Desk([OrderItem(1, 3, 100)], [ReturnRow(0, 1, 1)], [100]);
      && Inv(d)
      && Remaining(d.items, Fresh(d)) == [ReturnLine(1, 2)]
      && Created(d, Fresh(d), [ReturnLine(1, 2)]) == d
  {
    var d := Desk([OrderItem(1, 3, 100)], [ReturnRow(0, 1, 1)], [100]);
    SumByAppend([], ReturnRow(0, 1, 1), Where(ItemIdOf(), 1, QuantityOf()));
    SumByAppend([], ReturnRow(0, 1, 1), RowRefund(d.items));
    SumByAppend([], 100, Identity());
    assert [] + [ReturnRow(0, 1, 1)] == d.rows && [] + [100] == d.refunds;
    assert ItemIndex(d.items, 1) == Some(0);
    assert d.items[..0] == [];
    FreshReturnSucceedsIff(d, [ReturnLine(1, 2)]);
  }
}
