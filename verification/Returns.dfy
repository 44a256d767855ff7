/**
 Return requests of one delivered order (internal/order/returns.go,
 internal/order/returns_repository.go).

 The already-returned quantities are read before the transaction and may be stale
 by the time the rows are inserted; UNIQUE (order_id, order_item_id) on the rows
 (migrations/ecom/0070_returns.up.sql:43) is the guard.
 */
module Returns {
  import opened Options
  import opened Sums

  datatype OrderItem = OrderItem(id: int, qty: int, unitPriceMinor: int)
  datatype ReturnLine = ReturnLine(itemId: int, quantity: int)
  datatype ReturnRow = ReturnRow(returnId: nat, itemId: int, quantity: int)

  /** The tables of one order; a return's id is its position in `refunds`. */
  datatype Desk = Desk(items: seq<OrderItem>, rows: seq<ReturnRow>, refunds: seq<int>)

  datatype Error = NoReturnableItems | ItemNotInOrder | QuantityExceedsReturn | ReturnAlreadyExists

  datatype Resolution = Lines(lines: seq<ReturnLine>, refundMinor: int) | Refused(error: Error)

  // ---- reading the tables ----

  predicate ItemsDistinct(items: seq<OrderItem>) {
    forall i, j :: 0 <= i < j < |items| ==> items[i].id != items[j].id
  }

  /** No item is asked for twice. */
  predicate AskedOnce(lines: seq<ReturnLine>) {
    forall i, j :: 0 <= i < j < |lines| ==> lines[i].itemId != lines[j].itemId
  }

  function ItemIndex(items: seq<OrderItem>, id: int): (r: Option<nat>)
    ensures r.Some? ==> r.value < |items| && items[r.value].id == id
    ensures r.None? ==> forall i :: 0 <= i < |items| ==> items[i].id != id
  {
    if |items| == 0 then None
    else if items[|items| - 1].id == id then Some(|items| - 1)
    else ItemIndex(items[..|items| - 1], id)
  }

  function ItemIdOf(): ReturnRow -> int { (r: ReturnRow) => r.itemId }
  function QuantityOf(): ReturnRow -> int { (r: ReturnRow) => r.quantity }

  /** SUM(quantity) of the rows of an item. */
  function ReturnedQty(rows: seq<ReturnRow>, id: int): int { SumBy(rows, Where(ItemIdOf(), id, QuantityOf())) }

  predicate HasRow(rows: seq<ReturnRow>, id: int) {
    exists i :: 0 <= i < |rows| && rows[i].itemId == id
  }

  /** Quantities as some earlier query saw them. */
  type Snapshot = int -> int

  predicate Sane(returned: Snapshot, items: seq<OrderItem>) {
    forall i :: 0 <= i < |items| ==> returned(items[i].id) >= 0
  }

  // ---- resolving the requested lines ----

  /** The default request: everything that is left. */
  function Remaining(items: seq<OrderItem>, returned: Snapshot): seq<ReturnLine> {
    if |items| == 0 then []
    else
      var it := items[|items| - 1];
      Remaining(items[..|items| - 1], returned)
      + (if it.qty - returned(it.id) > 0 then [ReturnLine(it.id, it.qty - returned(it.id))] else [])
  }

  /** The line is all that is left of some item, and that is something. */
  predicate IsRest(items: seq<OrderItem>, returned: Snapshot, l: ReturnLine) {
    exists i :: 0 <= i < |items| && l.itemId == items[i].id && l.quantity == items[i].qty - returned(items[i].id) > 0
  }

  lemma {:induction false} RemainingIff(items: seq<OrderItem>, returned: Snapshot, l: ReturnLine)
    ensures l in Remaining(items, returned) <==> IsRest(items, returned, l)
  {
    if |items| > 0 {
      var front := items[..|items| - 1];
      RemainingIff(front, returned, l);
      assert forall i :: 0 <= i < |front| ==> front[i] == items[i];
    }
  }

  /** Offers follow the items, so distinct items give distinct offers. */
  lemma {:induction false} RemainingOnce(items: seq<OrderItem>, returned: Snapshot)
    requires ItemsDistinct(items)
    ensures AskedOnce(Remaining(items, returned))
  {
    if |items| > 0 {
      var front, it := items[..|items| - 1], items[|items| - 1];
      RemainingOnce(front, returned);
      forall j | 0 <= j < |Remaining(front, returned)| ensures Remaining(front, returned)[j].itemId != it.id {
        RemainingIff(front, returned, Remaining(front, returned)[j]);
      }
    }
  }

  predicate LineOk(items: seq<OrderItem>, returned: Snapshot, l: ReturnLine) {
    var i := ItemIndex(items, l.itemId);
    i.Some? && 1 <= l.quantity <= items[i.value].qty - returned(l.itemId)
  }

  /** A line is good exactly when it asks for one or more, and no more than the reading leaves of some item. */
  lemma {:induction false} LineOkIff(items: seq<OrderItem>, returned: Snapshot, l: ReturnLine)
    requires ItemsDistinct(items)
    ensures LineOk(items, returned, l) <==>
      exists i :: 0 <= i < |items| && items[i].id == l.itemId && 1 <= l.quantity <= items[i].qty - returned(items[i].id)
  { }

  function UnitPrice(items: seq<OrderItem>, id: int): int {
    var i := ItemIndex(items, id);
    if i.Some? then items[i.value].unitPriceMinor else 0
  }

  function LineRefund(items: seq<OrderItem>): ReturnLine -> int {
    (l: ReturnLine) => UnitPrice(items, l.itemId) * l.quantity
  }

  /** A line refunds its quantity at the unit price the item was charged. */
  lemma {:induction false} LineRefundIs(items: seq<OrderItem>, i: nat, quantity: int)
    requires ItemsDistinct(items) && i < |items|
    ensures LineRefund(items)(ReturnLine(items[i].id, quantity)) == items[i].unitPriceMinor * quantity
  {
    assert ItemIndex(items, items[i].id) == Some(i);
  }

  /** The lines actually asked for. */
  function Asked(items: seq<OrderItem>, returned: Snapshot, requested: seq<ReturnLine>): seq<ReturnLine> {
    if |requested| == 0 then Remaining(items, returned) else requested
  }

  /** Line k is the first that is not good, and this is what is wrong with it. */
  predicate FirstBad(items: seq<OrderItem>, returned: Snapshot, lines: seq<ReturnLine>, k: nat, error: Error) {
    && k < |lines| && !LineOk(items, returned, lines[k])
    && (forall j :: 0 <= j < k ==> LineOk(items, returned, lines[j]))
    && (error == ItemNotInOrder <==> forall i :: 0 <= i < |items| ==> items[i].id != lines[k].itemId)
  }

  /** The validation loop: every line is good and this is their refund, or the first bad one. */
  method CheckLines(items: seq<OrderItem>, returned: Snapshot, lines: seq<ReturnLine>) returns (r: Resolution)
    ensures r.Lines? <==> forall i :: 0 <= i < |lines| ==> LineOk(items, returned, lines[i])
    ensures r.Lines? ==> r.lines == lines && r.refundMinor == SumBy(lines, LineRefund(items))
    ensures r.Refused? ==>
      && (r.error == ItemNotInOrder || r.error == QuantityExceedsReturn)
      && exists k :: FirstBad(items, returned, lines, k, r.error)
  {
    var refundMinor := 0;
    for i := 0 to |lines|
      invariant forall k :: 0 <= k < i ==> LineOk(items, returned, lines[k])
      invariant refundMinor == SumBy(lines[..i], LineRefund(items))
    {
      var l := lines[i];
      var oi := ItemIndex(items, l.itemId);
      if oi.None? {
        assert FirstBad(items, returned, lines, i, ItemNotInOrder);
        return Refused(ItemNotInOrder);
      }
      if l.quantity < 1 || l.quantity > items[oi.value].qty - returned(l.itemId) {
        assert FirstBad(items, returned, lines, i, QuantityExceedsReturn);
        return Refused(QuantityExceedsReturn);
      }
      assert lines[..i + 1] == lines[..i] + [l];
      SumByAppend(lines[..i], l, LineRefund(items));
      refundMinor := refundMinor + items[oi.value].unitPriceMinor * l.quantity;
    }
    assert lines[..|lines|] == lines;
    return Lines(lines, refundMinor);
  }

  method ResolveLines(items: seq<OrderItem>, returned: Snapshot, requested: seq<ReturnLine>) returns (r: Resolution)
    ensures r.Lines? <==>
      && Asked(items, returned, requested) != []
      && forall i :: 0 <= i < |Asked(items, returned, requested)| ==>
           LineOk(items, returned, Asked(items, returned, requested)[i])
    ensures r.Lines? ==>
      r.lines == Asked(items, returned, requested) && r.refundMinor == SumBy(r.lines, LineRefund(items))
    ensures r == Refused(NoReturnableItems) <==> Asked(items, returned, requested) == []
    ensures r != Refused(ReturnAlreadyExists)
    ensures r == Refused(ItemNotInOrder) || r == Refused(QuantityExceedsReturn) ==>
      exists k :: FirstBad(items, returned, Asked(items, returned, requested), k, r.error)
  {
    var lines := requested;
    if |lines| == 0 {
      for i := 0 to |items|
        invariant lines == Remaining(items[..i], returned)
      {
        assert items[..i + 1][..i] == items[..i];
        var rem := items[i].qty - returned(items[i].id);
        if rem > 0 { lines := lines + [ReturnLine(items[i].id, rem)]; }
      }
      assert items[..|items|] == items;
    }
    if |lines| == 0 { return Refused(NoReturnableItems); }
    r := CheckLines(items, returned, lines);
  }

  // ---- the invariant of the tables ----

  predicate RowOk(d: Desk, r: ReturnRow) {
    var i := ItemIndex(d.items, r.itemId);
    && r.returnId < |d.refunds|
    && i.Some? && 1 <= r.quantity <= d.items[i.value].qty
  }

  /** An order item is in at most one return, ever. */
  predicate RowsUnique(rows: seq<ReturnRow>) {
    forall i, j :: 0 <= i < j < |rows| ==> rows[i].itemId != rows[j].itemId
  }

  function RowRefund(items: seq<OrderItem>): ReturnRow -> int {
    (r: ReturnRow) => UnitPrice(items, r.itemId) * r.quantity
  }

  function Identity(): int -> int { x => x }

  predicate Inv(d: Desk) {
    && ItemsDistinct(d.items)
    && (forall i :: 0 <= i < |d.items| ==> d.items[i].unitPriceMinor >= 0 && d.items[i].qty >= 0)
    && (forall i :: 0 <= i < |d.rows| ==> RowOk(d, d.rows[i]))
    && RowsUnique(d.rows)
    && SumBy(d.refunds, Identity()) == SumBy(d.rows, RowRefund(d.items))
  }

  // ---- inserting the rows of one return ----

  /** The rows after the inserts, or nothing when the unique guard fires. */
  function Inserted(rows: seq<ReturnRow>, returnId: nat, lines: seq<ReturnLine>): Option<seq<ReturnRow>>
    decreases |lines|
  {
    if |lines| == 0 then Some(rows)
    else if HasRow(rows, lines[0].itemId) then None
    else Inserted(rows + [ReturnRow(returnId, lines[0].itemId, lines[0].quantity)], returnId, lines[1..])
  }

  /** One CreateReturn call whose quantities were read as `returned`. */
  function Created(d: Desk, returned: Snapshot, requested: seq<ReturnLine>): Desk {
    var lines := Asked(d.items, returned, requested);
    if lines == [] || exists i :: 0 <= i < |lines| && !LineOk(d.items, returned, lines[i]) then d
    else
      match Inserted(d.rows, |d.refunds|, lines)
      case None => d
      case Some(rows) => Desk(d.items, rows, d.refunds + [SumBy(lines, LineRefund(d.items))])
  }

  /** One row per line, in order. */
  function RowsFor(returnId: nat, lines: seq<ReturnLine>): (r: seq<ReturnRow>)
    ensures |r| == |lines|
    ensures forall i :: 0 <= i < |r| ==> r[i] == ReturnRow(returnId, lines[i].itemId, lines[i].quantity)
  {
    if |lines| == 0 then []
    else [ReturnRow(returnId, lines[0].itemId, lines[0].quantity)] + RowsFor(returnId, lines[1..])
  }

  /** The unique guard lets the rows in exactly when no item has a row yet and none is asked for twice. */
  lemma {:induction false} InsertedIff(rows: seq<ReturnRow>, returnId: nat, lines: seq<ReturnLine>)
    ensures Inserted(rows, returnId, lines).Some? <==>
      AskedOnce(lines) && forall i :: 0 <= i < |lines| ==> !HasRow(rows, lines[i].itemId)
    decreases |lines|
  {
    if |lines| > 0 && !HasRow(rows, lines[0].itemId) {
      var first, rest := lines[0], lines[1..];
      var row := ReturnRow(returnId, first.itemId, first.quantity);
      InsertedIff(rows + [row], returnId, rest);
      forall id ensures HasRow(rows + [row], id) <==> HasRow(rows, id) || id == first.itemId {
        HasRowAppend(rows, row, id);
      }
      assert forall i :: 0 <= i < |rest| ==> rest[i] == lines[i + 1];
      assert forall i :: 1 <= i < |lines| ==> lines[i] == rest[i - 1];
    }
  }

  lemma {:induction false} Reassociate(rows: seq<ReturnRow>, row: ReturnRow, tail: seq<ReturnRow>)
    ensures rows + [row] + tail == rows + ([row] + tail)
  { }

  /** The rows let in are one per line, in order, after those that were there. */
  lemma {:induction false} InsertedRows(rows: seq<ReturnRow>, returnId: nat, lines: seq<ReturnLine>)
    requires Inserted(rows, returnId, lines).Some?
    ensures Inserted(rows, returnId, lines).value == rows + RowsFor(returnId, lines)
    decreases |lines|
  {
    if |lines| > 0 {
      var row := ReturnRow(returnId, lines[0].itemId, lines[0].quantity);
      var tail := RowsFor(returnId, lines[1..]);
      assert Inserted(rows, returnId, lines) == Inserted(rows + [row], returnId, lines[1..]);
      InsertedRows(rows + [row], returnId, lines[1..]);
      Reassociate(rows, row, tail);
    }
  }

  lemma {:induction false} HasRowAppend(rows: seq<ReturnRow>, row: ReturnRow, id: int)
    ensures HasRow(rows + [row], id) <==> HasRow(rows, id) || row.itemId == id
  {
    if HasRow(rows, id) {
      var i :| 0 <= i < |rows| && rows[i].itemId == id;
      assert (rows + [row])[i] == rows[i];
    }
    assert (rows + [row])[|rows|] == row;
  }

  /** There is something to return and every line is within what the reading leaves. */
  predicate Resolvable(d: Desk, returned: Snapshot, requested: seq<ReturnLine>) {
    var lines := Asked(d.items, returned, requested);
    lines != [] && forall i :: 0 <= i < |lines| ==> LineOk(d.items, returned, lines[i])
  }

  /** Nothing asked for was returned before, and nothing is asked for twice. */
  predicate Unreturned(d: Desk, returned: Snapshot, requested: seq<ReturnLine>) {
    var lines := Asked(d.items, returned, requested);
    AskedOnce(lines) && forall i :: 0 <= i < |lines| ==> !HasRow(d.rows, lines[i].itemId)
  }

  /** For every request and every reading, however stale: exactly when it makes a return. */
  lemma {:induction false} CreatedIff(d: Desk, returned: Snapshot, requested: seq<ReturnLine>)
    ensures Created(d, returned, requested) != d <==>
      Resolvable(d, returned, requested) && Unreturned(d, returned, requested)
  {
    var lines := Asked(d.items, returned, requested);
    InsertedIff(d.rows, |d.refunds|, lines);
    if Resolvable(d, returned, requested) && Unreturned(d, returned, requested) {
      assert |Created(d, returned, requested).refunds| == |d.refunds| + 1;
    }
  }

  class ReturnService {
    var desk: Desk

    constructor (items: seq<OrderItem>)
      ensures desk == Desk(items, [], [])
    {
      desk := Desk(items, [], []);
    }

    /** The transaction inserts row by row and rolls everything back when the guard fires. */
    method CreateReturn(returned: Snapshot, requested: seq<ReturnLine>) returns (err: Option<Error>)
      modifies this
      ensures desk == Created(old(desk), returned, requested)
      ensures err.None? <==> Resolvable(old(desk), returned, requested) && Unreturned(old(desk), returned, requested)
      ensures err == Some(ReturnAlreadyExists) <==>
        Resolvable(old(desk), returned, requested) && !Unreturned(old(desk), returned, requested)
      ensures err.Some? ==> desk == old(desk)
    {
      CreatedIff(desk, returned, requested);
      InsertedIff(desk.rows, |desk.refunds|, Asked(desk.items, returned, requested));
      var r := ResolveLines(desk.items, returned, requested);
      if r.Refused? { return Some(r.error); }
      var rows := desk.rows;
      var returnId := |desk.refunds|;
      for i := 0 to |r.lines|
        invariant desk == old(desk)
        invariant Inserted(rows, returnId, r.lines[i..]) == Inserted(desk.rows, returnId, r.lines)
      {
        assert r.lines[i..][1..] == r.lines[i + 1..];
        if HasRow(rows, r.lines[i].itemId) { return Some(ReturnAlreadyExists); }
        rows := rows + [ReturnRow(returnId, r.lines[i].itemId, r.lines[i].quantity)];
      }
      desk := Desk(desk.items, rows, desk.refunds + [r.refundMinor]);
      return None;
    }
  }

  lemma {:induction false} InsertedKeepsRows(d: Desk, returnId: nat, lines: seq<ReturnLine>, returned: Snapshot,
                                             rows: seq<ReturnRow>)
    requires Sane(returned, d.items)
    requires forall i :: 0 <= i < |lines| ==> LineOk(d.items, returned, lines[i])
    requires forall i :: 0 <= i < |rows| ==> RowOk(d, rows[i])
    requires RowsUnique(rows) && returnId < |d.refunds|
    requires Inserted(rows, returnId, lines).Some?
    ensures var rows' := Inserted(rows, returnId, lines).value;
      && (forall i :: 0 <= i < |rows'| ==> RowOk(d, rows'[i]))
      && RowsUnique(rows')
      && SumBy(rows', RowRefund(d.items)) == SumBy(rows, RowRefund(d.items)) + SumBy(lines, LineRefund(d.items))
    decreases |lines|
  {
    if |lines| > 0 {
      var row := ReturnRow(returnId, lines[0].itemId, lines[0].quantity);
      var oi := ItemIndex(d.items, lines[0].itemId);
      assert LineOk(d.items, returned, lines[0]) && returned(d.items[oi.value].id) >= 0;
      assert RowsUnique(rows + [row]);
      InsertedKeepsRows(d, returnId, lines[1..], returned, rows + [row]);
      SumByAppend(rows, row, RowRefund(d.items));
      SumByConcat([lines[0]], lines[1..], LineRefund(d.items));
      assert [lines[0]] + lines[1..] == lines;
      SumByAppend([], lines[0], LineRefund(d.items));
      assert [] + [lines[0]] == [lines[0]];
    }
  }

  /** Any call, from any stale snapshot, keeps the tables right. */
  lemma {:induction false} CreatedKeepsInv(d: Desk, returned: Snapshot, requested: seq<ReturnLine>)
    requires Inv(d) && Sane(returned, d.items)
    ensures Inv(Created(d, returned, requested))
    ensures Created(d, returned, requested).items == d.items
  {
    var d' := Created(d, returned, requested);
    if d' != d {
      var lines := Asked(d.items, returned, requested);
      var wide := d.(refunds := d'.refunds);
      assert forall i :: 0 <= i < |d.rows| ==> RowOk(wide, d.rows[i]);
      InsertedKeepsRows(wide, |d.refunds|, lines, returned, d.rows);
      SumByAppend(d.refunds, SumBy(lines, LineRefund(d.items)), Identity());
      forall i | 0 <= i < |d'.rows| ensures RowOk(d', d'.rows[i]) { assert RowOk(wide, d'.rows[i]); }
    }
  }
}
