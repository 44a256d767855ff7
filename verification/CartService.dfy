/**
 One Reserve call run to the end, with its compensation, and the repository calls
 it is made of (internal/cart/service.go:55-117, internal/cart/repository.go).
 */
module CartService {
  import opened Options
  import opened Sets
  import opened Sums
  import opened Stock

  datatype Error = CartEmpty | InvalidQty | OutOfStock | StoreFailure | ReservationNotFound

  /** A counter that was not negative is not negative. */
  predicate NoDebt(start: Counters, now: Counters, v: VariantId) { Count(start, v) >= 0 ==> Count(now, v) >= 0 }

  /** Exactly these items have been taken, none on credit. */
  ghost predicate Taken(start: Counters, now: Counters, items: seq<Item>) {
    forall v :: Count(now, v) == Count(start, v) - Units(items, v) && NoDebt(start, now, v)
  }

  /** The store's counters read like the machine's. */
  ghost predicate Mirrors(stock: Counters, w: World) {
    forall v :: Count(stock, v) == Count(w.stock, v)
  }

  /** The machine has taken the steps: one more saga than in `w`, which is `g`, and counters like the store's. */
  ghost predicate Reached(w: World, steps: seq<Step>, stock: Counters, g: Saga) {
    && CanRun(w, steps) && Mirrors(stock, Run(w, steps))
    && Run(w, steps).sagas == w.sagas + [g]
  }

  /** The new saga holds its items, or has failed after taking and giving back some of them. */
  ghost predicate Ended(w: World, steps: seq<Step>, stock: Counters, items: seq<Item>, ok: bool) {
    if ok then Reached(w, steps, stock, Saga(items, items, Manifest(items), Holding))
    else exists i :: 0 <= i <= |items| && Reached(w, steps, stock, Saga(items, items[..i], map[], Failed))
  }

  lemma {:induction false} ReachStart(w: World, stock: Counters, items: seq<Item>)
    requires Mirrors(stock, w) && items != [] && DistinctVariants(items)
    ensures Reached(w, [Start(items)], stock, Saga(items, items[..0], map[], Reserving))
  {
    assert [] + [Start(items)] == [Start(items)];
    RunSnoc(w, [], Start(items));
  }

  /** A script call that takes the item takes it in the machine too; any other makes it compensate. */
  lemma {:induction false} ReachNext(w: World, steps: seq<Step>, stock: Counters, items: seq<Item>, i: nat, fails: bool)
    requires i < |items| && Reached(w, steps, stock, Saga(items, items[..i], map[], Reserving))
    ensures var it := items[i]; var steps' := steps + [TryReserve(|w.sagas|, fails)];
      if it.qty <= 0 || fails || Count(stock, it.variant) < it.qty
      then Reached(w, steps', stock, Saga(items, items[..i], map[], Compensating))
      else Reached(w, steps', Bumped(stock, it.variant, -it.qty), Saga(items, items[..i + 1], map[], Reserving))
  {
    var it, now := items[i], Run(w, steps).stock;
    RunSnoc(w, steps, TryReserve(|w.sagas|, fails));
    assert items[..i] + [it] == items[..i + 1];
    var less, lessNow := Bumped(stock, it.variant, -it.qty), Bumped(now, it.variant, -it.qty);
    forall v ensures Count(less, v) == Count(lessNow, v) {
      assert Count(stock, v) == Count(now, v) && Count(stock, it.variant) == Count(now, it.variant);
    }
  }

  lemma {:induction false} ReachManifest(w: World, steps: seq<Step>, stock: Counters, items: seq<Item>, fails: bool)
    requires Reached(w, steps, stock, Saga(items, items[..|items|], map[], Reserving))
    ensures Reached(w, steps + [WriteManifest(|w.sagas|, fails)], stock,
                    if fails then Saga(items, items[..|items|], map[], Compensating)
                    else Saga(items, items[..|items|], Manifest(items), Holding))
  {
    assert items[..|items|] == items;
    RunSnoc(w, steps, WriteManifest(|w.sagas|, fails));
  }

  /** Compensation gives the machine's counters back what was taken. */
  lemma {:induction false} ReachFailed(w: World, steps: seq<Step>, start: Counters, stock: Counters, items: seq<Item>,
                                       i: nat)
    requires i <= |items| && DistinctVariants(items) && Taken(start, stock, items[..i])
    requires Reached(w, steps, stock, Saga(items, items[..i], map[], Compensating))
    ensures Reached(w, steps + [Compensate(|w.sagas|)], start, Saga(items, items[..i], map[], Failed))
  {
    RunSnoc(w, steps, Compensate(|w.sagas|));
    forall v ensures Count(Manifest(items[..i]), v) == Units(items[..i], v) { ManifestExact(items[..i], v); }
  }

  lemma {:induction false} UnitsNext(items: seq<Item>, i: nat)
    requires i < |items|
    ensures forall v :: Units(items[..i + 1], v) == Units(items[..i], v) + UnitsOf(v)(items[i])
  {
    assert items[..i + 1] == items[..i] + [items[i]];
    forall v ensures Units(items[..i + 1], v) == Units(items[..i], v) + UnitsOf(v)(items[i]) {
      SumByAppend(items[..i], items[i], UnitsOf(v));
    }
  }

  /** A variant is not touched before its own line. */
  lemma {:induction false} NoUnitsBefore(items: seq<Item>, i: nat)
    requires DistinctVariants(items) && i < |items|
    ensures Units(items[..i], items[i].variant) == 0
  {
    SumByZero(items[..i], UnitsOf(items[i].variant));
  }

  /** Before its own line a variant's counter is where it started. */
  lemma {:induction false} StockUntouched(start: Counters, now: Counters, items: seq<Item>, i: nat)
    requires DistinctVariants(items) && i < |items| && Taken(start, now, items[..i])
    ensures Count(now, items[i].variant) == Count(start, items[i].variant)
  {
    NoUnitsBefore(items, i);
  }

  lemma {:induction false} TakeOneMore(start: Counters, now: Counters, items: seq<Item>, i: nat)
    requires DistinctVariants(items) && i < |items| && Taken(start, now, items[..i])
    requires items[i].qty <= Count(now, items[i].variant)
    ensures Taken(start, Bumped(now, items[i].variant, -items[i].qty), items[..i + 1])
    ensures items[i].qty <= Count(start, items[i].variant)
  {
    NoUnitsBefore(items, i);
    UnitsNext(items, i);
    var next := Bumped(now, items[i].variant, -items[i].qty);
    forall v ensures Count(next, v) == Count(start, v) - Units(items[..i + 1], v) && NoDebt(start, next, v) {
      assert Count(now, v) == Count(start, v) - Units(items[..i], v) && NoDebt(start, now, v);
    }
  }

  class CartStore {
    var stock: Counters
    var manifests: map<nat, Counters>

    constructor (stock: Counters)
      ensures this.stock == stock && manifests == map[]
    {
      this.stock, manifests := stock, map[];
    }

    /** The reservation script: check and decrement in one go. */
    method TryReserve(v: VariantId, qty: int, fails: bool) returns (err: Option<Error>)
      modifies this`stock
      ensures err == if fails then Some(StoreFailure) else if Count(old(stock), v) < qty then Some(OutOfStock) else None
      ensures err.None? ==> stock == Bumped(old(stock), v, -qty)
      ensures err.Some? ==> stock == old(stock)
    {
      if fails { return Some(StoreFailure); }
      var current := Count(stock, v);
      if current < qty { return Some(OutOfStock); }
      stock := stock[v := current - qty];
      return None;
    }

    /** Gives back every unit in the manifest, one variant at a time in any order, then deletes it. */
    method ReleaseReservation(id: nat, ghost w: World, ghost s: nat) returns (err: Option<Error>)
      modifies this
      ensures err == if id in old(manifests) && |old(manifests)[id]| > 0 then None else Some(ReservationNotFound)
      ensures err.None? ==>
        && manifests == old(manifests) - {id}
        && forall v :: Count(stock, v) == Count(old(stock), v) + Count(old(manifests)[id], v)
      ensures err.Some? ==> stock == old(stock) && manifests == old(manifests)
      ensures err.None? && Enabled(w, Release(s)) && Mirrors(old(stock), w) ==>
        old(manifests)[id] == w.sagas[s].manifest ==> Mirrors(stock, Apply(w, Release(s)))
    {
      if id !in manifests || |manifests[id]| == 0 { return Some(ReservationNotFound); }
      var data := manifests[id];
      var todo := data.Keys;
      while todo != {}
        invariant todo <= data.Keys && manifests == old(manifests)
        invariant forall v :: Count(stock, v) == Count(old(stock), v) + (if v in todo then 0 else Count(data, v))
        decreases todo
      {
        var v := Pick(todo);
        stock := Bumped(stock, v, data[v]);
        todo := todo - {v};
      }
      manifests := manifests - {id};
      return None;
    }

    /** The sale keeps the units: the manifest goes, the counters stay; nothing to do when it is gone already. */
    method CommitReservation(id: nat, ghost w: World, ghost s: nat)
      modifies this`manifests
      ensures manifests == old(manifests) - {id}
      ensures Enabled(w, Commit(s)) && Mirrors(stock, w) ==> Mirrors(stock, Apply(w, Commit(s)))
    {
      manifests := manifests - {id};
    }

    /** A sold reservation cannot be given back: its units are gone for good. */
    method ReleaseAfterCommit(id: nat) returns (err: Option<Error>)
      modifies this
      ensures err == Some(ReservationNotFound) && stock == old(stock) && manifests == old(manifests) - {id}
    {
      ghost var none := World(map[], [], map[], map[], map[]);
      CommitReservation(id, none, 0);
      err := ReleaseReservation(id, none, 0);
    }

    /** Undoes the calls that succeeded. */
    method ReleasePartial(id: nat, reserved: seq<Item>)
      requires DistinctVariants(reserved) && id !in manifests
      modifies this
      ensures manifests == old(manifests)
      ensures forall v :: Count(stock, v) == Count(old(stock), v) + Units(reserved, v)
    {
      if |reserved| == 0 { return; }
      manifests := manifests[id := Manifest(reserved)];
      ManifestKeys(reserved, reserved[0].variant);
      assert reserved[0].variant in manifests[id];
      ghost var taken := Manifest(reserved);
      var err := ReleaseReservation(id, World(map[], [], map[], map[], map[]), 0);
      forall v ensures Count(taken, v) == Units(reserved, v) { ManifestExact(reserved, v); }
      assert manifests == old(manifests);
    }

    /** Compensation after the first i items: every counter is back where it started, as in the machine. */
    method Undo(id: nat, items: seq<Item>, i: nat, ghost start: Counters, ghost w: World, ghost steps: seq<Step>)
      returns (ghost steps': seq<Step>)
      requires DistinctVariants(items) && i <= |items| && id !in manifests && Taken(start, stock, items[..i])
      requires Reached(w, steps, stock, Saga(items, items[..i], map[], Compensating))
      modifies this
      ensures manifests == old(manifests) && forall v :: Count(stock, v) == Count(start, v)
      ensures Reached(w, steps', stock, Saga(items, items[..i], map[], Failed))
    {
      ReachFailed(w, steps, start, stock, items, i);
      steps' := steps + [Compensate(|w.sagas|)];
      ReleasePartial(id, items[..i]);
    }

    /** The body of the loop: takes item i, or undoes everything and says why. */
    method TakeItem(id: nat, items: seq<Item>, i: nat, fails: bool, ghost start: Counters, ghost w: World,
                    ghost steps: seq<Step>)
      returns (err: Option<Error>, ghost steps': seq<Step>)
      requires DistinctVariants(items) && i < |items| && id !in manifests && Taken(start, stock, items[..i])
      requires Reached(w, steps, stock, Saga(items, items[..i], map[], Reserving))
      modifies this
      ensures manifests == old(manifests)
      ensures err.None? <==> 0 < items[i].qty <= Count(start, items[i].variant) && !fails
      ensures err.None? ==>
        && Taken(start, stock, items[..i + 1])
        && Reached(w, steps', stock, Saga(items, items[..i + 1], map[], Reserving))
      ensures err.Some? ==>
        && (forall v :: Count(stock, v) == Count(start, v))
        && Reached(w, steps', stock, Saga(items, items[..i], map[], Failed))
    {
      var it := items[i];
      StockUntouched(start, stock, items, i);
      ReachNext(w, steps, stock, items, i, fails);
      steps' := steps + [Step.TryReserve(|w.sagas|, fails)];
      if it.qty <= 0 {
        steps' := Undo(id, items, i, start, w, steps');
        return Some(InvalidQty), steps';
      }
      ghost var before := stock;
      err := TryReserve(it.variant, it.qty, fails);
      if err.Some? {
        steps' := Undo(id, items, i, start, w, steps');
      } else {
        TakeOneMore(start, before, items, i);
      }
    }

    /** After the loop: writes the manifest, or undoes everything. */
    method Finish(id: nat, items: seq<Item>, manifestFails: bool, ghost start: Counters, ghost w: World,
                  ghost steps: seq<Step>)
      returns (err: Option<Error>, ghost steps': seq<Step>)
      requires DistinctVariants(items) && id !in manifests && Taken(start, stock, items[..|items|])
      requires Reached(w, steps, stock, Saga(items, items[..|items|], map[], Reserving))
      modifies this
      ensures err == if manifestFails then Some(StoreFailure) else None
      ensures Ended(w, steps', stock, items, err.None?)
      ensures err.None? ==>
        && manifests == old(manifests)[id := Manifest(items)] && stock == old(stock) && Taken(start, stock, items)
        && forall v :: Count(manifests[id], v) == Units(items, v)
      ensures err.Some? ==> manifests == old(manifests) && forall v :: Count(stock, v) == Count(start, v)
    {
      assert items[..|items|] == items;
      ReachManifest(w, steps, stock, items, manifestFails);
      steps' := steps + [WriteManifest(|w.sagas|, manifestFails)];
      if manifestFails {
        steps' := Undo(id, items, |items|, start, w, steps');
        return Some(StoreFailure), steps';
      }
      manifests := manifests[id := Manifest(items)];
      forall v ensures Count(manifests[id], v) == Units(items, v) { ManifestExact(items, v); }
      err := None;
    }

    /**
     All or nothing.  It succeeds exactly when the cart is not empty, every quantity is
     positive and in stock, and no call fails.  On success the manifest holds exactly the
     cart and every counter went down by exactly its units; on any failure, at any item,
     every counter and every manifest is as before.  The call is a run of the machine:
     started, one script call per item, then the manifest or the compensation.
     */
    method Reserve(items: seq<Item>, id: nat, tryFails: nat -> bool, manifestFails: bool, ghost w: World)
      returns (err: Option<Error>, ghost steps: seq<Step>)
      requires DistinctVariants(items) && id !in manifests && Mirrors(stock, w)
      modifies this
      ensures err.None? <==>
        && items != [] && !manifestFails
        && forall i :: 0 <= i < |items| ==> 0 < items[i].qty <= Count(old(stock), items[i].variant) && !tryFails(i)
      ensures err.None? ==>
        && manifests == old(manifests)[id := Manifest(items)]
        && (forall v :: Count(manifests[id], v) == Units(items, v))
        && Taken(old(stock), stock, items)
      ensures err.Some? ==>
        manifests == old(manifests) && forall v :: Count(stock, v) == Count(old(stock), v)
      ensures forall v :: NoDebt(old(stock), stock, v)
      ensures items == [] ==> steps == []
      ensures items != [] ==> Ended(w, steps, stock, items, err.None?)
    {
      steps := [];
      if |items| == 0 { return Some(CartEmpty), steps; }
      steps := [Start(items)];
      ReachStart(w, stock, items);
      for i := 0 to |items|
        invariant manifests == old(manifests) && Taken(old(stock), stock, items[..i])
        invariant forall k :: 0 <= k < i ==> 0 < items[k].qty <= Count(old(stock), items[k].variant) && !tryFails(k)
        invariant Reached(w, steps, stock, Saga(items, items[..i], map[], Reserving))
      {
        err, steps := TakeItem(id, items, i, tryFails(i), old(stock), w, steps);
        if err.Some? {
          assert Ended(w, steps, stock, items, false);
          return;
        }
      }
      err, steps := Finish(id, items, manifestFails, old(stock), w, steps);
    }
  }
}
