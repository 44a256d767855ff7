/**
 Stock counters, reservations and their manifests (internal/cart/repository.go),
 and every interleaving of many users' reservations at the granularity of one Redis
 call (internal/cart/service.go).
 */
module Stock {
  import opened Sums

  type VariantId = int
  type Counters = map<VariantId, int>

  datatype Item = Item(variant: VariantId, qty: int)

  /** GET with a missing key read as 0. */
  function Count(m: Counters, v: VariantId): int { if v in m then m[v] else 0 }

  /** INCRBY: creates the key when missing. */
  function Bumped(m: Counters, v: VariantId, n: int): Counters { m[v := Count(m, v) + n] }

  /** Units of a variant in a list of items. */
  function UnitsOf(v: VariantId): Item -> int { (it: Item) => if it.variant == v then it.qty else 0 }
  function Units(items: seq<Item>, v: VariantId): int { SumBy(items, UnitsOf(v)) }

  /** The manifest hash: one field per variant, the last write wins. */
  function Manifest(items: seq<Item>): Counters {
    if |items| == 0 then map[]
    else Manifest(items[..|items| - 1])[items[|items| - 1].variant := items[|items| - 1].qty]
  }

  /** Every counter of `m` added to `s`. */
  function Added(s: Counters, m: Counters): Counters {
    map v | v in s.Keys + m.Keys :: Count(s, v) + Count(m, v)
  }

  /** A cart hash lists each variant once. */
  predicate DistinctVariants(items: seq<Item>) {
    forall i, j :: 0 <= i < j < |items| ==> items[i].variant != items[j].variant
  }

  lemma {:induction false} ManifestKeys(items: seq<Item>, v: VariantId)
    ensures v in Manifest(items) <==> exists i :: 0 <= i < |items| && items[i].variant == v
  {
    if |items| > 0 {
      var front := items[..|items| - 1];
      ManifestKeys(front, v);
      if v in Manifest(front) {
        var i :| 0 <= i < |front| && front[i].variant == v;
        assert items[i].variant == v;
      }
    }
  }

  /** The manifest remembers exactly the units taken, because no variant is listed twice. */
  lemma {:induction false} ManifestExact(items: seq<Item>, v: VariantId)
    requires DistinctVariants(items)
    ensures Count(Manifest(items), v) == Units(items, v)
  {
    if |items| > 0 {
      var front, last := items[..|items| - 1], items[|items| - 1];
      ManifestExact(front, v);
      ManifestKeys(front, last.variant);
    }
  }

  /** With a variant listed twice the manifest forgets units: the cart must be a hash. */
  lemma {:induction false} ManifestForgetsDuplicates(v: VariantId)
    ensures var items := [Item(v, 2), Item(v, 3)];
      Units(items, v) == 5 && Count(Manifest(items), v) == 3
  {
    var items := [Item(v, 2)] + [Item(v, 3)];
    SumByAppend([], Item(v, 2), UnitsOf(v));
    SumByAppend([Item(v, 2)], Item(v, 3), UnitsOf(v));
    assert [] + [Item(v, 2)] == [Item(v, 2)];
    assert items == [Item(v, 2), Item(v, 3)];
  }

  // ---- the machine ----

  datatype Phase =
    | Reserving            // taking items one script call at a time
    | Compensating         // some item failed; give back what was taken
    | Holding              // manifest written
    | Failed               // compensated
    | Released             // given back
    | Sold                 // committed
    | Lapsed               // keys expired while holding
    | Crashed              // process gone before the manifest was written; keys expire

  /** `reserved` are the items taken so far, `manifest` the hash once written. */
  datatype Saga = Saga(items: seq<Item>, reserved: seq<Item>, manifest: Counters, phase: Phase)

  datatype World = World(stock: Counters, sagas: seq<Saga>, seeded: Counters, committed: Counters, expired: Counters)

  datatype Step =
    | SeedIfAbsent(variant: VariantId, units: int)
    | Start(items: seq<Item>)
    | TryReserve(s: nat, fails: bool)
    | WriteManifest(s: nat, fails: bool)
    | Compensate(s: nat)
    | Release(s: nat)
    | Commit(s: nat)
    | Expire(s: nat)
    | Crash(s: nat)

  predicate Closed(p: Phase) { p == Failed || p == Released || p == Sold || p == Lapsed || p == Crashed }

  predicate InPhase(w: World, s: nat, phase: Phase) { s < |w.sagas| && w.sagas[s].phase == phase }

  predicate Enabled(w: World, step: Step) {
    match step
    case SeedIfAbsent(_, units) => units >= 0
    case Start(items) => items != [] && DistinctVariants(items)
    case TryReserve(s, _) => InPhase(w, s, Reserving) && |w.sagas[s].reserved| < |w.sagas[s].items|
    case WriteManifest(s, _) => InPhase(w, s, Reserving) && |w.sagas[s].reserved| == |w.sagas[s].items|
    case Compensate(s) => InPhase(w, s, Compensating)
    case Release(s) => InPhase(w, s, Holding)
    case Commit(s) => InPhase(w, s, Holding)
    case Expire(s) => InPhase(w, s, Holding)
    case Crash(s) => InPhase(w, s, Reserving) || InPhase(w, s, Compensating)
  }

  function WithSaga(w: World, s: nat, saga: Saga): World
    requires s < |w.sagas|
  {
    w.(sagas := w.sagas[s := saga])
  }

  function Apply(w: World, step: Step): World
    requires Enabled(w, step)
  {
    match step
    case SeedIfAbsent(v, units) =>
      if v in w.stock then w else w.(stock := w.stock[v := units], seeded := Bumped(w.seeded, v, units))
    case Start(items) => w.(sagas := w.sagas + [Saga(items, [], map[], Reserving)])
    case TryReserve(s, fails) =>
      var saga := w.sagas[s];
      var it := saga.items[|saga.reserved|];
      if it.qty <= 0 || fails || Count(w.stock, it.variant) < it.qty
      then WithSaga(w, s, saga.(phase := Compensating))
      else WithSaga(w, s, saga.(reserved := saga.reserved + [it])).(stock := Bumped(w.stock, it.variant, -it.qty))
    case WriteManifest(s, fails) =>
      var saga := w.sagas[s];
      WithSaga(w, s, if fails then saga.(phase := Compensating)
                     else saga.(phase := Holding, manifest := Manifest(saga.reserved)))
    case Compensate(s) =>
      WithSaga(w, s, w.sagas[s].(phase := Failed)).(stock := Added(w.stock, Manifest(w.sagas[s].reserved)))
    case Release(s) =>
      WithSaga(w, s, w.sagas[s].(phase := Released)).(stock := Added(w.stock, w.sagas[s].manifest))
    case Commit(s) =>
      WithSaga(w, s, w.sagas[s].(phase := Sold)).(committed := Added(w.committed, w.sagas[s].manifest))
    case Expire(s) =>
      WithSaga(w, s, w.sagas[s].(phase := Lapsed)).(expired := Added(w.expired, w.sagas[s].manifest))
    case Crash(s) =>
      WithSaga(w, s, w.sagas[s].(phase := Crashed)).(expired := Added(w.expired, Manifest(w.sagas[s].reserved)))
  }

  predicate CanRun(w: World, steps: seq<Step>)
    decreases |steps|
  {
    |steps| > 0 ==> Enabled(w, steps[0]) && CanRun(Apply(w, steps[0]), steps[1..])
  }

  function Run(w: World, steps: seq<Step>): World
    requires CanRun(w, steps)
    decreases |steps|
  {
    if |steps| == 0 then w else Run(Apply(w, steps[0]), steps[1..])
  }

  lemma {:induction false} RunSnoc(w: World, steps: seq<Step>, step: Step)
    requires CanRun(w, steps) && Enabled(Run(w, steps), step)
    ensures CanRun(w, steps + [step]) && Run(w, steps + [step]) == Apply(Run(w, steps), step)
    decreases |steps|
  {
    if |steps| == 0 {
      assert (steps + [step])[1..] == [];
    } else {
      assert (steps + [step])[0] == steps[0] && (steps + [step])[1..] == steps[1..] + [step];
      RunSnoc(Apply(w, steps[0]), steps[1..], step);
    }
  }

  // ---- conservation ----

  /** Units of a variant a saga holds. */
  function HeldBy(v: VariantId): Saga -> int {
    (g: Saga) =>
      if Closed(g.phase) then 0 else if g.phase == Holding then Count(g.manifest, v) else Units(g.reserved, v)
  }

  /** Units of a variant a saga has sold. */
  function SoldBy(v: VariantId): Saga -> int { (g: Saga) => if g.phase == Sold then Units(g.reserved, v) else 0 }

  /** Units of a variant that were lost with a saga. */
  function LostBy(v: VariantId): Saga -> int {
    (g: Saga) => if g.phase == Lapsed || g.phase == Crashed then Units(g.reserved, v) else 0
  }

  function Held(w: World, v: VariantId): int { SumBy(w.sagas, HeldBy(v)) }

  predicate Balanced(w: World, v: VariantId) {
    && Count(w.stock, v) >= 0
    && Count(w.stock, v) + Held(w, v) + Count(w.committed, v) + Count(w.expired, v) == Count(w.seeded, v)
  }

  /** The committed units are those of the sold sagas, the expired ones those of the lost sagas. */
  predicate Attributed(w: World, v: VariantId) {
    Count(w.committed, v) == SumBy(w.sagas, SoldBy(v)) && Count(w.expired, v) == SumBy(w.sagas, LostBy(v))
  }

  predicate SagaOk(g: Saga) {
    && DistinctVariants(g.items)
    && |g.reserved| <= |g.items| && g.reserved == g.items[..|g.reserved|]
    && (forall i :: 0 <= i < |g.reserved| ==> g.reserved[i].qty > 0)
    && (g.phase == Holding ==> g.manifest == Manifest(g.reserved))
  }

  predicate NoBooks(w: World, v: VariantId) {
    Count(w.seeded, v) == 0 && Held(w, v) == 0 && Count(w.committed, v) == 0 && Count(w.expired, v) == 0
  }

  /** The books of a variant balance; a variant never seeded has no books. */
  predicate VariantOk(w: World, v: VariantId) {
    Balanced(w, v) && Attributed(w, v) && (v !in w.stock ==> NoBooks(w, v))
  }

  ghost predicate Inv(w: World) {
    && (forall s :: 0 <= s < |w.sagas| ==> SagaOk(w.sagas[s]))
    && (forall v :: VariantOk(w, v))
  }

  lemma {:induction false} UnitsNonNegative(items: seq<Item>, v: VariantId)
    requires forall i :: 0 <= i < |items| ==> items[i].qty > 0
    ensures Units(items, v) >= 0
    ensures Units(items, v) == 0 ==> forall i :: 0 <= i < |items| ==> items[i].variant != v
  {
    if |items| > 0 { UnitsNonNegative(items[..|items| - 1], v); }
  }

  lemma {:induction false} HeldNonNegative(sagas: seq<Saga>, v: VariantId)
    requires forall s :: 0 <= s < |sagas| ==> SagaOk(sagas[s])
    ensures SumBy(sagas, HeldBy(v)) >= 0
    ensures forall s :: 0 <= s < |sagas| ==> 0 <= HeldBy(v)(sagas[s]) <= SumBy(sagas, HeldBy(v))
  {
    if |sagas| > 0 {
      var front, g := sagas[..|sagas| - 1], sagas[|sagas| - 1];
      HeldNonNegative(front, v);
      UnitsNonNegative(g.reserved, v);
      if g.phase == Holding { ManifestExact(g.reserved, v); }
      forall s | 0 <= s < |sagas| ensures 0 <= HeldBy(v)(sagas[s]) <= SumBy(sagas, HeldBy(v)) {
        if s < |front| { assert front[s] == sagas[s]; }
      }
    }
  }

  lemma {:induction false} TakingOneMore(g: Saga, it: Item, v: VariantId)
    requires g.phase == Reserving
    ensures HeldBy(v)(g.(reserved := g.reserved + [it])) == HeldBy(v)(g) + (if it.variant == v then it.qty else 0)
  { }

  /** What replacing one saga does to the three sums. */
  lemma {:induction false} SagaReplaced(sagas: seq<Saga>, s: nat, g: Saga, v: VariantId)
    requires s < |sagas|
    ensures SumBy(sagas[s := g], HeldBy(v)) == SumBy(sagas, HeldBy(v)) - HeldBy(v)(sagas[s]) + HeldBy(v)(g)
    ensures SumBy(sagas[s := g], SoldBy(v)) == SumBy(sagas, SoldBy(v)) - SoldBy(v)(sagas[s]) + SoldBy(v)(g)
    ensures SumBy(sagas[s := g], LostBy(v)) == SumBy(sagas, LostBy(v)) - LostBy(v)(sagas[s]) + LostBy(v)(g)
  {
    SumByUpdate(sagas, s, g, HeldBy(v));
    SumByUpdate(sagas, s, g, SoldBy(v));
    SumByUpdate(sagas, s, g, LostBy(v));
  }

  /** Units moved between a counter and a running saga leave the books balanced. */
  lemma {:induction false} MovingKeepsVariant(w: World, w': World, s: nat, g: Saga, units: int, v: VariantId)
    requires VariantOk(w, v) && s < |w.sagas| && w'.sagas == w.sagas[s := g]
    requires !Closed(g.phase) && !Closed(w.sagas[s].phase)
    requires w'.seeded == w.seeded && w'.committed == w.committed && w'.expired == w.expired
    requires HeldBy(v)(g) == HeldBy(v)(w.sagas[s]) + units
    requires 0 <= Count(w'.stock, v) == Count(w.stock, v) - units
    requires v !in w'.stock ==> v !in w.stock && units == 0
    ensures VariantOk(w', v)
  {
    SagaReplaced(w.sagas, s, g, v);
  }

  lemma {:induction false} TryReserveKeepsVariant(w: World, s: nat, fails: bool, v: VariantId)
    requires VariantOk(w, v) && Enabled(w, TryReserve(s, fails))
    ensures VariantOk(Apply(w, TryReserve(s, fails)), v)
  {
    var w' := Apply(w, TryReserve(s, fails));
    var saga := w.sagas[s];
    var it := saga.items[|saga.reserved|];
    if it.qty <= 0 || fails || Count(w.stock, it.variant) < it.qty {
      MovingKeepsVariant(w, w', s, saga.(phase := Compensating), 0, v);
    } else {
      TakingOneMore(saga, it, v);
      MovingKeepsVariant(w, w', s, saga.(reserved := saga.reserved + [it]), if it.variant == v then it.qty else 0, v);
    }
  }

  /** Where the units of a closed saga go: back to stock, to the sold, or to the lost. */
  predicate Settled(w: World, w': World, units: Counters, phase: Phase) {
    && w'.seeded == w.seeded
    && w'.stock == (if phase == Failed || phase == Released then Added(w.stock, units) else w.stock)
    && w'.committed == (if phase == Sold then Added(w.committed, units) else w.committed)
    && w'.expired == (if phase == Lapsed || phase == Crashed then Added(w.expired, units) else w.expired)
  }

  /** Closing a saga moves what it held where its phase says, and balances the books. */
  lemma {:induction false} ClosingKeepsVariant(w: World, w': World, s: nat, units: Counters, phase: Phase, v: VariantId)
    requires VariantOk(w, v) && s < |w.sagas| && !Closed(w.sagas[s].phase) && Closed(phase)
    requires w'.sagas == w.sagas[s := w.sagas[s].(phase := phase)] && Settled(w, w', units, phase)
    requires 0 <= Count(units, v) == HeldBy(v)(w.sagas[s]) <= Held(w, v)
    requires Count(units, v) == Units(w.sagas[s].reserved, v)
    requires v in units ==> Count(units, v) > 0
    ensures VariantOk(w', v)
  {
    SagaReplaced(w.sagas, s, w'.sagas[s], v);
  }

  lemma {:induction false} TakenUnits(g: Saga, v: VariantId)
    requires SagaOk(g) && !Closed(g.phase)
    ensures Count(Manifest(g.reserved), v) == HeldBy(v)(g) == Units(g.reserved, v)
    ensures v in Manifest(g.reserved) ==> Count(Manifest(g.reserved), v) > 0
  {
    assert DistinctVariants(g.reserved);
    ManifestExact(g.reserved, v);
    ManifestKeys(g.reserved, v);
    UnitsNonNegative(g.reserved, v);
  }

  lemma {:induction false} ManifestKeepsVariant(w: World, s: nat, fails: bool, v: VariantId)
    requires Inv(w) && Enabled(w, WriteManifest(s, fails))
    ensures VariantOk(Apply(w, WriteManifest(s, fails)), v)
  {
    assert VariantOk(w, v) && SagaOk(w.sagas[s]);
    var w' := Apply(w, WriteManifest(s, fails));
    TakenUnits(w.sagas[s], v);
    MovingKeepsVariant(w, w', s, w'.sagas[s], 0, v);
  }

  predicate Closing(step: Step) { step.Compensate? || step.Release? || step.Commit? || step.Expire? || step.Crash? }

  function PhaseAfter(step: Step): Phase
    requires Closing(step)
  {
    match step
    case Compensate(_) => Failed
    case Release(_) => Released
    case Commit(_) => Sold
    case Expire(_) => Lapsed
    case Crash(_) => Crashed
  }

  /**
   A commit leaves the counters and books the units as sold; a release or a compensation
   gives back exactly the units taken; an expiry or a crash only loses them.
   */
  lemma {:induction false} ClosingStepSettles(w: World, step: Step)
    requires Enabled(w, step) && Closing(step) && SagaOk(w.sagas[step.s])
    ensures var w' := Apply(w, step); var units := Manifest(w.sagas[step.s].reserved);
      && w'.sagas == w.sagas[step.s := w.sagas[step.s].(phase := PhaseAfter(step))]
      && Settled(w, w', units, PhaseAfter(step))
      && (step.Commit? ==>
            && w'.stock == w.stock && w'.expired == w.expired
            && forall v :: Count(w'.committed, v) == Count(w.committed, v) + Units(w.sagas[step.s].reserved, v))
      && (step.Release? || step.Compensate? ==>
            && w'.committed == w.committed && w'.expired == w.expired
            && forall v :: Count(w'.stock, v) == Count(w.stock, v) + Units(w.sagas[step.s].reserved, v))
      && (step.Expire? || step.Crash? ==>
            && w'.stock == w.stock && w'.committed == w.committed
            && forall v :: Count(w'.expired, v) == Count(w.expired, v) + Units(w.sagas[step.s].reserved, v))
  {
    forall v ensures Count(Manifest(w.sagas[step.s].reserved), v) == Units(w.sagas[step.s].reserved, v) {
      assert DistinctVariants(w.sagas[step.s].reserved);
      ManifestExact(w.sagas[step.s].reserved, v);
    }
  }

  lemma {:induction false} ClosingStepKeepsVariant(w: World, step: Step, v: VariantId)
    requires Inv(w) && Enabled(w, step) && Closing(step)
    ensures VariantOk(Apply(w, step), v)
  {
    assert VariantOk(w, v) && SagaOk(w.sagas[step.s]);
    TakenUnits(w.sagas[step.s], v);
    HeldNonNegative(w.sagas, v);
    ClosingStepSettles(w, step);
    ClosingKeepsVariant(w, Apply(w, step), step.s, Manifest(w.sagas[step.s].reserved), PhaseAfter(step), v);
  }

  lemma {:induction false} StepKeepsVariant(w: World, step: Step, v: VariantId)
    requires Inv(w) && Enabled(w, step)
    ensures VariantOk(Apply(w, step), v)
  {
    assert VariantOk(w, v);
    if step.TryReserve? {
      TryReserveKeepsVariant(w, step.s, step.fails, v);
    } else if step.WriteManifest? {
      ManifestKeepsVariant(w, step.s, step.fails, v);
    } else if Closing(step) {
      ClosingStepKeepsVariant(w, step, v);
    } else if step.Start? {
      var g := Saga(step.items, [], map[], Reserving);
      SumByAppend(w.sagas, g, HeldBy(v));
      SumByAppend(w.sagas, g, SoldBy(v));
      SumByAppend(w.sagas, g, LostBy(v));
    }
  }

  lemma {:induction false} StepKeepsSagas(w: World, step: Step)
    requires forall s :: 0 <= s < |w.sagas| ==> SagaOk(w.sagas[s])
    requires Enabled(w, step)
    ensures forall s :: 0 <= s < |Apply(w, step).sagas| ==> SagaOk(Apply(w, step).sagas[s])
  { }

  lemma {:induction false} StepKeepsInv(w: World, step: Step)
    requires Inv(w) && Enabled(w, step)
    ensures Inv(Apply(w, step))
  {
    StepKeepsSagas(w, step);
    forall v ensures VariantOk(Apply(w, step), v) { StepKeepsVariant(w, step, v); }
  }

  lemma {:induction false} RunKeepsInv(w: World, steps: seq<Step>)
    requires Inv(w) && CanRun(w, steps)
    ensures Inv(Run(w, steps))
    decreases |steps|
  {
    if |steps| > 0 {
      StepKeepsInv(w, steps[0]);
      RunKeepsInv(Apply(w, steps[0]), steps[1..]);
    }
  }

  /**
   Conservation of stock.  In every interleaving no counter goes negative and, per
   variant, stock + held + committed + expired is what was seeded; the committed units are
   those of the sagas that a commit closed, the expired ones those of the sagas that lapsed
   or crashed; when every saga is closed nothing is held.
   */
  lemma {:induction false} StockConserved(steps: seq<Step>, v: VariantId)
    requires CanRun(World(map[], [], map[], map[], map[]), steps)
    ensures var w := Run(World(map[], [], map[], map[], map[]), steps);
      && Balanced(w, v) && Attributed(w, v)
      && Held(w, v) >= 0
      && Count(w.stock, v) <= Count(w.seeded, v) - Count(w.committed, v) - Count(w.expired, v)
      && ((forall s :: 0 <= s < |w.sagas| ==> Closed(w.sagas[s].phase)) ==> Held(w, v) == 0)
  {
    var w0 := World(map[], [], map[], map[], map[]);
    RunKeepsInv(w0, steps);
    var w := Run(w0, steps);
    assert VariantOk(w, v);
    HeldNonNegative(w.sagas, v);
    if forall s :: 0 <= s < |w.sagas| ==> Closed(w.sagas[s].phase) { SumByZero(w.sagas, HeldBy(v)); }
  }
}
