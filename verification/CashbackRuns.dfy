/**
 Whole runs of the cashback engine: plans are created, any number of workers list
 due plans and later pay from those possibly stale snapshots, plans are cancelled
 or suspended by operators, and the calendar moves to another period.  Workers
 alive at the same time share one run period, so a period change drops every
 outstanding snapshot.
 */
module CashbackRuns {
  import opened Options
  import opened CashbackTerms
  import opened CashbackDb

  /** `snapshots` are the plan rows read by live workers during `period`. */
  datatype System = System(db: Db, period: int, snapshots: set<Plan>)

  datatype Step =
    | CreatePlan(orderId: int, userId: int, price: int, bps: int, startDate: int)
    | ListDue(ids: set<nat>)
    | Pay(snap: Plan)
    | SetStatus(planId: nat, status: PlanStatus)
    | NewPeriod(period: int)
    | Aborted

  predicate OrderHasPlan(plans: seq<Plan>, orderId: int) {
    exists i :: 0 <= i < |plans| && plans[i].orderId == orderId
  }

  /** Insert on first delivery of the order, no row otherwise or when no schedule exists. */
  function InsertPlanIfAbsent(db: Db, orderId: int, userId: int, price: int, bps: int, startDate: int): Db {
    match ComputePlanTerms(price, bps)
    case InvalidPlanInput(_) => db
    case Terms(terms) =>
      if OrderHasPlan(db.plans, orderId) then db
      else db.(plans := db.plans + [Plan(|db.plans|, orderId, userId, price, bps, terms, startDate, 0, Active)])
  }

  /** The listing filter, without the due date: an active plan with no payment in the period. */
  predicate Listable(db: Db, i: nat, period: int) {
    && i < |db.plans|
    && db.plans[i].status == Active
    && db.plans[i].paymentsMade < db.plans[i].terms.totalMonths
    && !HasPayment(db.payments, i, period)
  }

  predicate Enabled(s: System, step: Step) {
    match step
    case ListDue(ids) => forall i :: i in ids ==> Listable(s.db, i, s.period)
    case Pay(snap) => snap in s.snapshots && snap.id < |s.db.plans|
    case SetStatus(i, status) =>
      && i < |s.db.plans| && s.db.plans[i].status != Completed
      && status != Completed && status in s.db.statuses
    case _ => true
  }

  function Apply(s: System, step: Step): System
    requires Enabled(s, step)
  {
    match step
    case CreatePlan(orderId, userId, price, bps, startDate) =>
      s.(db := InsertPlanIfAbsent(s.db, orderId, userId, price, bps, startDate))
    case ListDue(ids) => s.(snapshots := s.snapshots + set i | i in ids :: s.db.plans[i])
    case Pay(snap) => s.(db := Installment(s.db, snap, s.period))
    case SetStatus(i, status) => s.(db := s.db.(plans := s.db.plans[i := s.db.plans[i].(status := status)]))
    case NewPeriod(p) => s.(period := p, snapshots := {})
    case Aborted => s
  }

  /** The steps can be taken one after another. */
  predicate CanRun(s: System, steps: seq<Step>)
    decreases |steps|
  {
    |steps| > 0 ==> Enabled(s, steps[0]) && CanRun(Apply(s, steps[0]), steps[1..])
  }

  function Run(s: System, steps: seq<Step>): System
    requires CanRun(s, steps)
    decreases |steps|
  {
    if |steps| == 0 then s else Run(Apply(s, steps[0]), steps[1..])
  }

  predicate Init(s: System) {
    s.db.plans == [] && s.db.payments == [] && s.db.ledger == [] && s.snapshots == {} && Active in s.db.statuses
  }

  /** A live snapshot is fresh as long as the plan has no payment in the current period. */
  predicate SnapshotOk(s: System, snap: Plan) {
    && SnapshotOf(s.db, snap)
    && (!HasPayment(s.db.payments, snap.id, s.period) ==> snap.paymentsMade == s.db.plans[snap.id].paymentsMade)
  }

  ghost predicate SystemInv(s: System) {
    && Inv(s.db)
    && Active in s.db.statuses
    && forall snap :: snap in s.snapshots ==> SnapshotOk(s, snap)
  }

  // ---- each step keeps the invariant ----

  lemma {:induction false} NoRowsOfNewPlan(db: Db, i: nat)
    requires forall j :: 0 <= j < |db.payments| ==> db.payments[j].planId < i
    requires forall j :: 0 <= j < |db.ledger| ==> db.ledger[j].planId < i
    ensures PaidCount(db.payments, i) == 0
    ensures forall account, direction :: Moved(db.ledger, i, account, direction) == 0
    decreases |db.payments| + |db.ledger|
  {
    if |db.payments| > 0 {
      NoRowsOfNewPlan(db.(payments := db.payments[..|db.payments| - 1]), i);
    } else if |db.ledger| > 0 {
      NoRowsOfNewPlan(db.(ledger := db.ledger[..|db.ledger| - 1]), i);
    }
  }

  lemma {:induction false} CreateKeepsInv(db: Db, orderId: int, userId: int, price: int, bps: int, startDate: int)
    requires Inv(db) && Active in db.statuses
    ensures Inv(InsertPlanIfAbsent(db, orderId, userId, price, bps, startDate))
  {
    var db' := InsertPlanIfAbsent(db, orderId, userId, price, bps, startDate);
    if db' != db {
      TermsExact(price, bps);
      var i := |db.plans|;
      forall j | 0 <= j < |db.payments| ensures db.payments[j].planId < i { assert PaymentOk(db, j); }
      NoRowsOfNewPlan(db, i);
      assert PaidThrough(db'.plans[i].terms, 0) == 0;
      forall p | 0 <= p < |db'.plans| ensures PlanOk(db', p) && KeysOk(db', p) {
        if p < i { assert PlanOk(db, p) && KeysOk(db, p); }
      }
      forall j | 0 <= j < |db'.payments| ensures PaymentOk(db', j) { assert PaymentOk(db, j); }
    }
  }

  lemma {:induction false} SetStatusKeepsInv(db: Db, i: nat, status: PlanStatus)
    requires Inv(db) && i < |db.plans| && db.plans[i].status != Completed
    requires status != Completed && status in db.statuses
    ensures Inv(db.(plans := db.plans[i := db.plans[i].(status := status)]))
  {
    var db' := db.(plans := db.plans[i := db.plans[i].(status := status)]);
    forall p | 0 <= p < |db'.plans| ensures PlanOk(db', p) && KeysOk(db', p) {
      assert PlanOk(db, p) && KeysOk(db, p);
    }
    forall j | 0 <= j < |db'.payments| ensures PaymentOk(db', j) { assert PaymentOk(db, j); }
  }

  /** Other live snapshots survive a payment. */
  lemma {:induction false} PayKeepsSnapshot(s: System, snap: Plan, other: Plan)
    requires SnapshotOf(s.db, snap) && SnapshotOk(s, other)
    ensures SnapshotOk(s.(db := Installment(s.db, snap, s.period)), other)
  { }

  lemma {:induction false} StepKeepsInv(s: System, step: Step)
    requires SystemInv(s) && Enabled(s, step)
    ensures SystemInv(Apply(s, step))
  {
    var s' := Apply(s, step);
    match step
    case CreatePlan(orderId, userId, price, bps, startDate) =>
      CreateKeepsInv(s.db, orderId, userId, price, bps, startDate);
    case ListDue(ids) =>
      forall snap | snap in s'.snapshots ensures SnapshotOk(s', snap) {
        if snap !in s.snapshots {
          var i :| i in ids && snap == s.db.plans[i];
          assert PlanOk(s.db, i);
        }
      }
    case Pay(snap) =>
      assert SnapshotOk(s, snap);
      if Lands(s.db, snap, s.period) { FreshKeepsInv(s.db, snap, s.period); }
      forall other | other in s'.snapshots ensures SnapshotOk(s', other) { PayKeepsSnapshot(s, snap, other); }
    case SetStatus(i, status) => SetStatusKeepsInv(s.db, i, status);
    case NewPeriod(_) =>
    case Aborted =>
  }

  lemma {:induction false} RunKeepsInv(s: System, steps: seq<Step>)
    requires SystemInv(s) && CanRun(s, steps)
    ensures SystemInv(Run(s, steps))
    ensures Run(s, steps).db.statuses == s.db.statuses
    decreases |steps|
  {
    if |steps| > 0 {
      StepKeepsInv(s, steps[0]);
      RunKeepsInv(Apply(s, steps[0]), steps[1..]);
    }
  }

  // ---- what each step does ----

  /** Listing hands out the rows as they are; a new period drops them; an operator's change sets one status. */
  lemma {:induction false} StepEffect(s: System, step: Step)
    requires Enabled(s, step)
    ensures var s' := Apply(s, step);
      && (step.ListDue? ==>
            && s'.db == s.db && s'.period == s.period
            && forall p :: p in s'.snapshots <==> p in s.snapshots || exists i :: i in step.ids && p == s.db.plans[i])
      && (step.NewPeriod? ==> s' == System(s.db, step.period, {}))
      && (step.SetStatus? ==>
            && s'.db.plans[step.planId].status == step.status && |s'.db.plans| == |s.db.plans|
            && s'.db.payments == s.db.payments && s'.db.ledger == s.db.ledger && s'.snapshots == s.snapshots
            && forall i :: 0 <= i < |s.db.plans| && i != step.planId ==> s'.db.plans[i] == s.db.plans[i])
      && (step.Aborted? ==> s' == s)
  { }

  /** From every reachable state a plan that may be listed can be listed and paid, where the schema admits it. */
  lemma {:induction false} ListablePlanCanBePaid(s: System, i: nat)
    requires SystemInv(s) && Listable(s.db, i, s.period) && Admits(s.db.periods, s.period)
    requires s.db.plans[i].paymentsMade + 1 < s.db.plans[i].terms.totalMonths || Completed in s.db.statuses
    ensures var p := s.db.plans[i]; var s' := Apply(s, ListDue({i}));
      && Enabled(s, ListDue({i})) && Enabled(s', Pay(p))
      && Apply(s', Pay(p)).db.plans[i].paymentsMade == p.paymentsMade + 1
      && HasPayment(Apply(s', Pay(p)).db.payments, i, s.period)
  {
    var p := s.db.plans[i];
    assert PlanOk(s.db, i);
    TermsExact(p.price, p.bps);
    FreshLandsIff(s.db, p, s.period);
    FreshPosts(s.db, p, s.period);
    var row := Written(s.db, p, s.period).payments[|s.db.payments|];
    assert row.planId == i && row.period == s.period;
  }

  // ---- what a delivery creates ----

  /** The plan is the one this delivery asks for. */
  predicate Carries(p: Plan, step: Step)
    requires step.CreatePlan?
  {
    && p.orderId == step.orderId && p.userId == step.userId && p.price == step.price
    && p.bps == step.bps && p.startDate == step.startDate
  }

  /** A first schedulable delivery creates one new, active, unpaid plan with its data; any other changes nothing. */
  lemma {:induction false} DeliveryCreatesIff(db: Db, orderId: int, userId: int, price: int, bps: int, startDate: int)
    ensures var db' := InsertPlanIfAbsent(db, orderId, userId, price, bps, startDate);
      if Schedulable(price, bps) && !OrderHasPlan(db.plans, orderId)
      then
        && |db'.plans| == |db.plans| + 1 && db'.plans[..|db.plans|] == db.plans
        && db' == db.(plans := db'.plans)
        && var p := db'.plans[|db.plans|];
        && Carries(p, CreatePlan(orderId, userId, price, bps, startDate))
        && p.id == |db.plans| && p.paymentsMade == 0 && p.status == Active
        && ComputePlanTerms(price, bps) == Terms(p.terms)
      else db' == db
  {
    TermsExact(price, bps);
  }

  /** The first delivery of the order for which a schedule exists. */
  function FirstDelivery(steps: seq<Step>, orderId: int): (r: Option<Step>)
    ensures r.Some? ==> r.value.CreatePlan? && r.value.orderId == orderId
  {
    if |steps| == 0 then None
    else if steps[0].CreatePlan? && steps[0].orderId == orderId && Schedulable(steps[0].price, steps[0].bps)
    then Some(steps[0])
    else FirstDelivery(steps[1..], orderId)
  }

  /** The columns of a plan that no statement after the insert writes. */
  predicate SameColumns(p: Plan, q: Plan) {
    && p.id == q.id && p.orderId == q.orderId && p.userId == q.userId && p.price == q.price && p.bps == q.bps
    && p.terms == q.terms && p.startDate == q.startDate
  }

  lemma {:induction false} StepKeepsColumns(s: System, step: Step, i: nat)
    requires Enabled(s, step) && i < |s.db.plans|
    ensures i < |Apply(s, step).db.plans| && SameColumns(Apply(s, step).db.plans[i], s.db.plans[i])
  {
    if step.CreatePlan? {
      DeliveryCreatesIff(s.db, step.orderId, step.userId, step.price, step.bps, step.startDate);
      assert i < |s.db.plans| ==> Apply(s, step).db.plans[..|s.db.plans|][i] == s.db.plans[i];
    }
  }

  lemma {:induction false} RunKeepsColumns(s: System, steps: seq<Step>, i: nat)
    requires CanRun(s, steps) && i < |s.db.plans|
    ensures i < |Run(s, steps).db.plans| && SameColumns(Run(s, steps).db.plans[i], s.db.plans[i])
    decreases |steps|
  {
    if |steps| > 0 {
      StepKeepsColumns(s, steps[0], i);
      RunKeepsColumns(Apply(s, steps[0]), steps[1..], i);
    }
  }

  /** Only the order's own delivery can give it a plan. */
  lemma {:induction false} OtherStepsCreateNone(s: System, step: Step, orderId: int)
    requires Enabled(s, step) && !OrderHasPlan(s.db.plans, orderId)
    requires !(step.CreatePlan? && step.orderId == orderId && Schedulable(step.price, step.bps))
    ensures !OrderHasPlan(Apply(s, step).db.plans, orderId)
  {
    var after := Apply(s, step).db.plans;
    if step.CreatePlan? {
      DeliveryCreatesIff(s.db, step.orderId, step.userId, step.price, step.bps, step.startDate);
    }
    forall i | 0 <= i < |after| ensures after[i].orderId != orderId {
      if i < |s.db.plans| { StepKeepsColumns(s, step, i); }
    }
  }

  /** In every run an order gets a plan exactly when it has a schedulable delivery, and with the first one's data. */
  lemma {:induction false} PlanOfDelivery(s: System, steps: seq<Step>, orderId: int)
    requires SystemInv(s) && CanRun(s, steps) && !OrderHasPlan(s.db.plans, orderId)
    ensures var plans := Run(s, steps).db.plans;
      && (OrderHasPlan(plans, orderId) <==> FirstDelivery(steps, orderId).Some?)
      && forall i :: 0 <= i < |plans| && plans[i].orderId == orderId ==>
           FirstDelivery(steps, orderId).Some? && Carries(plans[i], FirstDelivery(steps, orderId).value)
    decreases |steps|
  {
    if |steps| > 0 {
      var step, s' := steps[0], Apply(s, steps[0]);
      StepKeepsInv(s, step);
      if step.CreatePlan? && step.orderId == orderId && Schedulable(step.price, step.bps) {
        DeliveryCreatesIff(s.db, orderId, step.userId, step.price, step.bps, step.startDate);
        var n := |s.db.plans|;
        RunKeepsColumns(s', steps[1..], n);
        RunKeepsInv(s', steps[1..]);
        OnlyPlanOfOrder(Run(s, steps).db.plans, n);
      } else {
        OtherStepsCreateNone(s, step, orderId);
        PlanOfDelivery(s', steps[1..], orderId);
      }
    }
  }

  lemma {:induction false} OnlyPlanOfOrder(plans: seq<Plan>, n: nat)
    requires OrdersDistinct(plans) && n < |plans|
    ensures OrderHasPlan(plans, plans[n].orderId)
    ensures forall i :: 0 <= i < |plans| && plans[i].orderId == plans[n].orderId ==> i == n
  { }

  // ---- what holds of every reachable state ----

  function CoinsCredited(db: Db, i: nat): int
    requires i < |db.plans|
  {
    Moved(db.ledger, i, UserWallet(db.plans[i].userId), Credit)
  }

  /**
   Money conservation.  In every reachable state the coins credited for a plan are
   exactly installments 1..k, k being its number of paid rows; they are covered by
   equal equity debits and never exceed the order price; and the plan is completed
   exactly when all of the price has been credited.
   */
  lemma {:induction false} CashbackConservation(s: System, steps: seq<Step>, i: nat)
    requires Init(s) && CanRun(s, steps) && i < |Run(s, steps).db.plans|
    ensures var db := Run(s, steps).db; var p := db.plans[i]; var k := PaidCount(db.payments, i);
      && CoinsCredited(db, i) == PaidThrough(p.terms, k) == Moved(db.ledger, i, Equity, Debit)
      && 0 <= CoinsCredited(db, i) <= p.price
      && p.paymentsMade == k <= p.terms.totalMonths
      && (p.status == Completed <==> k == p.terms.totalMonths)
      && (p.status == Completed <==> CoinsCredited(db, i) == p.price)
  {
    RunKeepsInv(s, steps);
    var db := Run(s, steps).db;
    assert PlanOk(db, i);
    TermsExact(db.plans[i].price, db.plans[i].bps);
    PaidThroughBounded(db.plans[i].terms, db.plans[i].price, PaidCount(db.payments, i));
  }

  /** An order never has two plans, so the bound above is a bound per order. */
  lemma {:induction false} OnePlanPerOrder(s: System, steps: seq<Step>, i: nat, j: nat)
    requires Init(s) && CanRun(s, steps)
    requires i < j < |Run(s, steps).db.plans|
    ensures Run(s, steps).db.plans[i].orderId != Run(s, steps).db.plans[j].orderId
  {
    RunKeepsInv(s, steps);
  }

  /**
   Every payment row of a reachable state is paid, is alone in its (plan, period),
   and owns a ledger transaction of its own that moves its amount from equity to
   the plan's user.
   */
  lemma {:induction false} PaymentsOwnTheirTransactions(s: System, steps: seq<Step>, a: nat, b: nat)
    requires Init(s) && CanRun(s, steps)
    requires a < |Run(s, steps).db.payments| && b < |Run(s, steps).db.payments| && a != b
    ensures var db := Run(s, steps).db; var x, y := db.payments[a], db.payments[b];
      && x.status == Paid && x.ledgerTxn.Some? && x.ledgerTxn.value < |db.ledger|
      && x.planId < |db.plans| && db.ledger[x.ledgerTxn.value].planId == x.planId
      && db.ledger[x.ledgerTxn.value].entries == Posting(db.plans[x.planId].userId, x.amount)
      && (x.planId != y.planId || x.period != y.period)
      && x.ledgerTxn != y.ledgerTxn
  {
    RunKeepsInv(s, steps);
    var db := Run(s, steps).db;
    assert PaymentOk(db, a) && PaymentOk(db, b);
    if a < b { assert PaymentsDistinct(db.payments); } else { assert PaymentsDistinct(db.payments); }
  }

  /**
   The CHECK on plans.status admits active, cancelled and suspended only
   (deploy/postgres-ledger/init/50-cashback-schema.sql:25-26) and no migration
   widens it.  Under that CHECK no run ever pays the last installment: every plan
   stays short of its price by at least the balloon.
   */
  lemma {:induction false} BalloonUnpaidUnderOldStatusCheck(s: System, steps: seq<Step>, i: nat)
    requires Init(s) && CanRun(s, steps) && i < |Run(s, steps).db.plans|
    requires s.db.statuses == {Active, Cancelled, Suspended}
    ensures var db := Run(s, steps).db; var p := db.plans[i];
      && PaidCount(db.payments, i) < p.terms.totalMonths
      && CoinsCredited(db, i) <= p.price - p.terms.lastMinor
  {
    RunKeepsInv(s, steps);
    var db := Run(s, steps).db;
    var p, k := db.plans[i], PaidCount(db.payments, i);
    assert PlanOk(db, i);
    TermsExact(p.price, p.bps);
    PaidThroughClosedForm(p.terms, p.price, k);
    MulMonotone(k, p.terms.totalMonths - 1, p.terms.monthlyMinor);
  }

  // ---- why workers must share a period ----

  /** One plan of 15600 at 10%: 156 installments of 100. */
  function OnePlan(paymentsMade: int): Plan {
    Plan(0, 1, 1, 15600, 1000, PlanTerms(156, 100, 100), 0, paymentsMade, Active)
  }

  function JanuaryRow(): Payment { Payment(0, 202601, 100, Paid, Some(0)) }
  function JanuaryTxn(): Txn { Txn(0, 1, Posting(1, 100)) }

  function AfterJanuary(): Db { Db([OnePlan(1)], [JanuaryRow()], [JanuaryTxn()], {Active, Completed}, SHIPPED_PERIODS) }

  function BeforeJanuary(): Db { Db([OnePlan(0)], [], [], {Active, Completed}, SHIPPED_PERIODS) }

  lemma {:induction false} StartState(db: Db)
    requires db == BeforeJanuary()
    ensures Inv(db)
  {
    var none := Db([], [], [], {Active, Completed}, SHIPPED_PERIODS);
    CreateKeepsInv(none, 1, 1, 15600, 1000, 0);
    assert InsertPlanIfAbsent(none, 1, 1, 15600, 1000, 0) == db;
  }

  lemma {:induction false} JanuaryTables(db: Db, snap: Plan)
    requires db == BeforeJanuary() && snap == OnePlan(0)
    ensures Inv(db) && Lands(db, snap, 202601) && Written(db, snap, 202601) == AfterJanuary()
  {
    StartState(db);
    assert DueAmount(snap) == 100;
    FreshLandsIff(db, snap, 202601);
    FreshPosts(db, snap, 202601);
    assert db.ledger + [JanuaryTxn()] == [JanuaryTxn()];
  }

  /** Nothing but the outdated counter is wrong with the February payment, so it lands. */
  lemma {:induction false} FebruaryLands(january: Db, snap: Plan)
    requires january == AfterJanuary() && snap == OnePlan(0) && Inv(january)
    ensures Lands(january, snap, 202602)
  {
    var n := PostInTx(january.ledger, 0, 1, 1, 100).txnId;
    PaidCountAppend(january.payments, Payment(0, 202602, 100, Paid, Some(n)), 0);
    assert PlanOk(january, 0);
    assert DueAmount(snap) == 100;
    assert !HasPayment(january.payments, 0, 202602);
  }

  /**
   A snapshot read before the January payment and used for February claims a new
   row, hits the ledger key already used in January and credits nothing: two paid
   installments, one credit.
   */
  lemma {:induction false} OverlappingPeriodsLoseACredit(start: Db, snap: Plan)
    requires start == BeforeJanuary() && snap == OnePlan(0)
    ensures var january := Installment(start, snap, 202601); var february := Installment(january, snap, 202602);
      && Inv(start) && Inv(january) && !Inv(february)
      && PaidCount(january.payments, 0) == 1 && PaidCount(february.payments, 0) == 2
      && CoinsCredited(january, 0) == 100 && CoinsCredited(february, 0) == 100
  {
    JanuaryTables(start, snap);
    FreshKeepsInv(start, snap, 202601);
    FreshPosts(start, snap, 202601);
    var january := Installment(start, snap, 202601);
    assert PlanOk(january, 0);
    InstallmentIs(snap.terms, 15600, 1);
    assert PaidThrough(snap.terms, 1) == PaidThrough(snap.terms, 0) + InstallmentAmount(snap.terms, 1);
    FebruaryLands(january, snap);
    StaleBreaksInv(january, snap, 202602);
  }
}
