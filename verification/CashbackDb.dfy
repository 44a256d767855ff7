/**
 The tables behind the cashback engine and the single transaction that pays one
 installment: claim the period, post to the ledger, mark the payment paid, refresh
 the counter (internal/cashback/run_month.go, internal/cashback/repository.go).

 Tables are sequences of rows; a row's id is its position.  Nothing is unique by
 construction: the UNIQUE and CHECK guards are spelled out as conditions.
 */
module CashbackDb {
  import opened Options
  import opened CashbackTerms

  datatype PlanStatus = Active | Completed | Cancelled | Suspended

  datatype Plan = Plan(id: nat, orderId: int, userId: int, price: int, bps: int,
                       terms: PlanTerms, startDate: int, paymentsMade: int, status: PlanStatus)

  datatype PaymentStatus = Scheduled | Paid

  datatype Payment = Payment(planId: nat, period: int, amount: int,
                             status: PaymentStatus, ledgerTxn: Option<nat>)

  datatype Account = Equity | UserWallet(userId: int)
  datatype Direction = Debit | Credit
  datatype Entry = Entry(account: Account, direction: Direction, amount: int)

  /** A ledger transaction; (planId, installment) is its idempotency key. */
  datatype Txn = Txn(planId: nat, installment: int, entries: seq<Entry>)

  /** The periods the CHECK on payments.period_yyyymm admits, from `first` to `last`. */
  datatype Periods = Periods(first: int, last: int)

  const SHIPPED_PERIODS := Periods(202600, 209912)

  /** `statuses` are the values the CHECK on plans.status admits. */
  datatype Db = Db(plans: seq<Plan>, payments: seq<Payment>, ledger: seq<Txn>, statuses: set<PlanStatus>,
                   periods: Periods)

  // ---- reading the tables ----

  predicate HasPayment(payments: seq<Payment>, planId: nat, period: int) {
    exists i :: 0 <= i < |payments| && payments[i].planId == planId && payments[i].period == period
  }

  predicate IsPaidFor(p: Payment, planId: nat) {
    p.planId == planId && p.status == Paid
  }

  /** COUNT(*) of paid rows of a plan. */
  function PaidCount(payments: seq<Payment>, planId: nat): nat {
    if |payments| == 0 then 0
    else
      var last := |payments| - 1;
      PaidCount(payments[..last], planId) + (if IsPaidFor(payments[last], planId) then 1 else 0)
  }

  function EntrySum(entries: seq<Entry>, account: Account, direction: Direction): int {
    if |entries| == 0 then 0
    else
      var e := entries[|entries| - 1];
      EntrySum(entries[..|entries| - 1], account, direction)
      + (if e.account == account && e.direction == direction then e.amount else 0)
  }

  /** What the transactions of one plan moved on one side of one account. */
  function Moved(ledger: seq<Txn>, planId: nat, account: Account, direction: Direction): int {
    if |ledger| == 0 then 0
    else
      var last := |ledger| - 1;
      Moved(ledger[..last], planId, account, direction)
      + (if ledger[last].planId == planId then EntrySum(ledger[last].entries, account, direction) else 0)
  }

  predicate HasTxn(ledger: seq<Txn>, planId: nat, n: int) {
    exists i :: 0 <= i < |ledger| && ledger[i].planId == planId && ledger[i].installment == n
  }

  /** Lookup by idempotency key. */
  function TxnIndex(ledger: seq<Txn>, planId: nat, n: int): (r: Option<nat>)
    ensures r.Some? <==> HasTxn(ledger, planId, n)
    ensures r.Some? ==> r.value < |ledger| && ledger[r.value].planId == planId && ledger[r.value].installment == n
  {
    if |ledger| == 0 then None
    else
      var last := |ledger| - 1;
      if ledger[last].planId == planId && ledger[last].installment == n then Some(last)
      else
        var r := TxnIndex(ledger[..last], planId, n);
        assert HasTxn(ledger, planId, n) ==> HasTxn(ledger[..last], planId, n);
        r
  }

  // ---- the transaction ----

  datatype Posted = Posted(ledger: seq<Txn>, txnId: nat)

  /** Equity pays the user: one debit, one credit, equal amounts. */
  function Posting(userId: int, amount: int): seq<Entry> {
    [Entry(Equity, Debit, amount), Entry(UserWallet(userId), Credit, amount)]
  }

  /** A duplicate idempotency key returns the original transaction and posts nothing. */
  function PostInTx(ledger: seq<Txn>, planId: nat, n: int, userId: int, amount: int): Posted {
    match TxnIndex(ledger, planId, n)
    case Some(existing) => Posted(ledger, existing)
    case None => Posted(ledger + [Txn(planId, n, Posting(userId, amount))], |ledger|)
  }

  function Refreshed(plan: Plan, count: nat): Plan {
    plan.(paymentsMade := count,
          status := if count >= plan.terms.totalMonths then Completed else plan.status)
  }

  /** The CHECK constraints of the plans table. */
  predicate RowAccepted(statuses: set<PlanStatus>, plan: Plan) {
    plan.status in statuses && 0 <= plan.paymentsMade <= plan.terms.totalMonths
  }

  function DueAmount(snap: Plan): int {
    InstallmentAmount(snap.terms, snap.paymentsMade + 1)
  }

  function Claimed(db: Db, snap: Plan, period: int, txnId: nat): seq<Payment> {
    db.payments + [Payment(snap.id, period, DueAmount(snap), Paid, Some(txnId))]
  }

  /** The tables once the statements have run, before the CHECKs are looked at. */
  function Written(db: Db, snap: Plan, period: int): Db
    requires snap.id < |db.plans|
  {
    var posted := PostInTx(db.ledger, snap.id, snap.paymentsMade + 1, snap.userId, DueAmount(snap));
    var payments := Claimed(db, snap, period, posted.txnId);
    var plan := Refreshed(db.plans[snap.id], PaidCount(payments, snap.id));
    Db(db.plans[snap.id := plan], payments, posted.ledger, db.statuses, db.periods)
  }

  /** The snapshot has an installment left and wins the claim of the period. */
  predicate WinsClaim(db: Db, snap: Plan, period: int) {
    DueAmount(snap) != 0 && !HasPayment(db.payments, snap.id, period)
  }

  predicate Admits(periods: Periods, period: int) { periods.first <= period <= periods.last }

  /** The CHECKs of the payments table. */
  predicate PaymentAccepted(db: Db, period: int, amount: int) { Admits(db.periods, period) && amount > 0 }

  /** The transaction gets past its guards and the CHECKs of both tables. */
  predicate Lands(db: Db, snap: Plan, period: int)
    requires snap.id < |db.plans|
  {
    && WinsClaim(db, snap, period) && PaymentAccepted(db, period, DueAmount(snap))
    && RowAccepted(db.statuses, Written(db, snap, period).plans[snap.id])
  }

  /**
   One payment transaction run to the end: `snap` is the plan as some worker read
   it earlier, possibly before other workers committed.
   */
  function Installment(db: Db, snap: Plan, period: int): Db
    requires snap.id < |db.plans|
  {
    if Lands(db, snap, period) then Written(db, snap, period) else db
  }

  // ---- the invariant of committed states ----

  predicate PlanOk(db: Db, i: nat)
    requires i < |db.plans|
  {
    var p := db.plans[i];
    var k := PaidCount(db.payments, i);
    && p.id == i
    && Schedulable(p.price, p.bps)
    && ComputePlanTerms(p.price, p.bps) == Terms(p.terms)
    && p.paymentsMade == k <= p.terms.totalMonths
    && (p.status == Completed <==> k == p.terms.totalMonths)
    && p.status in db.statuses
    && Moved(db.ledger, i, UserWallet(p.userId), Credit) == PaidThrough(p.terms, k)
    && Moved(db.ledger, i, Equity, Debit) == PaidThrough(p.terms, k)
  }

  /** The ledger holds installments 1..k of the plan and no other. */
  ghost predicate KeysOk(db: Db, i: nat) {
    forall n :: HasTxn(db.ledger, i, n) <==> 1 <= n <= PaidCount(db.payments, i)
  }

  predicate PaymentOk(db: Db, j: nat)
    requires j < |db.payments|
  {
    var pay := db.payments[j];
    && pay.planId < |db.plans|
    && pay.status == Paid
    && pay.ledgerTxn.Some?
    && pay.ledgerTxn.value < |db.ledger|
    && var txn := db.ledger[pay.ledgerTxn.value];
    && txn.planId == pay.planId
    && txn.entries == Posting(db.plans[pay.planId].userId, pay.amount)
  }

  /** UNIQUE(plan_id, period_yyyymm), and no two rows share a ledger transaction. */
  predicate PaymentsDistinct(payments: seq<Payment>) {
    forall a, b :: 0 <= a < b < |payments| ==>
      && !(payments[a].planId == payments[b].planId && payments[a].period == payments[b].period)
      && payments[a].ledgerTxn != payments[b].ledgerTxn
  }

  predicate LedgerOk(db: Db) {
    && (forall i :: 0 <= i < |db.ledger| ==> db.ledger[i].planId < |db.plans|)
    && (forall a, b :: 0 <= a < b < |db.ledger| ==>
          !(db.ledger[a].planId == db.ledger[b].planId && db.ledger[a].installment == db.ledger[b].installment))
  }

  predicate OrdersDistinct(plans: seq<Plan>) {
    forall a, b :: 0 <= a < b < |plans| ==> plans[a].orderId != plans[b].orderId
  }

  ghost predicate Inv(db: Db) {
    && (forall i :: 0 <= i < |db.plans| ==> PlanOk(db, i))
    && (forall i :: 0 <= i < |db.plans| ==> KeysOk(db, i))
    && (forall j :: 0 <= j < |db.payments| ==> PaymentOk(db, j))
    && PaymentsDistinct(db.payments)
    && LedgerOk(db)
    && OrdersDistinct(db.plans)
  }

  /** A snapshot carries the frozen columns of the live row. */
  predicate SnapshotOf(db: Db, snap: Plan) {
    && snap.id < |db.plans|
    && snap.terms == db.plans[snap.id].terms
    && snap.userId == db.plans[snap.id].userId
    && 0 <= snap.paymentsMade
  }

  // ---- appending a row ----

  lemma {:induction false} PaidCountAppend(payments: seq<Payment>, p: Payment, planId: nat)
    ensures PaidCount(payments + [p], planId)
         == PaidCount(payments, planId) + (if IsPaidFor(p, planId) then 1 else 0)
  {
    assert (payments + [p])[..|payments|] == payments;
  }

  lemma {:induction false} HasPaymentAppend(payments: seq<Payment>, p: Payment, planId: nat, period: int)
    ensures HasPayment(payments + [p], planId, period)
       <==> HasPayment(payments, planId, period) || (p.planId == planId && p.period == period)
  {
    if HasPayment(payments, planId, period) {
      var i :| 0 <= i < |payments| && payments[i].planId == planId && payments[i].period == period;
      assert (payments + [p])[i] == payments[i];
    }
    assert (payments + [p])[|payments|] == p;
  }

  lemma {:induction false} MovedAppend(ledger: seq<Txn>, t: Txn, planId: nat, account: Account, direction: Direction)
    ensures Moved(ledger + [t], planId, account, direction)
         == Moved(ledger, planId, account, direction)
          + (if t.planId == planId then EntrySum(t.entries, account, direction) else 0)
  {
    assert (ledger + [t])[..|ledger|] == ledger;
  }

  lemma {:induction false} PostingMoves(userId: int, amount: int)
    ensures EntrySum(Posting(userId, amount), UserWallet(userId), Credit) == amount
    ensures EntrySum(Posting(userId, amount), Equity, Debit) == amount
  {
    var es := Posting(userId, amount);
    forall account, direction
      ensures EntrySum(es, account, direction)
           == (if account == Equity && direction == Debit then amount else 0)
            + (if account == UserWallet(userId) && direction == Credit then amount else 0)
    {
      assert es[..1] == [es[0]];
      assert EntrySum(es[..1], account, direction)
          == if account == Equity && direction == Debit then amount else 0;
    }
  }

  lemma {:induction false} HasTxnAppend(ledger: seq<Txn>, t: Txn, planId: nat, n: int)
    ensures HasTxn(ledger + [t], planId, n)
       <==> HasTxn(ledger, planId, n) || (t.planId == planId && t.installment == n)
  {
    if HasTxn(ledger, planId, n) {
      var i :| 0 <= i < |ledger| && ledger[i].planId == planId && ledger[i].installment == n;
      assert (ledger + [t])[i] == ledger[i];
    }
    assert (ledger + [t])[|ledger|] == t;
  }

  /** Posting moves the amount from equity to the user under a new key, and nothing under a used one. */
  lemma {:induction false} PostMoves(ledger: seq<Txn>, planId: nat, n: int, userId: int, amount: int)
    ensures var l := PostInTx(ledger, planId, n, userId, amount).ledger;
      var moved := if HasTxn(ledger, planId, n) then 0 else amount;
      && Moved(l, planId, UserWallet(userId), Credit) == Moved(ledger, planId, UserWallet(userId), Credit) + moved
      && Moved(l, planId, Equity, Debit) == Moved(ledger, planId, Equity, Debit) + moved
      && HasTxn(l, planId, n)
  {
    var t := Txn(planId, n, Posting(userId, amount));
    PostingMoves(userId, amount);
    MovedAppend(ledger, t, planId, UserWallet(userId), Credit);
    MovedAppend(ledger, t, planId, Equity, Debit);
    HasTxnAppend(ledger, t, planId, n);
  }

  // ---- one transaction against the invariant ----

  /** The ledger says the same about a plan. */
  ghost predicate SameLedger(a: seq<Txn>, b: seq<Txn>, i: nat) {
    && (forall account, direction :: Moved(a, i, account, direction) == Moved(b, i, account, direction))
    && (forall n :: HasTxn(a, i, n) <==> HasTxn(b, i, n))
  }

  /** The payments say the same about a plan. */
  ghost predicate SamePayments(a: seq<Payment>, b: seq<Payment>, i: nat) {
    PaidCount(a, i) == PaidCount(b, i) && forall q :: HasPayment(a, i, q) <==> HasPayment(b, i, q)
  }

  lemma {:induction false} PostLeavesOthers(ledger: seq<Txn>, planId: nat, n: int, userId: int, amount: int, i: nat)
    requires i != planId
    ensures SameLedger(PostInTx(ledger, planId, n, userId, amount).ledger, ledger, i)
  {
    var t := Txn(planId, n, Posting(userId, amount));
    forall account, direction
      ensures Moved(ledger + [t], i, account, direction) == Moved(ledger, i, account, direction)
    {
      MovedAppend(ledger, t, i, account, direction);
    }
    forall k ensures HasTxn(ledger + [t], i, k) <==> HasTxn(ledger, i, k) { HasTxnAppend(ledger, t, i, k); }
  }

  lemma {:induction false} ClaimLeavesOthers(payments: seq<Payment>, row: Payment, i: nat)
    requires i != row.planId
    ensures SamePayments(payments + [row], payments, i)
  {
    PaidCountAppend(payments, row, i);
    forall q ensures HasPayment(payments + [row], i, q) <==> HasPayment(payments, i, q) {
      HasPaymentAppend(payments, row, i, q);
    }
  }

  /** Rows and money of other plans are left alone. */
  lemma {:induction false} OthersUntouched(db: Db, snap: Plan, period: int, i: nat)
    requires snap.id < |db.plans| && i < |db.plans| && i != snap.id
    ensures var w := Written(db, snap, period);
      w.plans[i] == db.plans[i] && SamePayments(w.payments, db.payments, i) && SameLedger(w.ledger, db.ledger, i)
  {
    var posted := PostInTx(db.ledger, snap.id, snap.paymentsMade + 1, snap.userId, DueAmount(snap));
    PostLeavesOthers(db.ledger, snap.id, snap.paymentsMade + 1, snap.userId, DueAmount(snap), i);
    ClaimLeavesOthers(db.payments, Payment(snap.id, period, DueAmount(snap), Paid, Some(posted.txnId)), i);
  }

  /** A fresh snapshot posts a new transaction: the key n is not in the ledger yet. */
  lemma {:induction false} FreshPosts(db: Db, snap: Plan, period: int)
    requires Inv(db) && SnapshotOf(db, snap) && WinsClaim(db, snap, period)
    requires snap.paymentsMade == db.plans[snap.id].paymentsMade
    ensures Written(db, snap, period).ledger
         == db.ledger + [Txn(snap.id, snap.paymentsMade + 1, Posting(snap.userId, DueAmount(snap)))]
    ensures PaidCount(Written(db, snap, period).payments, snap.id) == snap.paymentsMade + 1
    ensures snap.paymentsMade < snap.terms.totalMonths
  {
    assert PlanOk(db, snap.id) && KeysOk(db, snap.id);
    assert !HasTxn(db.ledger, snap.id, snap.paymentsMade + 1);
    PaidCountAppend(db.payments, Payment(snap.id, period, DueAmount(snap), Paid, Some(|db.ledger|)), snap.id);
  }

  lemma {:induction false} FreshKeepsPlan(db: Db, snap: Plan, period: int)
    requires Inv(db) && SnapshotOf(db, snap) && Lands(db, snap, period)
    requires snap.paymentsMade == db.plans[snap.id].paymentsMade
    ensures PlanOk(Written(db, snap, period), snap.id)
    ensures KeysOk(Written(db, snap, period), snap.id)
  {
    FreshPosts(db, snap, period);
    assert PlanOk(db, snap.id) && KeysOk(db, snap.id);
    var n := snap.paymentsMade + 1;
    var t := Txn(snap.id, n, Posting(snap.userId, DueAmount(snap)));
    PostMoves(db.ledger, snap.id, n, snap.userId, DueAmount(snap));
    forall n' { HasTxnAppend(db.ledger, t, snap.id, n'); }
  }

  lemma {:induction false} FreshKeepsTables(db: Db, snap: Plan, period: int)
    requires Inv(db) && SnapshotOf(db, snap) && Lands(db, snap, period)
    requires snap.paymentsMade == db.plans[snap.id].paymentsMade
    ensures var w := Written(db, snap, period);
      && (forall j :: 0 <= j < |w.payments| ==> PaymentOk(w, j))
      && PaymentsDistinct(w.payments) && LedgerOk(w) && OrdersDistinct(w.plans)
  {
    FreshPosts(db, snap, period);
    var w := Written(db, snap, period);
    assert KeysOk(db, snap.id);
    forall j | 0 <= j < |w.payments| ensures PaymentOk(w, j) {
      if j < |db.payments| { assert PaymentOk(db, j); }
    }
    forall a, b | 0 <= a < b < |w.payments|
      ensures !(w.payments[a].planId == w.payments[b].planId && w.payments[a].period == w.payments[b].period)
      ensures w.payments[a].ledgerTxn != w.payments[b].ledgerTxn
    {
      assert w.payments[a] == db.payments[a] && PaymentOk(db, a);
    }
    assert !HasTxn(db.ledger, snap.id, snap.paymentsMade + 1);
  }

  /** Payment by a fresh snapshot keeps the whole invariant. */
  lemma {:induction false} FreshKeepsInv(db: Db, snap: Plan, period: int)
    requires Inv(db) && SnapshotOf(db, snap)
    requires snap.paymentsMade == db.plans[snap.id].paymentsMade
    ensures Inv(Installment(db, snap, period))
  {
    if Lands(db, snap, period) {
      var w := Written(db, snap, period);
      FreshKeepsTables(db, snap, period);
      forall i | 0 <= i < |w.plans| ensures PlanOk(w, i) && KeysOk(w, i) {
        if i == snap.id { FreshKeepsPlan(db, snap, period); }
        else { OthersUntouched(db, snap, period, i); assert PlanOk(db, i) && KeysOk(db, i); }
      }
    }
  }

  /**
   A stale counter that gets through breaks the books: one more row is paid, but a
   counter that is behind hits a used ledger key, so no coin moves.
   */
  lemma {:induction false} StaleBreaksInv(db: Db, snap: Plan, period: int)
    requires Inv(db) && SnapshotOf(db, snap) && Lands(db, snap, period)
    requires snap.paymentsMade != db.plans[snap.id].paymentsMade
    ensures var w := Written(db, snap, period);
      && !Inv(Installment(db, snap, period))
      && PaidCount(w.payments, snap.id) == PaidCount(db.payments, snap.id) + 1
      && (snap.paymentsMade < db.plans[snap.id].paymentsMade ==> w.ledger == db.ledger)
      && (snap.paymentsMade > db.plans[snap.id].paymentsMade ==>
            w.ledger == db.ledger + [Txn(snap.id, snap.paymentsMade + 1, Posting(snap.userId, DueAmount(snap)))])
  {
    var w := Written(db, snap, period);
    var n, k := snap.paymentsMade + 1, PaidCount(db.payments, snap.id);
    assert PlanOk(db, snap.id) && KeysOk(db, snap.id);
    assert HasTxn(db.ledger, snap.id, n) <==> n <= k;
    var posted := PostInTx(db.ledger, snap.id, n, snap.userId, DueAmount(snap));
    PaidCountAppend(db.payments, Payment(snap.id, period, DueAmount(snap), Paid, Some(posted.txnId)), snap.id);
    HasTxnAppend(db.ledger, Txn(snap.id, n, Posting(snap.userId, DueAmount(snap))), snap.id, k + 1);
    assert !HasTxn(w.ledger, snap.id, k + 1);
    assert !KeysOk(w, snap.id);
  }

  /**
   Exactly when a payment transaction keeps the books: it writes nothing, or the
   counter in the worker's snapshot still equals the live counter.
   */
  lemma {:induction false} InstallmentKeepsInvIff(db: Db, snap: Plan, period: int)
    requires Inv(db) && SnapshotOf(db, snap)
    ensures Inv(Installment(db, snap, period)) <==>
            !Lands(db, snap, period) || snap.paymentsMade == db.plans[snap.id].paymentsMade
  {
    if snap.paymentsMade == db.plans[snap.id].paymentsMade { FreshKeepsInv(db, snap, period); }
    else if Lands(db, snap, period) { StaleBreaksInv(db, snap, period); }
  }

  /**
   A fresh snapshot with no payment in the period lands exactly when the period is
   admitted and, for the last installment, 'completed' is an admitted status.
   */
  lemma {:induction false} FreshLandsIff(db: Db, snap: Plan, period: int)
    requires Inv(db) && SnapshotOf(db, snap) && WinsClaim(db, snap, period)
    requires snap.paymentsMade == db.plans[snap.id].paymentsMade
    ensures Lands(db, snap, period) <==>
      && db.periods.first <= period <= db.periods.last
      && (snap.paymentsMade + 1 < snap.terms.totalMonths || Completed in db.statuses)
  {
    FreshPosts(db, snap, period);
    assert PlanOk(db, snap.id);
    TermsExact(db.plans[snap.id].price, db.plans[snap.id].bps);
  }
}
