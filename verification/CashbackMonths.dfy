/**
 Month after month: what whole runs of the batch loop pay, and that a plan whose due
 dates are met is paid off to the unit.
 */
module CashbackMonths {
  import opened Options
  import opened CashbackTerms
  import opened CashbackDb
  import opened CashbackRuns
  import opened CashbackBatch
  import opened CashbackLoop

  /** Due means: active, not paid up, nothing paid in the period, and the next due date has come. */
  lemma {:induction false} DueIff(db: Db, i: nat, job: Job)
    requires i < |db.plans|
    ensures i in DuePlans(db, job) <==>
      var p := db.plans[i];
      && p.status == Active && p.paymentsMade < p.terms.totalMonths
      && (forall j :: 0 <= j < |db.payments| && db.payments[j].planId == i ==> db.payments[j].period != job.period)
      && job.dueDate(p.startDate, p.paymentsMade) <= job.runDate
  { }

  // ---- one payment per plan and run ----

  /** What happened to a plan: untouched, or one installment further with a payment in the period. */
  ghost predicate Advanced(db: Db, db': Db, job: Job, i: nat) {
    && i < |db.plans| && |db'.plans| == |db.plans| && SameSchema(db', db)
    && SameColumns(db'.plans[i], db.plans[i])
    && (forall q :: q != job.period ==> (HasPayment(db'.payments, i, q) <==> HasPayment(db.payments, i, q)))
    && if i in DuePlans(db, job) && i !in DuePlans(db', job)
       then
         && db'.plans[i].paymentsMade == db.plans[i].paymentsMade + 1
         && (db'.plans[i].paymentsMade < db.plans[i].terms.totalMonths ==> db'.plans[i].status == db.plans[i].status)
       else db'.plans[i] == db.plans[i]
  }

  /** The due list only shrinks, so two stretches make one. */
  lemma {:induction false} AdvancedTwice(a: Db, b: Db, c: Db, job: Job, i: nat)
    requires Advanced(a, b, job, i) && Advanced(b, c, job, i)
    requires DuePlans(b, job) <= DuePlans(a, job) && DuePlans(c, job) <= DuePlans(b, job)
    ensures Advanced(a, c, job, i)
  {
    forall q | q != job.period ensures HasPayment(c.payments, i, q) <==> HasPayment(a.payments, i, q) {
      assert HasPayment(b.payments, i, q) <==> HasPayment(a.payments, i, q);
    }
  }

  lemma {:induction false} AttemptAdvances(db: Db, plan: Plan, job: Job, i: nat)
    requires Inv(db) && DueRow(db, plan, job) && i < |db.plans|
    ensures Advanced(db, Attempted(db, plan, job), job, i)
  {
    var db' := Attempted(db, plan, job);
    AttemptShrinksDue(db, plan, job);
    if i != plan.id {
      OthersStay(db, plan, job, i);
      OthersUntouched(db, plan, job.period, i);
    } else if IsStuck(db, i, job) {
      StuckChangesNothing(db, plan, job);
    } else {
      PlanAdvances(db, plan, job);
    }
  }

  lemma {:induction false} PlanAdvances(db: Db, plan: Plan, job: Job)
    requires Inv(db) && DueRow(db, plan, job) && !IsStuck(db, plan.id, job)
    ensures Advanced(db, Attempted(db, plan, job), job, plan.id)
  {
    assert PlanOk(db, plan.id);
    TermsExact(plan.price, plan.bps);
    FreshLandsIff(db, plan, job.period);
    FreshPosts(db, plan, job.period);
    AttemptShrinksDue(db, plan, job);
    var posted := PostInTx(db.ledger, plan.id, plan.paymentsMade + 1, plan.userId, DueAmount(plan));
    var row := Payment(plan.id, job.period, DueAmount(plan), Paid, Some(posted.txnId));
    forall q | q != job.period
      ensures HasPayment(db.payments + [row], plan.id, q) <==> HasPayment(db.payments, plan.id, q)
    {
      HasPaymentAppend(db.payments, row, plan.id, q);
    }
  }

  lemma {:induction false} PassAdvances(db: Db, plans: seq<Plan>, job: Job, i: nat)
    requires Inv(db) && Increasing(plans) && i < |db.plans|
    requires forall j :: 0 <= j < |plans| ==> plans[j].id < |db.plans| && DueRow(db, plans[j], job)
    ensures Advanced(db, Pass(db, plans, job), job, i)
    decreases |plans|
  {
    if |plans| > 0 {
      var db' := Attempted(db, plans[0], job);
      AttemptShrinksDue(db, plans[0], job);
      AttemptAdvances(db, plans[0], job, i);
      PassAdvances(db', plans[1..], job, i);
      PassShrinksDue(db', plans[1..], job);
      AdvancedTwice(db, db', Pass(db', plans[1..], job), job, i);
    }
  }

  /** After any number of rounds the plans that left the due list are one installment further, the others untouched. */
  lemma {:induction false} RoundsAdvance(db: Db, job: Job, k: nat, i: nat)
    requires Inv(db) && i < |db.plans|
    ensures Advanced(db, Rounds(db, job, k), job, i) && DuePlans(Rounds(db, job, k), job) <= DuePlans(db, job)
  {
    if k > 0 {
      var prev := Rounds(db, job, k - 1);
      RoundsAdvance(db, job, k - 1, i);
      ListingFits(prev, job);
      PassAdvances(prev, Listing(prev, job), job, i);
      RoundShrinksDue(prev, job);
      AdvancedTwice(db, prev, Round(prev, job), job, i);
    }
  }

  // ---- whole months ----

  /** The run of the month ends: some number of rounds leaves only stuck plans due. */
  ghost predicate EndsMonth(db: Db, job: Job, after: Db)
    requires Inv(db)
  {
    exists k: nat :: after == Rounds(db, job, k) && DuePlans(after, job) == Stuck(after, job)
  }

  /** The states at the ends of consecutive runs. */
  ghost predicate Months(states: seq<Db>, jobs: seq<Job>) {
    && |states| == |jobs| + 1 && (forall j :: 0 <= j < |states| ==> Inv(states[j]))
    && forall j :: 0 <= j < |jobs| ==> EndsMonth(states[j], jobs[j], states[j + 1])
  }

  predicate InPeriods(jobs: seq<Job>, q: int) { exists h :: 0 <= h < |jobs| && jobs[h].period == q }

  /** Run j comes in time for the plan's next installment, in an admitted period of its own, for an active wallet. */
  predicate OnTime(db: Db, i: nat, jobs: seq<Job>, j: nat)
    requires i < |db.plans| && j < |jobs|
  {
    var p, job := db.plans[i], jobs[j];
    && job.dueDate(p.startDate, p.paymentsMade + j) <= job.runDate
    && Admits(db.periods, job.period) && p.userId !in job.frozen
    && !HasPayment(db.payments, i, job.period)
    && forall h :: 0 <= h < j ==> jobs[h].period != job.period
  }

  /** The plan after some runs that were all in time. */
  ghost predicate PaidSoFar(db: Db, now: Db, i: nat, jobs: seq<Job>) {
    && i < |db.plans| && |now.plans| == |db.plans| && SameSchema(now, db) && SameColumns(now.plans[i], db.plans[i])
    && now.plans[i].paymentsMade == db.plans[i].paymentsMade + |jobs|
    && (now.plans[i].paymentsMade < db.plans[i].terms.totalMonths ==> now.plans[i].status == Active)
    && forall q :: HasPayment(now.payments, i, q) ==>
         HasPayment(db.payments, i, q) || InPeriods(jobs, q)
  }

  /** One run in time takes the plan exactly one installment further. */
  lemma {:induction false} OneMoreMonth(db: Db, now: Db, after: Db, i: nat, jobs: seq<Job>, j: nat)
    requires Inv(db) && Inv(now) && j < |jobs| && i < |db.plans| && Completed in db.statuses
    requires PaidSoFar(db, now, i, jobs[..j]) && OnTime(db, i, jobs, j) && EndsMonth(now, jobs[j], after)
    requires db.plans[i].paymentsMade + j < db.plans[i].terms.totalMonths
    ensures PaidSoFar(db, after, i, jobs[..j + 1])
  {
    var job := jobs[j];
    var k: nat :| after == Rounds(now, job, k) && DuePlans(after, job) == Stuck(after, job);
    assert !HasPayment(now.payments, i, job.period) by {
      assert forall h :: 0 <= h < j ==> jobs[..j][h] == jobs[h];
    }
    assert i in DuePlans(now, job) && !IsStuck(now, i, job);
    RoundsAdvance(now, job, k, i);
    StuckForEver(now, job, k);
    assert i !in DuePlans(after, job);
    forall q | HasPayment(after.payments, i, q)
      ensures HasPayment(db.payments, i, q) || InPeriods(jobs[..j + 1], q)
    {
      PeriodKnown(db, now, i, jobs, j, q);
    }
  }

  lemma {:induction false} PeriodKnown(db: Db, now: Db, i: nat, jobs: seq<Job>, j: nat, q: int)
    requires j < |jobs| && PaidSoFar(db, now, i, jobs[..j])
    ensures q == jobs[j].period || HasPayment(now.payments, i, q) ==>
      HasPayment(db.payments, i, q) || InPeriods(jobs[..j + 1], q)
  {
    if q == jobs[j].period {
      assert jobs[..j + 1][j].period == q;
    } else if HasPayment(now.payments, i, q) && !HasPayment(db.payments, i, q) {
      var h :| 0 <= h < |jobs[..j]| && jobs[..j][h].period == q;
      assert jobs[..j + 1][h].period == q;
    }
  }

  lemma {:induction false} MonthsPay(states: seq<Db>, jobs: seq<Job>, i: nat, n: nat)
    requires Months(states, jobs) && n <= |jobs| && i < |states[0].plans| && Completed in states[0].statuses
    requires states[0].plans[i].status == Active
    requires states[0].plans[i].paymentsMade + n <= states[0].plans[i].terms.totalMonths
    requires forall j :: 0 <= j < n ==> OnTime(states[0], i, jobs, j)
    ensures PaidSoFar(states[0], states[n], i, jobs[..n])
  {
    if n > 0 {
      MonthsPay(states, jobs, i, n - 1);
      assert EndsMonth(states[n - 1], jobs[n - 1], states[n]);
      OneMoreMonth(states[0], states[n - 1], states[n], i, jobs, n - 1);
    }
  }

  /**
   Paid off on time.  An active plan whose remaining installments each meet a run in time
   is completed by these runs, and its credits are then the order's price to the unit.
   */
  lemma {:induction false} PaidOff(states: seq<Db>, jobs: seq<Job>, i: nat)
    requires Months(states, jobs) && i < |states[0].plans| && Completed in states[0].statuses
    requires states[0].plans[i].status == Active
    requires states[0].plans[i].paymentsMade + |jobs| == states[0].plans[i].terms.totalMonths
    requires forall j :: 0 <= j < |jobs| ==> OnTime(states[0], i, jobs, j)
    ensures var e := states[|jobs|];
      && i < |e.plans| && e.plans[i].status == Completed && SameColumns(e.plans[i], states[0].plans[i])
      && CoinsCredited(e, i) == states[0].plans[i].price
  {
    MonthsPay(states, jobs, i, |jobs|);
    var e := states[|jobs|];
    assert PlanOk(e, i);
    TermsExact(e.plans[i].price, e.plans[i].bps);
    PaidThroughBounded(e.plans[i].terms, e.plans[i].price, PaidCount(e.payments, i));
  }
}
