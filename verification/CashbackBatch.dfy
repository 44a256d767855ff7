/**
 One round of the monthly batch: list up to fifty due plans in id order and pay each
 (internal/cashback/run_month.go:34-66).  One worker, no infrastructure failures.
 */
module CashbackBatch {
  import opened CashbackTerms
  import opened CashbackDb
  import opened CashbackRuns
  import opened CashbackCron

  type Calendar = (int, int) -> int

  /**
   What a run is about: its date and period, the calendar (`dueDate(start, n)` is the
   start date moved n months), and the users whose wallet is not active.
   */
  datatype Job = Job(runDate: int, period: int, dueDate: Calendar, frozen: set<int>)

  predicate IsDue(db: Db, i: nat, job: Job) {
    && Listable(db, i, job.period)
    && job.dueDate(db.plans[i].startDate, db.plans[i].paymentsMade) <= job.runDate
  }

  function DuePlans(db: Db, job: Job): set<nat> {
    set i: nat | i < |db.plans| && IsDue(db, i, job)
  }

  predicate SameSchema(a: Db, b: Db) { a.statuses == b.statuses && a.periods == b.periods }

  /** A due plan the batch cannot pay: a frozen wallet, or a period or a last installment the schema refuses. */
  predicate IsStuck(db: Db, i: nat, job: Job) {
    && IsDue(db, i, job)
    && (db.plans[i].userId in job.frozen || !Admits(db.periods, job.period)
        || (db.plans[i].paymentsMade + 1 == db.plans[i].terms.totalMonths && Completed !in db.statuses))
  }

  function Stuck(db: Db, job: Job): set<nat> {
    set i: nat | i < |db.plans| && IsStuck(db, i, job)
  }

  /** A plan row read from the current tables that the listing may return. */
  predicate DueRow(db: Db, p: Plan, job: Job) {
    IsDue(db, p.id, job) && p == db.plans[p.id]
  }

  // ---- the listing ----

  /** The due rows among the first n plans, in id order, at most `limit`. */
  function Listed(db: Db, job: Job, n: nat, limit: nat): seq<Plan>
    requires n <= |db.plans|
  {
    if n == 0 then []
    else
      var front := Listed(db, job, n - 1, limit);
      if |front| < limit && IsDue(db, n - 1, job) then front + [db.plans[n - 1]] else front
  }

  function Listing(db: Db, job: Job): seq<Plan> { Listed(db, job, |db.plans|, CRON_BATCH_SIZE) }

  function DueBelow(db: Db, job: Job, n: nat): set<nat> {
    set i: nat | i < n && i < |db.plans| && IsDue(db, i, job)
  }

  predicate HasId(plans: seq<Plan>, i: nat) { exists j :: 0 <= j < |plans| && plans[j].id == i }

  predicate Increasing(plans: seq<Plan>) {
    forall a, b :: 0 <= a < b < |plans| ==> plans[a].id < plans[b].id
  }

  /** Due rows in id order; all of them, or as many as allowed and the smallest ids. */
  ghost predicate ListingOk(db: Db, job: Job, n: nat, limit: nat, plans: seq<Plan>) {
    && |plans| == (if |DueBelow(db, job, n)| < limit then |DueBelow(db, job, n)| else limit)
    && (forall j :: 0 <= j < |plans| ==> plans[j].id < n && DueRow(db, plans[j], job))
    && Increasing(plans)
    && (forall d :: d in DueBelow(db, job, n) ==>
          HasId(plans, d) || (|plans| == limit && forall j :: 0 <= j < |plans| ==> plans[j].id < d))
  }

  lemma {:induction false} DueBelowNext(db: Db, job: Job, n: nat)
    requires 0 < n <= |db.plans|
    ensures DueBelow(db, job, n) == DueBelow(db, job, n - 1) + (if IsDue(db, n - 1, job) then {n - 1} else {})
  { }

  lemma {:induction false} ListedOneMore(db: Db, job: Job, n: nat, limit: nat, front: seq<Plan>)
    requires 0 < n <= |db.plans| && db.plans[n - 1].id == n - 1 && IsDue(db, n - 1, job)
    requires ListingOk(db, job, n - 1, limit, front) && |front| < limit
    ensures ListingOk(db, job, n, limit, front + [db.plans[n - 1]])
  {
    var plans := front + [db.plans[n - 1]];
    DueBelowNext(db, job, n);
    assert plans[|front|].id == n - 1;
    assert Increasing(plans);
    forall d | d in DueBelow(db, job, n) ensures HasId(plans, d) {
      if d != n - 1 {
        var j :| 0 <= j < |front| && front[j].id == d;
        assert plans[j].id == d;
      }
    }
  }

  lemma {:induction false} ListedNoMore(db: Db, job: Job, n: nat, limit: nat, front: seq<Plan>)
    requires 0 < n <= |db.plans| && ListingOk(db, job, n - 1, limit, front)
    requires !IsDue(db, n - 1, job) || |front| == limit
    ensures ListingOk(db, job, n, limit, front)
  {
    DueBelowNext(db, job, n);
  }

  lemma {:induction false} ListedOk(db: Db, job: Job, n: nat, limit: nat)
    requires Inv(db) && n <= |db.plans|
    ensures ListingOk(db, job, n, limit, Listed(db, job, n, limit))
  {
    if n == 0 {
      assert DueBelow(db, job, 0) == {};
    } else {
      ListedOk(db, job, n - 1, limit);
      assert PlanOk(db, n - 1);
      var front := Listed(db, job, n - 1, limit);
      DueBelowNext(db, job, n);
      if !IsDue(db, n - 1, job) || |front| == limit { ListedNoMore(db, job, n, limit, front); }
      else { ListedOneMore(db, job, n, limit, front); }
    }
  }

  /** The query read one row at a time. */
  method ListDuePlans(db: Db, job: Job, limit: nat) returns (plans: seq<Plan>)
    requires Inv(db)
    ensures plans == Listed(db, job, |db.plans|, limit)
    ensures ListingOk(db, job, |db.plans|, limit, plans)
  {
    plans := [];
    for i := 0 to |db.plans|
      invariant plans == Listed(db, job, i, limit)
    {
      if |plans| < limit && IsDue(db, i, job) { plans := plans + [db.plans[i]]; }
    }
    ListedOk(db, job, |db.plans|, limit);
  }

  // ---- paying one listed plan ----

  /** The tables after the attempt to pay one listed plan. */
  function Attempted(db: Db, plan: Plan, job: Job): Db
    requires plan.id < |db.plans|
  {
    if plan.userId in job.frozen then db else Installment(db, plan, job.period)
  }

  /** A stuck plan changes nothing. */
  lemma {:induction false} StuckChangesNothing(db: Db, plan: Plan, job: Job)
    requires Inv(db) && DueRow(db, plan, job) && IsStuck(db, plan.id, job)
    ensures Attempted(db, plan, job) == db
  {
    if plan.userId !in job.frozen {
      assert PlanOk(db, plan.id);
      TermsExact(plan.price, plan.bps);
      FreshLandsIff(db, plan, job.period);
    }
  }

  /** Other plans are as due and as stuck as before. */
  lemma {:induction false} OthersStay(db: Db, plan: Plan, job: Job, i: nat)
    requires plan.id < |db.plans| && i < |db.plans| && i != plan.id
    ensures var db' := Attempted(db, plan, job);
      && |db'.plans| == |db.plans| && SameSchema(db', db) && db'.plans[i] == db.plans[i]
      && (IsDue(db', i, job) <==> IsDue(db, i, job)) && (IsStuck(db', i, job) <==> IsStuck(db, i, job))
  {
    OthersUntouched(db, plan, job.period, i);
  }

  /** A due plan that is not stuck is paid. */
  lemma {:induction false} DuePlanIsPaid(db: Db, plan: Plan, job: Job)
    requires Inv(db) && DueRow(db, plan, job) && !IsStuck(db, plan.id, job)
    ensures HasPayment(Attempted(db, plan, job).payments, plan.id, job.period)
  {
    assert PlanOk(db, plan.id);
    TermsExact(plan.price, plan.bps);
    FreshLandsIff(db, plan, job.period);
    var row := Attempted(db, plan, job).payments[|db.payments|];
    assert row.planId == plan.id && row.period == job.period;
  }

  /** Seen from every other plan nothing happens, so due and stuck plans change by this one only. */
  lemma {:induction false} OnlyThisPlanMoves(db: Db, plan: Plan, job: Job)
    requires plan.id < |db.plans|
    ensures var db' := Attempted(db, plan, job);
      && |db'.plans| == |db.plans| && SameSchema(db', db)
      && DuePlans(db', job) - {plan.id} == DuePlans(db, job) - {plan.id}
      && Stuck(db', job) - {plan.id} == Stuck(db, job) - {plan.id}
      && (forall p :: DueRow(db, p, job) && p.id != plan.id ==> DueRow(db', p, job))
  {
    var db' := Attempted(db, plan, job);
    forall i: nat | i < |db.plans| && i != plan.id
      ensures db'.plans[i] == db.plans[i]
      ensures IsDue(db', i, job) <==> IsDue(db, i, job)
      ensures IsStuck(db', i, job) <==> IsStuck(db, i, job)
    {
      OthersStay(db, plan, job, i);
    }
  }

  /** What one attempt does to the due list and to the stuck plans. */
  lemma {:induction false} AttemptShrinksDue(db: Db, plan: Plan, job: Job)
    requires Inv(db) && DueRow(db, plan, job)
    ensures var db' := Attempted(db, plan, job);
      && Inv(db') && SameSchema(db', db) && |db'.plans| == |db.plans|
      && DuePlans(db', job) == DuePlans(db, job) - ({plan.id} - Stuck(db, job))
      && Stuck(db', job) == Stuck(db, job)
      && (forall p :: DueRow(db, p, job) && p.id != plan.id ==> DueRow(db', p, job))
  {
    if IsStuck(db, plan.id, job) {
      StuckChangesNothing(db, plan, job);
    } else {
      assert PlanOk(db, plan.id);
      FreshKeepsInv(db, plan, job.period);
      OnlyThisPlanMoves(db, plan, job);
      DuePlanIsPaid(db, plan, job);
      var db' := Attempted(db, plan, job);
      assert !IsDue(db', plan.id, job);
      OneLeaves(DuePlans(db, job), DuePlans(db', job), Stuck(db, job), Stuck(db', job), plan.id);
    }
  }

  lemma {:induction false} OneLeaves(due: set<nat>, due': set<nat>, stuck: set<nat>, stuck': set<nat>, x: nat)
    requires due' - {x} == due - {x} && stuck' - {x} == stuck - {x}
    requires x !in due' && x !in stuck && x !in stuck'
    ensures due' == due - ({x} - stuck) && stuck' == stuck
  {
    forall y: nat | y != x ensures y in due' <==> y in due ensures y in stuck' <==> y in stuck {
      assert y in due' - {x} <==> y in due - {x};
      assert y in stuck' - {x} <==> y in stuck - {x};
    }
  }

  // ---- a whole pass ----

  function Ids(plans: seq<Plan>): set<nat> { set j | 0 <= j < |plans| :: plans[j].id }

  /** The tables after one attempt per listed plan. */
  function Pass(db: Db, plans: seq<Plan>, job: Job): Db
    requires forall j :: 0 <= j < |plans| ==> plans[j].id < |db.plans|
    decreases |plans|
  {
    if |plans| == 0 then db else Pass(Attempted(db, plans[0], job), plans[1..], job)
  }

  lemma {:induction false} IdsOfFirst(plans: seq<Plan>)
    requires |plans| > 0
    ensures Ids(plans) == {plans[0].id} + Ids(plans[1..])
  {
    assert forall j :: 1 <= j < |plans| ==> plans[j] == plans[1..][j - 1];
  }

  /** A pass takes exactly its plans that are not stuck off the due list, and keeps the stuck ones. */
  lemma {:induction false} PassShrinksDue(db: Db, plans: seq<Plan>, job: Job)
    requires Inv(db) && Increasing(plans)
    requires forall j :: 0 <= j < |plans| ==> plans[j].id < |db.plans| && DueRow(db, plans[j], job)
    ensures var db' := Pass(db, plans, job);
      && Inv(db') && |db'.plans| == |db.plans|
      && DuePlans(db', job) == DuePlans(db, job) - (Ids(plans) - Stuck(db, job))
      && Stuck(db', job) == Stuck(db, job)
    decreases |plans|
  {
    if |plans| > 0 {
      AttemptShrinksDue(db, plans[0], job);
      PassShrinksDue(Attempted(db, plans[0], job), plans[1..], job);
      IdsOfFirst(plans);
    }
  }

  lemma {:induction false} StuckPassChangesNothing(db: Db, plans: seq<Plan>, job: Job)
    requires Inv(db) && Ids(plans) <= Stuck(db, job)
    requires forall j :: 0 <= j < |plans| ==> plans[j].id < |db.plans| && DueRow(db, plans[j], job)
    ensures Pass(db, plans, job) == db
    decreases |plans|
  {
    if |plans| > 0 {
      IdsOfFirst(plans);
      assert IsStuck(db, plans[0].id, job);
      StuckChangesNothing(db, plans[0], job);
      StuckPassChangesNothing(db, plans[1..], job);
    }
  }

  /** A pass over listed plans leaves the database alone exactly when every one of them is stuck. */
  lemma {:induction false} PassStallsIff(db: Db, plans: seq<Plan>, job: Job)
    requires Inv(db) && Increasing(plans)
    requires forall j :: 0 <= j < |plans| ==> plans[j].id < |db.plans| && DueRow(db, plans[j], job)
    ensures Pass(db, plans, job) == db <==> Ids(plans) <= Stuck(db, job)
  {
    PassShrinksDue(db, plans, job);
    if Ids(plans) <= Stuck(db, job) { StuckPassChangesNothing(db, plans, job); }
    else {
      var j :| 0 <= j < |plans| && plans[j].id !in Stuck(db, job);
      assert plans[j].id in DuePlans(db, job) - DuePlans(Pass(db, plans, job), job);
    }
  }

  /** No other worker and no failure; the plan's wallet as the job says. */
  function WorkerEnv(plan: Plan, job: Job): Env {
    var wallet := if plan.userId in job.frozen then Inactive else ActiveWallet;
    Env(_ => PreCheck([], wallet, false), _ => Attempt([], NoFault))
  }

  /** Pays the listed plans one after another, carrying on when one is skipped or fails. */
  method PayBatch(repo: Repository, plans: seq<Plan>, job: Job)
    requires forall j :: 0 <= j < |plans| ==> plans[j].id < |repo.committed.plans|
    modifies repo
    ensures repo.committed == Pass(old(repo.committed), plans, job)
  {
    for j := 0 to |plans|
      invariant forall k :: j <= k < |plans| ==> plans[k].id < |repo.committed.plans|
      invariant Pass(repo.committed, plans[j..], job) == Pass(old(repo.committed), plans, job)
    {
      ghost var before := repo.committed;
      var err, used, own := repo.PayOnePlan(plans[j], job.period, WorkerEnv(plans[j], job));
      assert repo.committed == Attempted(before, plans[j], job);
      assert plans[j..][1..] == plans[j + 1..];
    }
  }
}
