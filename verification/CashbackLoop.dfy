/**
 The batch loop (internal/cashback/run_month.go:22-69): rounds of listing and paying
 until a listing comes back short.  It ends exactly when fewer than fifty due plans are
 stuck, and pays exactly the plans that are not stuck behind fifty of them.
 */
module CashbackLoop {
  import opened Sets
  import opened CashbackTerms
  import opened CashbackDb
  import opened CashbackCron
  import opened CashbackBatch

  lemma {:induction false} ListingFits(db: Db, job: Job)
    requires Inv(db)
    ensures ListingOk(db, job, |db.plans|, CRON_BATCH_SIZE, Listing(db, job))
    ensures DueBelow(db, job, |db.plans|) == DuePlans(db, job)
    ensures forall j :: 0 <= j < |Listing(db, job)| ==> Listing(db, job)[j].id < |db.plans|
  {
    ListedOk(db, job, |db.plans|, CRON_BATCH_SIZE);
  }

  /** One round: list, then pay what was listed. */
  ghost function Round(db: Db, job: Job): Db
    requires Inv(db)
  {
    ListingFits(db, job);
    Pass(db, Listing(db, job), job)
  }

  lemma {:induction false} RoundShrinksDue(db: Db, job: Job)
    requires Inv(db)
    ensures var db' := Round(db, job);
      && Inv(db') && |db'.plans| == |db.plans|
      && DuePlans(db', job) == DuePlans(db, job) - (Ids(Listing(db, job)) - Stuck(db, job))
      && Stuck(db', job) == Stuck(db, job)
  {
    ListingFits(db, job);
    PassShrinksDue(db, Listing(db, job), job);
  }

  ghost function Rounds(db: Db, job: Job, k: nat): (r: Db)
    requires Inv(db)
    ensures Inv(r)
  {
    if k == 0 then db
    else
      var prev := Rounds(db, job, k - 1);
      RoundShrinksDue(prev, job);
      Round(prev, job)
  }

  /** The stuck plans stay the same, round after round. */
  lemma {:induction false} StuckForEver(db: Db, job: Job, k: nat)
    requires Inv(db)
    ensures Stuck(Rounds(db, job, k), job) == Stuck(db, job)
  {
    if k > 0 {
      StuckForEver(db, job, k - 1);
      RoundShrinksDue(Rounds(db, job, k - 1), job);
    }
  }

  lemma {:induction false} IdsCount(plans: seq<Plan>)
    requires Increasing(plans)
    ensures |Ids(plans)| == |plans|
    decreases |plans|
  {
    if |plans| > 0 {
      IdsOfFirst(plans);
      IdsCount(plans[1..]);
      assert plans[0].id !in Ids(plans[1..]);
    }
  }

  /** A short listing is everything that is due. */
  lemma {:induction false} ShortListing(db: Db, job: Job)
    requires Inv(db)
    ensures |Listing(db, job)| < CRON_BATCH_SIZE <==> |DuePlans(db, job)| < CRON_BATCH_SIZE
    ensures |Listing(db, job)| < CRON_BATCH_SIZE ==> Ids(Listing(db, job)) == DuePlans(db, job)
  {
    ListingFits(db, job);
  }

  /** A full listing with fewer than fifty stuck plans to offer pays somebody. */
  lemma {:induction false} FullListingProgress(db: Db, job: Job, held: set<nat>)
    requires Inv(db) && |Listing(db, job)| == CRON_BATCH_SIZE && |held| < CRON_BATCH_SIZE
    requires forall i :: i in Ids(Listing(db, job)) && i in Stuck(db, job) ==> i in held
    ensures |DuePlans(Round(db, job), job)| < |DuePlans(db, job)|
  {
    ListingFits(db, job);
    RoundShrinksDue(db, job);
    var plans := Listing(db, job);
    IdsCount(plans);
    if Ids(plans) <= Stuck(db, job) { SubsetSize(Ids(plans), held); }
    var i :| i in Ids(plans) && i !in Stuck(db, job);
    assert i in DuePlans(db, job) && i !in DuePlans(Round(db, job), job);
    SubsetSize(DuePlans(Round(db, job), job), DuePlans(db, job));
  }

  ghost predicate Ends(db: Db, job: Job)
    requires Inv(db)
  {
    exists k: nat :: |Listing(Rounds(db, job, k), job)| < 50
  }

  lemma {:induction false} EndsFrom(db: Db, job: Job, k: nat)
    requires Inv(db) && |Stuck(db, job)| < CRON_BATCH_SIZE
    ensures Ends(db, job)
    decreases |DuePlans(Rounds(db, job, k), job)|
  {
    var now := Rounds(db, job, k);
    ListingFits(now, job);
    if |Listing(now, job)| == CRON_BATCH_SIZE {
      StuckForEver(db, job, k);
      FullListingProgress(now, job, Stuck(db, job));
      assert Rounds(db, job, k + 1) == Round(now, job);
      EndsFrom(db, job, k + 1);
    }
  }

  /** The loop ends exactly when fewer than a full batch of due plans is stuck. */
  lemma {:induction false} LoopEndsIff(db: Db, job: Job)
    requires Inv(db)
    ensures Ends(db, job) <==> |Stuck(db, job)| < 50
  {
    if |Stuck(db, job)| < CRON_BATCH_SIZE {
      EndsFrom(db, job, 0);
    } else if Ends(db, job) {
      var k: nat :| |Listing(Rounds(db, job, k), job)| < CRON_BATCH_SIZE;
      StuckForEver(db, job, k);
      ShortListing(Rounds(db, job, k), job);
      SubsetSize(Stuck(db, job), DuePlans(Rounds(db, job, k), job));
    }
  }

  /** Outside 202600 to 209912 every due plan is stuck under the shipped CHECK, so fifty keep the loop going. */
  lemma {:induction false} RefusedPeriod(db: Db, job: Job)
    requires Inv(db) && db.periods == SHIPPED_PERIODS && !(202600 <= job.period <= 209912)
    ensures Stuck(db, job) == DuePlans(db, job)
    ensures Ends(db, job) <==> |DuePlans(db, job)| < 50
  {
    assert Stuck(db, job) == DuePlans(db, job);
    LoopEndsIff(db, job);
  }

  // ---- which plans are paid ----

  function StuckBelow(db: Db, job: Job, i: nat): set<nat> { set s: nat | s in Stuck(db, job) && s < i }

  /** Some round takes the plan off the due list. */
  ghost predicate PaidInTime(db: Db, job: Job, i: nat)
    requires Inv(db)
  {
    exists k: nat :: i !in DuePlans(Rounds(db, job, k), job)
  }

  /** Whoever is listed has all due plans with smaller ids listed before it. */
  lemma {:induction false} ListedAfterSmaller(db: Db, job: Job, i: nat)
    requires Inv(db) && i in DuePlans(db, job) && i in Ids(Listing(db, job))
    ensures StuckBelow(db, job, i) + {i} <= Ids(Listing(db, job))
  {
    ListingFits(db, job);
    var plans := Listing(db, job);
    forall s | s in StuckBelow(db, job, i) ensures s in Ids(plans) {
      assert s in DueBelow(db, job, |db.plans|);
    }
  }

  lemma {:induction false} NotServed(db: Db, job: Job, i: nat)
    requires Inv(db) && i in DuePlans(db, job) && |StuckBelow(db, job, i)| >= CRON_BATCH_SIZE
    ensures i in DuePlans(Round(db, job), job)
  {
    RoundShrinksDue(db, job);
    if i in Ids(Listing(db, job)) {
      ListingFits(db, job);
      ListedAfterSmaller(db, job, i);
      IdsCount(Listing(db, job));
      SubsetSize(StuckBelow(db, job, i) + {i}, Ids(Listing(db, job)));
    }
  }

  lemma {:induction false} BehindFifty(db: Db, job: Job, i: nat, k: nat)
    requires Inv(db) && i in DuePlans(db, job) && |StuckBelow(db, job, i)| >= CRON_BATCH_SIZE
    ensures i in DuePlans(Rounds(db, job, k), job)
  {
    if k > 0 {
      BehindFifty(db, job, i, k - 1);
      StuckForEver(db, job, k - 1);
      assert StuckBelow(Rounds(db, job, k - 1), job, i) == StuckBelow(db, job, i);
      NotServed(Rounds(db, job, k - 1), job, i);
    }
  }

  lemma {:induction false} NotListedMeansFull(db: Db, job: Job, i: nat)
    requires Inv(db) && i in DuePlans(db, job) && i !in Ids(Listing(db, job))
    ensures |Listing(db, job)| == CRON_BATCH_SIZE && forall s :: s in Ids(Listing(db, job)) ==> s < i
  {
    ListingFits(db, job);
    assert i in DueBelow(db, job, |db.plans|);
    assert !HasId(Listing(db, job), i);
  }

  /** A due plan in front of which fewer than fifty stand is paid this round, or somebody else is. */
  lemma {:induction false} RoundServes(db: Db, job: Job, i: nat)
    requires Inv(db) && i in DuePlans(db, job) && i !in Stuck(db, job)
    requires |StuckBelow(db, job, i)| < CRON_BATCH_SIZE
    ensures i !in DuePlans(Round(db, job), job) || |DuePlans(Round(db, job), job)| < |DuePlans(db, job)|
  {
    RoundShrinksDue(db, job);
    if i !in Ids(Listing(db, job)) {
      NotListedMeansFull(db, job, i);
      FullListingProgress(db, job, StuckBelow(db, job, i));
    }
  }

  lemma {:induction false} ReachedFrom(db: Db, job: Job, i: nat, k: nat)
    requires Inv(db) && i !in Stuck(db, job) && |StuckBelow(db, job, i)| < CRON_BATCH_SIZE
    ensures PaidInTime(db, job, i)
    decreases |DuePlans(Rounds(db, job, k), job)|
  {
    var now := Rounds(db, job, k);
    if i in DuePlans(now, job) {
      StuckForEver(db, job, k);
      assert StuckBelow(now, job, i) == StuckBelow(db, job, i);
      RoundServes(now, job, i);
      assert Rounds(db, job, k + 1) == Round(now, job);
      if i in DuePlans(Round(now, job), job) { ReachedFrom(db, job, i, k + 1); }
    }
  }

  /** A due plan is paid exactly when it is not stuck and fewer than fifty stuck plans stand before it. */
  lemma {:induction false} PaidInTimeIff(db: Db, job: Job, i: nat)
    requires Inv(db) && i in DuePlans(db, job)
    ensures PaidInTime(db, job, i) <==>
      i !in Stuck(db, job) && |StuckBelow(db, job, i)| < 50
  {
    if i !in Stuck(db, job) && |StuckBelow(db, job, i)| < CRON_BATCH_SIZE {
      ReachedFrom(db, job, i, 0);
    } else if PaidInTime(db, job, i) {
      var k: nat :| i !in DuePlans(Rounds(db, job, k), job);
      StuckForEver(db, job, k);
      if |StuckBelow(db, job, i)| >= CRON_BATCH_SIZE { BehindFifty(db, job, i, k); }
    }
  }

  // ---- the loop itself ----

  /** What the loop needs to know about one round. */
  lemma {:induction false} RoundEffect(db: Db, job: Job)
    requires Inv(db) && |Stuck(db, job)| < CRON_BATCH_SIZE
    ensures var plans, db' := Listing(db, job), Round(db, job);
      && Inv(db') && Stuck(db', job) == Stuck(db, job)
      && (|plans| < CRON_BATCH_SIZE ==> DuePlans(db', job) == Stuck(db, job))
      && (|plans| >= CRON_BATCH_SIZE ==> |DuePlans(db', job)| < |DuePlans(db, job)|)
      && (DuePlans(db, job) <= Stuck(db, job) ==> db' == db)
  {
    ListingFits(db, job);
    ShortListing(db, job);
    RoundShrinksDue(db, job);
    PassStallsIff(db, Listing(db, job), job);
    assert Ids(Listing(db, job)) <= DuePlans(db, job);
    if |Listing(db, job)| >= CRON_BATCH_SIZE { FullListingProgress(db, job, Stuck(db, job)); }
  }

  /** The body of the loop; an empty listing leaves nothing to pay. */
  method PayRound(repo: Repository, job: Job) returns (listed: nat)
    requires Inv(repo.committed)
    modifies repo
    ensures repo.committed == Round(old(repo.committed), job)
    ensures listed == |Listing(old(repo.committed), job)|
  {
    var plans := ListDuePlans(repo.committed, job, CRON_BATCH_SIZE);
    listed := |plans|;
    if |plans| == 0 { return; }
    PayBatch(repo, plans, job);
  }

  /**
   Under exactly the condition of LoopEndsIff the loop ends; then what is still due is
   what is stuck, the books are kept, and a second run in the period changes nothing.
   */
  method PayMonthlyInstallments(repo: Repository, job: Job) returns (ghost rounds: nat)
    requires Inv(repo.committed) && |Stuck(repo.committed, job)| < 50
    modifies repo
    ensures Inv(repo.committed) && repo.committed == Rounds(old(repo.committed), job, rounds)
    ensures DuePlans(repo.committed, job) == Stuck(repo.committed, job) == Stuck(old(repo.committed), job)
    ensures DuePlans(old(repo.committed), job) <= Stuck(old(repo.committed), job) ==>
      repo.committed == old(repo.committed)
  {
    rounds := 0;
    ghost var db0 := repo.committed;
    while true
      invariant Inv(repo.committed) && repo.committed == Rounds(db0, job, rounds)
      invariant Stuck(repo.committed, job) == Stuck(db0, job)
      invariant DuePlans(db0, job) <= Stuck(db0, job) ==> repo.committed == db0
      decreases |DuePlans(repo.committed, job)|
    {
      RoundEffect(repo.committed, job);
      var listed := PayRound(repo, job);
      rounds := rounds + 1;
      if listed < CRON_BATCH_SIZE { break; }
    }
  }

  // ---- a batch that never ends ----

  /** n plans of 15600 at 10%, none paid yet, one user each. */
  function NewPlans(n: nat): Db {
    Db(seq(n, (i: nat) => Plan(i, i, i, 15600, 1000, PlanTerms(156, 100, 100), 0, 0, Active)), [], [],
       {Active, Completed}, SHIPPED_PERIODS)
  }

  lemma {:induction false} NewPlansOk(n: nat)
    ensures Inv(NewPlans(n))
  {
    var db := NewPlans(n);
    forall i | 0 <= i < n ensures PlanOk(db, i) && KeysOk(db, i) {
      assert PaidThrough(db.plans[i].terms, 0) == 0;
    }
  }

  /** Users 0 to n - 1. */
  function FirstUsers(n: nat): (r: set<int>)
    ensures forall u :: u in r <==> 0 <= u < n
  {
    if n == 0 then {} else FirstUsers(n - 1) + {n - 1}
  }

  lemma {:induction false} NewPlansDue(job: Job, n: nat, k: nat)
    requires k < n && job.dueDate(0, 0) <= job.runDate && job.frozen == FirstUsers(k)
    requires Admits(SHIPPED_PERIODS, job.period)
    ensures var db := NewPlans(n); k in DuePlans(db, job) && k !in Stuck(db, job) && |StuckBelow(db, job, k)| == k
  {
    var db := NewPlans(n);
    assert forall i: nat :: i < n ==> IsDue(db, i, job);
    CountBelow(StuckBelow(db, job, k), k);
  }

  lemma {:induction false} CountBelow(a: set<nat>, k: nat)
    requires forall i: nat :: i in a <==> i < k
    ensures |a| == k
  {
    if k == 0 { assert a == {}; } else { CountBelow(a - {k - 1}, k - 1); }
  }

  /** Fifty due plans of users with frozen wallets: the loop goes on for ever, and a 51st plan is never paid. */
  lemma {:induction false} FrozenBatch(dueDate: Calendar)
    requires dueDate(0, 0) <= 0
    ensures var db := NewPlans(51); var job := Job(0, 202601, dueDate, FirstUsers(50));
      && Inv(db) && !Ends(db, job)
      && 50 in DuePlans(db, job) && 50 !in Stuck(db, job) && !PaidInTime(db, job, 50)
  {
    var db, job := NewPlans(51), Job(0, 202601, dueDate, FirstUsers(50));
    NewPlansOk(51);
    NewPlansDue(job, 51, 50);
    SubsetSize(StuckBelow(db, job, 50), Stuck(db, job));
    LoopEndsIff(db, job);
    PaidInTimeIff(db, job, 50);
  }
}
