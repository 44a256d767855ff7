/**
 What a dead letter's attempt count says about the failures that really happened.
 Attempt rows are written asynchronously and may be dropped, so the log lags behind
 the handlers; the delivery that checks the threshold counts itself without looking
 whether its own row is already there.
 */
module EventBusCounts {
  import opened Options
  import opened Sets
  import opened Faults
  import opened DeadLetters
  import opened EventBus

  /** The deliveries of a message whose handler really failed. */
  function FailedDispatches(b: Bus, m: MessageId): set<nat> {
    set d: nat | d < |b.dispatches| && b.dispatches[d].message == m
               && b.dispatches[d].outcome.Some? && Failed(b.dispatches[d].outcome.value)
  }

  /** The deliveries of a message with a failure row in the log. */
  function FailedRows(log: seq<AttemptRow>, m: MessageId): set<nat> {
    set i | 0 <= i < |log| && log[i].message == m && Failed(log[i].outcome) :: log[i].dispatch
  }

  predicate Distinct(rows: seq<AttemptRow>) {
    forall i, j :: 0 <= i < j < |rows| ==> rows[i].dispatch != rows[j].dispatch
  }

  /** A row tells the truth about a delivery that has already queued it. */
  predicate RowOk(b: Bus, row: AttemptRow) {
    && row.dispatch < |b.dispatches|
    && var dp := b.dispatches[row.dispatch];
    && dp.message == row.message && dp.outcome == Some(row.outcome)
    && dp.phase != Handled && !dp.phase.Ending?
  }

  predicate RowsInv(b: Bus) {
    && (forall i :: 0 <= i < |b.log| ==> RowOk(b, b.log[i]))
    && (forall i :: 0 <= i < |b.queue| ==> RowOk(b, b.queue[i]))
    && Distinct(b.log) && Distinct(b.queue)
    && (forall i, j :: 0 <= i < |b.log| && 0 <= j < |b.queue| ==> b.log[i].dispatch != b.queue[j].dispatch)
  }

  /** A history is in range and counts at most one failure too many, its own. */
  predicate HistoryOk(b: Bus, m: MessageId, history: seq<Outcome>, alreadyLogged: bool) {
    && DLQ_THRESHOLD <= Failures(history) <= HISTORY_LIMIT + 1
    && Failures(history) <= |FailedDispatches(b, m)| + (if alreadyLogged then 1 else 0)
  }

  predicate CountInv(b: Bus) {
    && (forall d :: 0 <= d < |b.dispatches| && b.dispatches[d].phase.Scanned? ==>
          HistoryOk(b, b.dispatches[d].message, b.dispatches[d].phase.history, b.dispatches[d].phase.alreadyLogged))
    && (forall i :: 0 <= i < |b.dlq| ==>
          && b.dlq[i].attemptCount == Failures(b.dlq[i].history)
          && HistoryOk(b, b.dlq[i].message, b.dlq[i].history, b.dlq[i].alreadyLogged))
  }

  // ---- rows against deliveries ----

  lemma {:induction false} FailedRowsAppend(log: seq<AttemptRow>, row: AttemptRow, m: MessageId)
    ensures FailedRows(log + [row], m)
         == FailedRows(log, m) + (if row.message == m && Failed(row.outcome) then {row.dispatch} else {})
  {
    var log' := log + [row];
    forall d | d in FailedRows(log, m) ensures d in FailedRows(log', m) {
      var i :| 0 <= i < |log| && log[i].message == m && Failed(log[i].outcome) && log[i].dispatch == d;
      assert log'[i] == log[i];
    }
    assert log'[|log|] == row;
  }

  lemma {:induction false} LoggedFailures(log: seq<AttemptRow>, m: MessageId)
    requires Distinct(log)
    ensures Failures(Logged(log, m)) == |FailedRows(log, m)|
  {
    if |log| > 0 {
      var front, last := log[..|log| - 1], log[|log| - 1];
      assert log == front + [last];
      LoggedFailures(front, m);
      FailedRowsAppend(front, last, m);
      FailuresAppend(Logged(front, m), last.outcome);
      assert Logged(front, m) + [] == Logged(front, m);
      assert last.dispatch !in FailedRows(front, m) by {
        assert forall i :: 0 <= i < |front| ==> front[i] == log[i];
      }
    }
  }

  /** Logged failures, plus the checking delivery unless it is among them, all happened. */
  lemma {:induction false} HistoryTruthful(b: Bus, d: nat)
    requires SafetyInv(b) && RowsInv(b) && d < |b.dispatches| && b.dispatches[d].phase.Checking?
    ensures var m := b.dispatches[d].message; var history := History(b.log, m, b.dispatches[d].phase.outcome);
      && Failures(history) <= HISTORY_LIMIT + 1
      && Failures(history) <= |FailedDispatches(b, m)| + (if RowOf(b.log, d) then 1 else 0)
  {
    var m := b.dispatches[d].message;
    assert DispatchOk(b, d);
    ThresholdReachedIff(b.log, m, b.dispatches[d].phase.outcome);
    FailuresOfPrefix(Logged(b.log, m), |FirstTen(Logged(b.log, m))|);
    assert Logged(b.log, m)[..|FirstTen(Logged(b.log, m))|] == FirstTen(Logged(b.log, m));
    LoggedFailures(b.log, m);
    var rows := FailedRows(b.log, m);
    assert rows <= FailedDispatches(b, m) by {
      forall e | e in rows ensures e in FailedDispatches(b, m) {
        var i :| 0 <= i < |b.log| && b.log[i].message == m && Failed(b.log[i].outcome) && b.log[i].dispatch == e;
        assert RowOk(b, b.log[i]);
      }
    }
    if RowOf(b.log, d) {
      SubsetSize(rows, FailedDispatches(b, m));
    } else {
      assert d !in rows;
      SubsetSize(rows + {d}, FailedDispatches(b, m));
    }
  }

  // ---- steps ----

  lemma {:induction false} FailuresNeverForgotten(b: Bus, step: Step, m: MessageId)
    requires SafetyInv(b) && Enabled(b, step)
    ensures FailedDispatches(b, m) <= FailedDispatches(Apply(b, step), m)
    ensures |FailedDispatches(b, m)| <= |FailedDispatches(Apply(b, step), m)|
  {
    var b' := Apply(b, step);
    forall d | d in FailedDispatches(b, m) ensures d in FailedDispatches(b', m) {
      assert DispatchOk(b, d);
    }
    SubsetSize(FailedDispatches(b, m), FailedDispatches(b', m));
  }

  lemma {:induction false} QueueKeepsRows(b: Bus, d: nat, queued: bool)
    requires SafetyInv(b) && RowsInv(b) && Enabled(b, QueueAttempt(d, queued))
    ensures RowsInv(Apply(b, QueueAttempt(d, queued)))
  {
    var b' := Apply(b, QueueAttempt(d, queued));
    assert DispatchOk(b, d);
    forall i | 0 <= i < |b'.log| ensures RowOk(b', b'.log[i]) { assert RowOk(b, b.log[i]); }
    forall i | 0 <= i < |b'.queue| ensures RowOk(b', b'.queue[i]) {
      if i < |b.queue| { assert RowOk(b, b.queue[i]); }
    }
  }

  lemma {:induction false} FlushKeepsRows(b: Bus, i: nat, written: bool)
    requires RowsInv(b) && Enabled(b, FlushAttempt(i, written))
    ensures RowsInv(Apply(b, FlushAttempt(i, written)))
  {
    var b' := Apply(b, FlushAttempt(i, written));
    assert forall j :: 0 <= j < |b'.queue| ==> b'.queue[j] == b.queue[if j < i then j else j + 1];
    forall j | 0 <= j < |b'.queue| ensures RowOk(b', b'.queue[j]) { assert RowOk(b, b'.queue[j]); }
    forall j | 0 <= j < |b'.log| ensures RowOk(b', b'.log[j]) { assert RowOk(b, b'.log[j]); }
  }

  lemma {:induction false} PurgeKeepsRows(b: Bus, k: nat)
    requires RowsInv(b) && Enabled(b, PurgeAttempts(k))
    ensures RowsInv(Apply(b, PurgeAttempts(k)))
  {
    var b' := Apply(b, PurgeAttempts(k));
    assert forall i :: 0 <= i < |b'.log| ==> b'.log[i] == b.log[k + i];
    forall i | 0 <= i < |b'.log| ensures RowOk(b', b'.log[i]) { assert RowOk(b, b.log[k + i]); }
    forall i | 0 <= i < |b'.queue| ensures RowOk(b', b'.queue[i]) { assert RowOk(b, b.queue[i]); }
  }

  lemma {:induction false} StepKeepsRows(b: Bus, step: Step)
    requires SafetyInv(b) && RowsInv(b) && Enabled(b, step)
    ensures RowsInv(Apply(b, step))
  {
    if step.QueueAttempt? {
      QueueKeepsRows(b, step.d, step.queued);
    } else if step.FlushAttempt? {
      FlushKeepsRows(b, step.i, step.written);
    } else if step.PurgeAttempts? {
      PurgeKeepsRows(b, step.k);
    } else {
      var b' := Apply(b, step);
      assert b'.log == b.log && b'.queue == b.queue;
      if step.HandlerReturns? || step.AckHandled? { assert DispatchOk(b, step.d); }
      forall i | 0 <= i < |b.log| ensures RowOk(b', b.log[i]) { assert RowOk(b, b.log[i]); }
      forall i | 0 <= i < |b.queue| ensures RowOk(b', b.queue[i]) { assert RowOk(b, b.queue[i]); }
    }
  }

  /** A history that was in order stays in order: failures only accumulate. */
  lemma {:induction false} HistoryKept(b: Bus, step: Step, m: MessageId, history: seq<Outcome>, alreadyLogged: bool)
    requires SafetyInv(b) && Enabled(b, step) && HistoryOk(b, m, history, alreadyLogged)
    ensures HistoryOk(Apply(b, step), m, history, alreadyLogged)
  {
    FailuresNeverForgotten(b, step, m);
  }

  lemma {:induction false} ScannedKept(b: Bus, step: Step, d: nat)
    requires SafetyInv(b) && RowsInv(b) && CountInv(b) && Enabled(b, step)
    requires d < |Apply(b, step).dispatches| && Apply(b, step).dispatches[d].phase.Scanned?
    ensures var b' := Apply(b, step); var dp := b'.dispatches[d];
      HistoryOk(b', dp.message, dp.phase.history, dp.phase.alreadyLogged)
  {
    var dp := Apply(b, step).dispatches[d];
    if step.ScanLog? && step.d == d { HistoryTruthful(b, d); } else { assert dp == b.dispatches[d]; }
    HistoryKept(b, step, dp.message, dp.phase.history, dp.phase.alreadyLogged);
  }

  lemma {:induction false} DeadLetterKept(b: Bus, step: Step, i: nat)
    requires SafetyInv(b) && CountInv(b) && Enabled(b, step) && i < |Apply(b, step).dlq|
    ensures var b' := Apply(b, step); var row := b'.dlq[i];
      row.attemptCount == Failures(row.history) && HistoryOk(b', row.message, row.history, row.alreadyLogged)
  {
    var row := Apply(b, step).dlq[i];
    HistoryKept(b, step, row.message, row.history, row.alreadyLogged);
  }

  lemma {:induction false} StepKeepsCounts(b: Bus, step: Step)
    requires SafetyInv(b) && RowsInv(b) && CountInv(b) && Enabled(b, step)
    ensures CountInv(Apply(b, step))
  {
    var b' := Apply(b, step);
    forall d | 0 <= d < |b'.dispatches| && b'.dispatches[d].phase.Scanned?
      ensures HistoryOk(b', b'.dispatches[d].message, b'.dispatches[d].phase.history,
                        b'.dispatches[d].phase.alreadyLogged)
    {
      ScannedKept(b, step, d);
    }
    forall i | 0 <= i < |b'.dlq|
      ensures b'.dlq[i].attemptCount == Failures(b'.dlq[i].history)
      ensures HistoryOk(b', b'.dlq[i].message, b'.dlq[i].history, b'.dlq[i].alreadyLogged)
    {
      DeadLetterKept(b, step, i);
    }
  }

  lemma {:induction false} RunKeepsCounts(b: Bus, steps: seq<Step>)
    requires SafetyInv(b) && RowsInv(b) && CountInv(b) && CanRun(b, steps)
    ensures RowsInv(Run(b, steps)) && CountInv(Run(b, steps))
    decreases |steps|
  {
    if |steps| > 0 {
      StepKeepsSafety(b, steps[0]);
      StepKeepsRows(b, steps[0]);
      StepKeepsCounts(b, steps[0]);
      RunKeepsCounts(Apply(b, steps[0]), steps[1..]);
    }
  }

  /**
   Every dead letter of every run counts the failures of its own history, between
   3 and 11 of them.  The message really failed at least twice, and at least three
   times unless the inserting delivery had already been logged.
   */
  lemma {:induction false} DeadLetterCounts(b: Bus, steps: seq<Step>, i: nat)
    requires Init(b) && CanRun(b, steps) && i < |Run(b, steps).dlq|
    ensures var e := Run(b, steps); var row := e.dlq[i]; var actual := |FailedDispatches(e, row.message)|;
      && row.attemptCount == Failures(row.history)
      && 3 <= row.attemptCount <= 11
      && actual >= 2
      && (!row.alreadyLogged ==> row.attemptCount <= actual)
  {
    RunKeepsCounts(b, steps);
    var e := Run(b, steps);
    assert HistoryOk(e, e.dlq[i].message, e.dlq[i].history, e.dlq[i].alreadyLogged);
  }

  // ---- dead-lettering happens in time ----

  lemma {:induction false} LoggedAllFailed(log: seq<AttemptRow>, m: MessageId)
    requires forall i :: 0 <= i < |log| && log[i].message == m ==> Failed(log[i].outcome)
    ensures forall i :: 0 <= i < |Logged(log, m)| ==> Failed(Logged(log, m)[i])
  {
    if |log| > 0 { LoggedAllFailed(log[..|log| - 1], m); }
  }

  /** The other failures of the message are all in the log. */
  predicate OthersFlushed(b: Bus, d: nat)
    requires d < |b.dispatches|
  {
    forall e :: e in FailedDispatches(b, b.dispatches[d].message) && e != d ==> RowOf(b.log, e)
  }

  lemma {:induction false} OthersLogged(b: Bus, d: nat)
    requires SafetyInv(b) && RowsInv(b) && d < |b.dispatches| && b.dispatches[d].phase.Checking? && OthersFlushed(b, d)
    ensures var m := b.dispatches[d].message;
      FailedRows(b.log, m) == FailedDispatches(b, m) - (if RowOf(b.log, d) then {} else {d})
  { }

  /** Checking the third failure finds the threshold reached. */
  lemma {:induction false} ThirdFailureReachesThreshold(b: Bus, d: nat)
    requires SafetyInv(b) && RowsInv(b) && d < |b.dispatches| && b.dispatches[d].phase.Checking? && OthersFlushed(b, d)
    requires forall i :: 0 <= i < |b.log| && b.log[i].message == b.dispatches[d].message ==> Failed(b.log[i].outcome)
    requires |FailedDispatches(b, b.dispatches[d].message)| >= 3
    ensures Failures(History(b.log, b.dispatches[d].message, b.dispatches[d].phase.outcome)) >= DLQ_THRESHOLD
  {
    var m := b.dispatches[d].message;
    assert DispatchOk(b, d);
    OthersLogged(b, d);
    LoggedFailures(b.log, m);
    LoggedAllFailed(b.log, m);
    FailuresBounded(Logged(b.log, m));
    NoSuccessRowsReachThreshold(b.log, m, b.dispatches[d].phase.outcome);
  }

  /** No step but its own insert moves a delivery that has scanned the log. */
  predicate LeavesAlone(steps: seq<Step>, d: nat) {
    forall i :: 0 <= i < |steps| && steps[i].InsertDeadLetter? ==> steps[i].d != d
  }

  lemma {:induction false} StaysScanned(b: Bus, steps: seq<Step>, d: nat)
    requires CanRun(b, steps) && LeavesAlone(steps, d)
    requires d < |b.dispatches| && b.dispatches[d].phase.Scanned?
    ensures d < |Run(b, steps).dispatches| && Run(b, steps).dispatches[d] == b.dispatches[d]
    decreases |steps|
  {
    if |steps| > 0 {
      assert steps[0].InsertDeadLetter? ==> steps[0].d != d;
      assert forall i :: 0 <= i < |steps| - 1 ==> steps[1..][i] == steps[i + 1];
      StaysScanned(Apply(b, steps[0]), steps[1..], d);
    }
  }

  lemma {:induction false} InsertedIsDead(b: Bus, d: nat)
    requires Enabled(b, InsertDeadLetter(d, NoFault))
    ensures InDlq(Apply(b, InsertDeadLetter(d, NoFault)).dlq, b.dispatches[d].message)
  {
    var dp := b.dispatches[d];
    if !InDlq(b.dlq, dp.message) {
      var h := dp.phase.history;
      InDlqAppend(b.dlq, DlqRow(dp.message, Failures(h), h, Open, d, dp.phase.alreadyLogged), dp.message);
    }
  }

  /**
   A message with no success row whose earlier failures are all in the log when its
   third failure is checked is dead once that check's insert goes through, whatever
   else happens between the scan and the insert.
   */
  lemma {:induction false} DeadByThirdFailure(b: Bus, steps: seq<Step>, d: nat, between: seq<Step>)
    requires Init(b) && CanRun(b, steps)
    requires var e := Run(b, steps);
      && d < |e.dispatches| && e.dispatches[d].phase.Checking? && OthersFlushed(e, d)
      && (forall i :: 0 <= i < |e.log| && e.log[i].message == e.dispatches[d].message ==> Failed(e.log[i].outcome))
      && |FailedDispatches(e, e.dispatches[d].message)| >= 3
    requires CanRun(Apply(Run(b, steps), ScanLog(d)), between) && LeavesAlone(between, d)
    ensures var later := Run(Apply(Run(b, steps), ScanLog(d)), between);
      && Enabled(later, InsertDeadLetter(d, NoFault))
      && InDlq(Apply(later, InsertDeadLetter(d, NoFault)).dlq, Run(b, steps).dispatches[d].message)
  {
    RunKeepsSafety(b, steps);
    RunKeepsCounts(b, steps);
    var e := Run(b, steps);
    ThirdFailureReachesThreshold(e, d);
    var scanned := Apply(e, ScanLog(d));
    StaysScanned(scanned, between, d);
    InsertedIsDead(Run(scanned, between), d);
  }

  // ---- how far the count is off ----

  /** How much of the log the scan reads for a message: up to its tenth row. */
  function WindowEnd(log: seq<AttemptRow>, m: MessageId): (p: nat)
    ensures p <= |log|
  {
    if |Logged(log, m)| <= HISTORY_LIMIT then |log| else WindowEnd(log[..|log| - 1], m)
  }

  lemma {:induction false} WindowIsFirstTen(log: seq<AttemptRow>, m: MessageId)
    ensures Logged(log[..WindowEnd(log, m)], m) == FirstTen(Logged(log, m))
  {
    if |Logged(log, m)| <= HISTORY_LIMIT {
      assert log[..|log|] == log;
    } else {
      var front := log[..|log| - 1];
      WindowIsFirstTen(front, m);
      assert log[..WindowEnd(front, m)] == front[..WindowEnd(front, m)];
    }
  }

  /** The deliveries of a message whose failure row stands in the window the scan reads. */
  function FailedInWindow(log: seq<AttemptRow>, m: MessageId): set<nat> {
    FailedRows(log[..WindowEnd(log, m)], m)
  }

  lemma {:induction false} WindowFailures(b: Bus, m: MessageId)
    requires RowsInv(b)
    ensures Failures(FirstTen(Logged(b.log, m))) == |FailedInWindow(b.log, m)|
    ensures FailedInWindow(b.log, m) <= FailedDispatches(b, m)
  {
    var window := b.log[..WindowEnd(b.log, m)];
    WindowIsFirstTen(b.log, m);
    LoggedFailures(window, m);
    forall e | e in FailedRows(window, m) ensures e in FailedDispatches(b, m) {
      var i :| 0 <= i < |window| && window[i].message == m && Failed(window[i].outcome) && window[i].dispatch == e;
      assert RowOk(b, b.log[i]);
    }
  }

  /**
   Exactly when the count is too high.  The threshold check counts one failure more
   than there were exactly when the row of every failed delivery, its own included,
   stands in the window it reads; otherwise it counts no more than there were.
   */
  lemma {:induction false} CountTooHighIff(b: Bus, d: nat)
    requires SafetyInv(b) && RowsInv(b) && d < |b.dispatches| && b.dispatches[d].phase.Checking?
    ensures var m := b.dispatches[d].message; var actual := FailedDispatches(b, m);
      var count := Failures(History(b.log, m, b.dispatches[d].phase.outcome));
      && (count > |actual| <==> actual <= FailedInWindow(b.log, m))
      && count <= |actual| + 1
  {
    var m := b.dispatches[d].message;
    assert DispatchOk(b, d);
    ThresholdReachedIff(b.log, m, b.dispatches[d].phase.outcome);
    WindowFailures(b, m);
    var seen, actual := FailedInWindow(b.log, m), FailedDispatches(b, m);
    SubsetSize(seen, actual);
    if actual <= seen { assert seen == actual; }
  }

  lemma {:induction false} RunFour(b: Bus, s1: Step, s2: Step, s3: Step, s4: Step)
    requires Enabled(b, s1)
    requires Enabled(Apply(b, s1), s2)
    requires Enabled(Apply(Apply(b, s1), s2), s3)
    requires Enabled(Apply(Apply(Apply(b, s1), s2), s3), s4)
    ensures CanRun(b, [s1, s2, s3, s4]) && Run(b, [s1, s2, s3, s4]) == Apply(Apply(Apply(Apply(b, s1), s2), s3), s4)
  {
    var b1 := Apply(b, s1);
    var b2 := Apply(b1, s2);
    var b3 := Apply(b2, s3);
    RunCons(b3, s4, []);
    RunCons(b2, s3, [s4]);
    RunCons(b1, s2, [s3, s4]);
    RunCons(b, s1, [s2, s3, s4]);
    assert [s4] + [] == [s4] && [s3] + [s4] == [s3, s4] && [s2] + [s3, s4] == [s2, s3, s4];
    assert [s1] + [s2, s3, s4] == [s1, s2, s3, s4];
  }

  /** Two failures, both rows flushed before the second check: dead-lettered with a count of three. */
  function TwoFailures(): seq<Step> {
    [ReadNew(7), HandlerReturns(0, Error), QueueAttempt(0, true), FlushAttempt(0, true)]
    + [Redeliver(7), HandlerReturns(1, Error), QueueAttempt(1, true), FlushAttempt(0, true)]
  }

  function Quiet(dispatches: seq<Dispatch>, log: seq<AttemptRow>): Bus { Bus({7}, {7}, dispatches, [], log, [], {}) }

  const STOPPED := Dispatch(7, Checking(Error), Some(Error))

  lemma {:induction false} FirstFailure(b: Bus)
    requires b == Bus({}, {}, [], [], [], [], {})
    ensures var s := [ReadNew(7), HandlerReturns(0, Error), QueueAttempt(0, true), FlushAttempt(0, true)];
      CanRun(b, s) && Run(b, s) == Quiet([STOPPED], [AttemptRow(0, 7, Error)])
  {
    var b1 := Apply(b, ReadNew(7));
    var b2 := Apply(b1, HandlerReturns(0, Error));
    var b3 := Apply(b2, QueueAttempt(0, true));
    RunFour(b, ReadNew(7), HandlerReturns(0, Error), QueueAttempt(0, true), FlushAttempt(0, true));
  }

  lemma {:induction false} SecondFailure(b: Bus)
    requires b == Quiet([STOPPED], [AttemptRow(0, 7, Error)])
    ensures var s := [Redeliver(7), HandlerReturns(1, Error), QueueAttempt(1, true), FlushAttempt(0, true)];
      CanRun(b, s) && Run(b, s) == Quiet([STOPPED, STOPPED], [AttemptRow(0, 7, Error), AttemptRow(1, 7, Error)])
  {
    var b1 := Apply(b, Redeliver(7));
    var b2 := Apply(b1, HandlerReturns(1, Error));
    var b3 := Apply(b2, QueueAttempt(1, true));
    RunFour(b, Redeliver(7), HandlerReturns(1, Error), QueueAttempt(1, true), FlushAttempt(0, true));
  }

  lemma {:induction false} TwoFailuresState(b: Bus)
    requires Init(b)
    ensures CanRun(b, TwoFailures())
    ensures Run(b, TwoFailures()) == Quiet([STOPPED, STOPPED], [AttemptRow(0, 7, Error), AttemptRow(1, 7, Error)])
  {
    FirstFailure(b);
    SecondFailure(Quiet([STOPPED], [AttemptRow(0, 7, Error)]));
    RunConcat(b, [ReadNew(7), HandlerReturns(0, Error), QueueAttempt(0, true), FlushAttempt(0, true)],
              [Redeliver(7), HandlerReturns(1, Error), QueueAttempt(1, true), FlushAttempt(0, true)]);
  }

  lemma {:induction false} TwoLogged(log: seq<AttemptRow>)
    requires log == [AttemptRow(0, 7, Error), AttemptRow(1, 7, Error)]
    ensures Logged(log, 7) == [Error, Error]
  {
    assert log[..1] == [AttemptRow(0, 7, Error)];
    assert Logged(log[..1], 7) == [Error];
  }

  /** The second check reads both rows, counts three, and dead-letters the message. */
  lemma {:induction false} SecondCheck(b: Bus)
    requires b == Quiet([STOPPED, STOPPED], [AttemptRow(0, 7, Error), AttemptRow(1, 7, Error)])
    ensures var s := [ScanLog(1), InsertDeadLetter(1, NoFault)];
      && CanRun(b, s) && |Run(b, s).dlq| == 1 && FailedDispatches(Run(b, s), 7) == {0, 1}
      && Run(b, s).dlq[0].message == 7 && Run(b, s).dlq[0].attemptCount == 3
  {
    TwoLogged(b.log);
    AllFailures([Error, Error]);
    ThresholdReachedIff(b.log, 7, Error);
    var scanned := Apply(b, ScanLog(1));
    var done := Apply(scanned, InsertDeadLetter(1, NoFault));
    assert FailedDispatches(done, 7) == {0, 1};
    RunCons(scanned, InsertDeadLetter(1, NoFault), []);
    RunCons(b, ScanLog(1), [InsertDeadLetter(1, NoFault)]);
    assert [InsertDeadLetter(1, NoFault)] + [] == [InsertDeadLetter(1, NoFault)];
    assert [ScanLog(1)] + [InsertDeadLetter(1, NoFault)] == [ScanLog(1), InsertDeadLetter(1, NoFault)];
  }

  /** A dead letter that counts three failures of a message that failed twice. */
  lemma {:induction false} CountCanExceedFailures(b: Bus)
    requires Init(b)
    ensures var s := TwoFailures() + [ScanLog(1), InsertDeadLetter(1, NoFault)];
      && CanRun(b, s)
      && var e := Run(b, s);
      && |e.dlq| == 1 && e.dlq[0].message == 7 && e.dlq[0].attemptCount == 3
      && |FailedDispatches(e, 7)| == 2
  {
    TwoFailuresState(b);
    SecondCheck(Run(b, TwoFailures()));
    RunConcat(b, TwoFailures(), [ScanLog(1), InsertDeadLetter(1, NoFault)]);
  }
}
