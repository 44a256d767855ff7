/**
 Delivery of stream messages to one consumer group (internal/eventbus/redis_bus.go).

 Every goroutine that handles a delivery is a `Dispatch` with its own program
 point, so the same message may be dispatched many times at once: by a first read,
 by re-reading the pending list, or by claiming orphans.  Each step below is one
 call into Redis, the database or the handler, and each call may fail.
 */
module EventBus {
  import opened Options
  import opened Faults
  import opened DeadLetters

  datatype Phase =
    | Running                                             // handler not finished
    | Handled                                             // handler succeeded, acknowledgement next
    | Ending(outcome: Outcome)                            // deferred block: attempt row not queued yet
    | Checking(outcome: Outcome)                          // failed, threshold check next
    | Scanned(history: seq<Outcome>, alreadyLogged: bool) // log read, insert next
    | AckDeadLetter                                       // dead letter committed, acknowledgement next
    | Finished

  /** `outcome` is what the handler did, once it has done it. */
  datatype Dispatch = Dispatch(message: MessageId, phase: Phase, outcome: Option<Outcome>)

  /**
   `delivered` messages have been handed to the group; `pending` ones are not
   acknowledged.  `queue` holds attempt rows on their way to `log`.
   */
  datatype Bus = Bus(delivered: set<MessageId>, pending: set<MessageId>, dispatches: seq<Dispatch>,
                     queue: seq<AttemptRow>, log: seq<AttemptRow>, dlq: seq<DlqRow>, handled: set<MessageId>)

  datatype Step =
    | ReadNew(message: MessageId)
    | Redeliver(message: MessageId)
    | HandlerReturns(d: nat, outcome: Outcome)
    | AckHandled(d: nat, acked: bool)
    | QueueAttempt(d: nat, queued: bool)
    | FlushAttempt(i: nat, written: bool)
    | ScanLog(d: nat)
    | InsertDeadLetter(d: nat, fault: TxFault)
    | AckDead(d: nat, acked: bool)
    | ResolveDeadLetter(i: nat, status: DlqStatus)
    | PurgeAttempts(k: nat)

  predicate Enabled(b: Bus, step: Step) {
    match step
    case ReadNew(m) => m !in b.delivered
    case Redeliver(m) => m in b.pending
    case HandlerReturns(d, _) => d < |b.dispatches| && b.dispatches[d].phase == Running
    case AckHandled(d, _) => d < |b.dispatches| && b.dispatches[d].phase == Handled
    case QueueAttempt(d, _) => d < |b.dispatches| && b.dispatches[d].phase.Ending?
    case FlushAttempt(i, _) => i < |b.queue|
    case ScanLog(d) => d < |b.dispatches| && b.dispatches[d].phase.Checking?
    case InsertDeadLetter(d, _) => d < |b.dispatches| && b.dispatches[d].phase.Scanned?
    case AckDead(d, _) => d < |b.dispatches| && b.dispatches[d].phase == AckDeadLetter
    case ResolveDeadLetter(i, status) => i < |b.dlq| && b.dlq[i].status == Open && status != Open
    case PurgeAttempts(k) => k <= |b.log|
  }

  function Moved(b: Bus, d: nat, phase: Phase): Bus
    requires d < |b.dispatches|
  {
    b.(dispatches := b.dispatches[d := b.dispatches[d].(phase := phase)])
  }

  function Acked(b: Bus, m: MessageId, acked: bool): Bus {
    if acked then b.(pending := b.pending - {m}) else b
  }

  predicate RowOf(log: seq<AttemptRow>, d: nat) {
    exists i :: 0 <= i < |log| && log[i].dispatch == d
  }

  function Apply(b: Bus, step: Step): Bus
    requires Enabled(b, step)
  {
    match step
    case ReadNew(m) =>
      b.(delivered := b.delivered + {m}, pending := b.pending + {m},
         dispatches := b.dispatches + [Dispatch(m, Running, None)])
    case Redeliver(m) => b.(dispatches := b.dispatches + [Dispatch(m, Running, None)])
    case HandlerReturns(d, outcome) =>
      var dp := b.dispatches[d];
      var phase := if outcome == Success then Handled else Ending(outcome);
      b.(dispatches := b.dispatches[d := dp.(phase := phase, outcome := Some(outcome))],
         handled := if outcome == Success then b.handled + {dp.message} else b.handled)
    case AckHandled(d, acked) =>
      Moved(Acked(b, b.dispatches[d].message, acked), d, Ending(Success))
    case QueueAttempt(d, queued) =>
      var dp := b.dispatches[d];
      var o := dp.phase.outcome;
      var b' := Moved(b, d, if o == Success then Finished else Checking(o));
      if queued then b'.(queue := b.queue + [AttemptRow(d, dp.message, o)]) else b'
    case FlushAttempt(i, written) =>
      var rest := b.queue[..i] + b.queue[i + 1..];
      if written then b.(queue := rest, log := b.log + [b.queue[i]]) else b.(queue := rest)
    case ScanLog(d) =>
      var dp := b.dispatches[d];
      var history := History(b.log, dp.message, dp.phase.outcome);
      Moved(b, d, if Failures(history) < DLQ_THRESHOLD then Finished else Scanned(history, RowOf(b.log, d)))
    case InsertDeadLetter(d, fault) =>
      var dp := b.dispatches[d];
      if InDlq(b.dlq, dp.message) then Moved(b, d, AckDeadLetter)
      else if fault == RolledBack then Moved(b, d, Finished)
      else
        var row := DlqRow(dp.message, Failures(dp.phase.history), dp.phase.history, Open, d, dp.phase.alreadyLogged);
        Moved(b, d, if fault == CommitAckLost then Finished else AckDeadLetter).(dlq := b.dlq + [row])
    case AckDead(d, acked) => Moved(Acked(b, b.dispatches[d].message, acked), d, Finished)
    case ResolveDeadLetter(i, status) => b.(dlq := b.dlq[i := b.dlq[i].(status := status)])
    case PurgeAttempts(k) => b.(log := b.log[k..])  // rows older than a week, the oldest ones
  }

  predicate Init(b: Bus) {
    b == Bus({}, {}, [], [], [], [], {})
  }

  predicate CanRun(b: Bus, steps: seq<Step>)
    decreases |steps|
  {
    |steps| > 0 ==> Enabled(b, steps[0]) && CanRun(Apply(b, steps[0]), steps[1..])
  }

  function Run(b: Bus, steps: seq<Step>): Bus
    requires CanRun(b, steps)
    decreases |steps|
  {
    if |steps| == 0 then b else Run(Apply(b, steps[0]), steps[1..])
  }

  // ---- the invariant: no message is lost ----

  /** Acknowledged means handled or dead-lettered. */
  predicate NothingLost(b: Bus) {
    forall m :: m in b.delivered && m !in b.pending ==> m in b.handled || InDlq(b.dlq, m)
  }

  predicate DispatchOk(b: Bus, d: nat)
    requires d < |b.dispatches|
  {
    var dp := b.dispatches[d];
    && dp.message in b.delivered
    && (dp.phase == Running <==> dp.outcome.None?)
    && (dp.outcome == Some(Success) ==> dp.message in b.handled)
    && (dp.phase == Handled ==> dp.outcome == Some(Success))
    && (dp.phase.Ending? ==> dp.outcome == Some(dp.phase.outcome))
    && (dp.phase.Checking? ==> dp.outcome == Some(dp.phase.outcome) && Failed(dp.phase.outcome))
    && (dp.phase.Scanned? ==> dp.outcome.Some? && Failed(dp.outcome.value))
    && (dp.phase == AckDeadLetter ==> InDlq(b.dlq, dp.message))
  }

  /** At most one row per (group, message). */
  predicate DlqDistinct(dlq: seq<DlqRow>) {
    forall i, j :: 0 <= i < j < |dlq| ==> dlq[i].message != dlq[j].message
  }

  predicate SafetyInv(b: Bus) {
    && b.pending <= b.delivered
    && NothingLost(b)
    && (forall d :: 0 <= d < |b.dispatches| ==> DispatchOk(b, d))
    && DlqDistinct(b.dlq)
  }

  lemma {:induction false} InDlqAppend(dlq: seq<DlqRow>, row: DlqRow, m: MessageId)
    ensures InDlq(dlq + [row], m) <==> InDlq(dlq, m) || row.message == m
  {
    if InDlq(dlq, m) {
      var i :| 0 <= i < |dlq| && dlq[i].message == m;
      assert (dlq + [row])[i].message == m;
    }
    assert (dlq + [row])[|dlq|] == row;
  }

  lemma {:induction false} InsertKeepsSafety(b: Bus, d: nat, fault: TxFault)
    requires SafetyInv(b) && Enabled(b, InsertDeadLetter(d, fault))
    ensures SafetyInv(Apply(b, InsertDeadLetter(d, fault)))
  {
    var dp := b.dispatches[d];
    var b' := Apply(b, InsertDeadLetter(d, fault));
    assert DispatchOk(b, d);
    if |b'.dlq| > |b.dlq| {
      forall m ensures InDlq(b'.dlq, m) <==> InDlq(b.dlq, m) || dp.message == m {
        InDlqAppend(b.dlq, b'.dlq[|b.dlq|], m);
      }
    }
    forall e | 0 <= e < |b'.dispatches| ensures DispatchOk(b', e) { assert DispatchOk(b, e); }
  }

  lemma {:induction false} StepKeepsSafety(b: Bus, step: Step)
    requires SafetyInv(b) && Enabled(b, step)
    ensures SafetyInv(Apply(b, step))
  {
    var b' := Apply(b, step);
    match step {
      case InsertDeadLetter(d, fault) => InsertKeepsSafety(b, d, fault);
      case ResolveDeadLetter(i, status) =>
        forall m ensures InDlq(b'.dlq, m) <==> InDlq(b.dlq, m) { InDlqResolved(b.dlq, i, status, m); }
        forall e | 0 <= e < |b'.dispatches| ensures DispatchOk(b', e) { assert DispatchOk(b, e); }
      case AckHandled(d, acked) =>
        assert DispatchOk(b, d);
        forall e | 0 <= e < |b'.dispatches| ensures DispatchOk(b', e) { assert DispatchOk(b, e); }
      case AckDead(d, acked) =>
        assert DispatchOk(b, d);
        forall e | 0 <= e < |b'.dispatches| ensures DispatchOk(b', e) { assert DispatchOk(b, e); }
      case _ =>
        forall e | 0 <= e < |b'.dispatches| ensures DispatchOk(b', e) {
          if e < |b.dispatches| { assert DispatchOk(b, e); }
        }
    }
  }

  lemma {:induction false} RunKeepsSafety(b: Bus, steps: seq<Step>)
    requires SafetyInv(b) && CanRun(b, steps)
    ensures SafetyInv(Run(b, steps))
    decreases |steps|
  {
    if |steps| > 0 {
      StepKeepsSafety(b, steps[0]);
      RunKeepsSafety(Apply(b, steps[0]), steps[1..]);
    }
  }

  /**
   No loss.  In every interleaving, a delivered message that is no longer pending
   was handled successfully or has a committed dead letter, and no message has two
   dead letters.
   */
  lemma {:induction false} NoMessageLost(b: Bus, steps: seq<Step>, m: MessageId)
    requires Init(b) && CanRun(b, steps)
    ensures var e := Run(b, steps);
      && (m in e.delivered ==> m in e.pending || m in e.handled || InDlq(e.dlq, m))
      && DlqDistinct(e.dlq)
  {
    RunKeepsSafety(b, steps);
  }

  // ---- what leaves the pending list ----

  /** The step acknowledges a delivery of the message. */
  predicate Acknowledges(b: Bus, step: Step, m: MessageId)
    requires Enabled(b, step)
  {
    (step.AckHandled? || step.AckDead?) && step.acked && b.dispatches[step.d].message == m
  }

  /** The step is a handler's success with the message. */
  predicate Succeeds(b: Bus, step: Step, m: MessageId)
    requires Enabled(b, step)
  {
    step.HandlerReturns? && step.outcome == Success && b.dispatches[step.d].message == m
  }

  /** The step is not about one delivery. */
  predicate AboutNone(step: Step) {
    step.ReadNew? || step.Redeliver? || step.FlushAttempt? || step.ResolveDeadLetter? || step.PurgeAttempts?
  }

  /**
   What each step does to the message sets: a first read makes a message delivered and
   pending, an acknowledgement that arrives takes it off the pending list, a successful
   handler makes it handled, and nothing else changes any of the three.
   */
  lemma {:induction false} StepMovesMessage(b: Bus, step: Step, m: MessageId)
    requires Enabled(b, step)
    ensures var b' := Apply(b, step);
      && (m in b'.delivered <==> m in b.delivered || step == ReadNew(m))
      && (m in b'.pending <==> (m in b.pending || step == ReadNew(m)) && !Acknowledges(b, step, m))
      && (m in b'.handled <==> m in b.handled || Succeeds(b, step, m))
  { }

  /** Some step of the run acknowledges a delivery of the message. */
  predicate AcknowledgedIn(b: Bus, steps: seq<Step>, m: MessageId)
    requires CanRun(b, steps)
    decreases |steps|
  {
    |steps| > 0 && (Acknowledges(b, steps[0], m) || AcknowledgedIn(Apply(b, steps[0]), steps[1..], m))
  }

  lemma {:induction false} PendingAfter(b: Bus, steps: seq<Step>, m: MessageId)
    requires SafetyInv(b) && CanRun(b, steps)
    ensures m in Run(b, steps).pending <==>
      && m in Run(b, steps).delivered && (m in b.delivered ==> m in b.pending)
      && !AcknowledgedIn(b, steps, m)
    decreases |steps|
  {
    if |steps| > 0 {
      var b' := Apply(b, steps[0]);
      StepMovesMessage(b, steps[0], m);
      StepKeepsSafety(b, steps[0]);
      if Acknowledges(b, steps[0], m) { assert DispatchOk(b, steps[0].d); }
      PendingAfter(b', steps[1..], m);
      DeliveredStays(b', steps[1..], m);
    }
  }

  lemma {:induction false} DeliveredStays(b: Bus, steps: seq<Step>, m: MessageId)
    requires CanRun(b, steps)
    ensures m in b.delivered ==> m in Run(b, steps).delivered
    decreases |steps|
  {
    if |steps| > 0 { DeliveredStays(Apply(b, steps[0]), steps[1..], m); }
  }

  /** In every run a delivered message is pending exactly until a delivery of it is acknowledged. */
  lemma {:induction false} PendingIff(b: Bus, steps: seq<Step>, m: MessageId)
    requires Init(b) && CanRun(b, steps)
    ensures m in Run(b, steps).pending <==> m in Run(b, steps).delivered && !AcknowledgedIn(b, steps, m)
  {
    PendingAfter(b, steps, m);
  }

  /** Where a step takes the delivery it is about; no other delivery moves. */
  lemma {:induction false} StepMovesDelivery(b: Bus, step: Step, d: nat)
    requires Enabled(b, step) && d < |b.dispatches|
    ensures var b' := Apply(b, step); var dp, dp' := b.dispatches[d], b'.dispatches[d];
      && dp'.message == dp.message
      && (step == HandlerReturns(d, Success) ==> dp'.phase == Handled && dp'.outcome == Some(Success))
      && (step == HandlerReturns(d, Error) ==> dp'.phase == Ending(Error) && dp'.outcome == Some(Error))
      && (step == HandlerReturns(d, Panic) ==> dp'.phase == Ending(Panic) && dp'.outcome == Some(Panic))
      && (step.AckHandled? && step.d == d ==> dp'.phase == Ending(Success))
      && (step.QueueAttempt? && step.d == d ==>
            dp'.phase == if dp.phase.outcome == Success then Finished else Checking(dp.phase.outcome))
      && (step == ScanLog(d) && Failed(dp.phase.outcome) ==>
            (dp'.phase.Scanned? <==> Failures(FirstTen(Logged(b.log, dp.message))) >= 2)
            && (!dp'.phase.Scanned? ==> dp'.phase == Finished))
      && (step == InsertDeadLetter(d, NoFault) ==> dp'.phase == AckDeadLetter && InDlq(b'.dlq, dp.message))
      && (step == InsertDeadLetter(d, RolledBack) ==> b'.dlq == b.dlq)
      && (step.AckDead? && step.d == d ==> dp'.phase == Finished)
      && (AboutNone(step) || step.d != d ==> dp' == dp)
  {
    if step == ScanLog(d) && Failed(b.dispatches[d].phase.outcome) {
      ThresholdReachedIff(b.log, b.dispatches[d].message, b.dispatches[d].phase.outcome);
    }
    if step == InsertDeadLetter(d, NoFault) && !InDlq(b.dlq, b.dispatches[d].message) {
      assert Apply(b, step).dlq[|b.dlq|].message == b.dispatches[d].message;
    }
  }

  /** A queued row says what the delivery did; a written one moves to the end of the log; rows get nowhere else. */
  lemma {:induction false} StepMovesRows(b: Bus, step: Step)
    requires Enabled(b, step)
    ensures var b' := Apply(b, step);
      && (step.QueueAttempt? && step.queued ==>
            var dp := b.dispatches[step.d];
            b'.queue == b.queue + [AttemptRow(step.d, dp.message, dp.phase.outcome)])
      && (step.QueueAttempt? && !step.queued ==> b'.queue == b.queue)
      && (step.FlushAttempt? ==> b'.queue == b.queue[..step.i] + b.queue[step.i + 1..])
      && (step.FlushAttempt? && step.written ==> b'.log == b.log + [b.queue[step.i]])
      && (!step.QueueAttempt? && !step.FlushAttempt? ==> b'.queue == b.queue)
      && (!step.PurgeAttempts? && !(step.FlushAttempt? && step.written) ==> b'.log == b.log)
      && (!step.InsertDeadLetter? && !step.ResolveDeadLetter? ==> b'.dlq == b.dlq)
      && (step.ResolveDeadLetter? ==>
            && |b'.dlq| == |b.dlq| && b'.dlq[step.i] == b.dlq[step.i].(status := step.status)
            && forall j :: 0 <= j < |b.dlq| && j != step.i ==> b'.dlq[j] == b.dlq[j])
  { }

  // ---- the machine's check is the repository's ----

  /** The bus after a delivery has been checked: the scan and, when the threshold is reached, the insert. */
  function Checked(b: Bus, d: nat, fault: TxFault): Bus
    requires Enabled(b, ScanLog(d))
  {
    var scanned := Apply(b, ScanLog(d));
    if scanned.dispatches[d].phase.Scanned? then Apply(scanned, InsertDeadLetter(d, fault)) else scanned
  }

  /** What a check does: nothing below the threshold, otherwise one row unless it is there or the insert fails. */
  lemma {:induction false} CheckedIs(b: Bus, d: nat, fault: TxFault)
    requires Enabled(b, ScanLog(d)) && Failed(b.dispatches[d].phase.outcome)
    ensures var dp := b.dispatches[d]; var history := History(b.log, dp.message, dp.phase.outcome);
      var after := Checked(b, d, fault);
      if Failures(history) < 3 then after.dlq == b.dlq && after.dispatches[d].phase == Finished
      else if InDlq(b.dlq, dp.message) then after.dlq == b.dlq && after.dispatches[d].phase == AckDeadLetter
      else if fault == RolledBack then after.dlq == b.dlq && after.dispatches[d].phase == Finished
      else
        && after.dlq == b.dlq + [DlqRow(dp.message, Failures(history), history, Open, d, RowOf(b.log, d))]
        && after.dispatches[d].phase == if fault == CommitAckLost then Finished else AckDeadLetter
  { }

  /** One threshold check through the repository leaves the table, and its answer leads, where the machine goes. */
  method CheckDelivery(repo: DlqRepository, d: nat, m: MessageId, current: Outcome, fault: TxFault, ghost b: Bus)
    returns (result: InsertResult)
    requires d < |b.dispatches| && b.dispatches[d].message == m && b.dispatches[d].phase == Checking(current)
    requires Failed(current) && repo.attempts == b.log && repo.dlq == b.dlq
    modifies repo`dlq
    ensures repo.dlq == Checked(b, d, fault).dlq
    ensures result.Inserted? || result.AlreadyExists? <==> Checked(b, d, fault).dispatches[d].phase == AckDeadLetter
    ensures result.BelowThreshold? || result.InsertFailed? <==> Checked(b, d, fault).dispatches[d].phase == Finished
  {
    CheckedIs(b, d, fault);
    result := repo.InsertIfThreshold(m, d, current, fault);
  }

  // ---- every pending message can be settled ----

  lemma {:induction false} RunCons(b: Bus, step: Step, rest: seq<Step>)
    requires Enabled(b, step) && CanRun(Apply(b, step), rest)
    ensures CanRun(b, [step] + rest) && Run(b, [step] + rest) == Run(Apply(b, step), rest)
  {
    assert ([step] + rest)[1..] == rest;
  }

  lemma {:induction false} RunConcat(b: Bus, p: seq<Step>, q: seq<Step>)
    requires CanRun(b, p) && CanRun(Run(b, p), q)
    ensures CanRun(b, p + q) && Run(b, p + q) == Run(Run(b, p), q)
    decreases |p|
  {
    if |p| == 0 {
      assert p + q == q;
    } else {
      assert (p + q)[0] == p[0] && (p + q)[1..] == p[1..] + q;
      RunConcat(Apply(b, p[0]), p[1..], q);
    }
  }

  lemma {:induction false} RunThree(b: Bus, s1: Step, s2: Step, s3: Step)
    requires Enabled(b, s1)
    requires Enabled(Apply(b, s1), s2)
    requires Enabled(Apply(Apply(b, s1), s2), s3)
    ensures CanRun(b, [s1, s2, s3]) && Run(b, [s1, s2, s3]) == Apply(Apply(Apply(b, s1), s2), s3)
  {
    var b1 := Apply(b, s1);
    var b2 := Apply(b1, s2);
    RunCons(b2, s3, []);
    RunCons(b1, s2, [s3]);
    RunCons(b, s1, [s2, s3]);
    assert [s3] + [] == [s3] && [s2] + [s3] == [s2, s3] && [s1] + [s2, s3] == [s1, s2, s3];
  }

  /** One more delivery whose handler succeeds and whose acknowledgement arrives settles the message. */
  lemma {:induction false} SuccessSettles(b: Bus, m: MessageId)
    requires m in b.pending
    ensures var d := |b.dispatches|; var steps := [Redeliver(m), HandlerReturns(d, Success), AckHandled(d, true)];
      && CanRun(b, steps)
      && var e := Run(b, steps); m !in e.pending && m in e.handled && e.dlq == b.dlq
  {
    var d := |b.dispatches|;
    RunThree(b, Redeliver(m), HandlerReturns(d, Success), AckHandled(d, true));
  }

  /** A delivery that fails ends up before its threshold check, and changes nothing else. */
  lemma {:induction false} FailureIsChecked(b: Bus, m: MessageId, o: Outcome)
    requires m in b.pending && o != Success
    ensures var d := |b.dispatches|; var steps := [Redeliver(m), HandlerReturns(d, o), QueueAttempt(d, false)];
      CanRun(b, steps) && Run(b, steps) == b.(dispatches := b.dispatches + [Dispatch(m, Checking(o), Some(o))])
  {
    var d := |b.dispatches|;
    RunThree(b, Redeliver(m), HandlerReturns(d, o), QueueAttempt(d, false));
  }

  /** A check that reaches the threshold, with nothing failing, dead-letters and acknowledges the message. */
  lemma {:induction false} CheckSettles(b: Bus, d: nat)
    requires d < |b.dispatches| && b.dispatches[d].phase.Checking? && Failed(b.dispatches[d].phase.outcome)
    requires Failures(FirstTen(Logged(b.log, b.dispatches[d].message))) >= 2
    ensures var m := b.dispatches[d].message;
      var steps := [ScanLog(d), InsertDeadLetter(d, NoFault), AckDead(d, true)];
      && CanRun(b, steps)
      && var e := Run(b, steps); e.pending == b.pending - {m} && InDlq(e.dlq, m) && e.handled == b.handled
  {
    StepMovesDelivery(b, ScanLog(d), d);
    StepMovesDelivery(Apply(b, ScanLog(d)), InsertDeadLetter(d, NoFault), d);
    RunThree(b, ScanLog(d), InsertDeadLetter(d, NoFault), AckDead(d, true));
  }

  /**
   One more delivery that fails, with two failures among the message's ten oldest rows,
   an insert that goes through and an acknowledgement that arrives, dead-letters it.
   */
  lemma {:induction false} FailureSettles(b: Bus, m: MessageId, o: Outcome)
    requires m in b.pending && o != Success && Failures(FirstTen(Logged(b.log, m))) >= 2
    ensures var d := |b.dispatches|;
      var steps := [Redeliver(m), HandlerReturns(d, o), QueueAttempt(d, false)]
                   + [ScanLog(d), InsertDeadLetter(d, NoFault), AckDead(d, true)];
      && CanRun(b, steps)
      && var e := Run(b, steps); m !in e.pending && InDlq(e.dlq, m) && e.handled == b.handled
  {
    var d := |b.dispatches|;
    var first := [Redeliver(m), HandlerReturns(d, o), QueueAttempt(d, false)];
    FailureIsChecked(b, m, o);
    CheckSettles(Run(b, first), d);
    RunConcat(b, first, [ScanLog(d), InsertDeadLetter(d, NoFault), AckDead(d, true)]);
  }
}
