/**
 The attempt log and the dead-letter table of one consumer group on one topic
 (internal/eventbus/attempts.go, internal/eventbus/dlq.go).
 */
module DeadLetters {
  import opened Options
  import opened Faults

  type MessageId = nat

  datatype Outcome = Success | Error | Panic

  predicate Failed(o: Outcome): (r: bool)
    ensures r <==> o != Success
  {
    o == Error || o == Panic
  }

  /** `dispatch` identifies the delivery that wrote the row; rows are in insertion order. */
  datatype AttemptRow = AttemptRow(dispatch: nat, message: MessageId, outcome: Outcome)

  datatype DlqStatus = Open | Replayed | Dismissed

  /** `dispatch` inserted the row; `alreadyLogged` tells whether its own attempt row was in the log it read. */
  datatype DlqRow = DlqRow(message: MessageId, attemptCount: nat, history: seq<Outcome>, status: DlqStatus,
                           dispatch: nat, alreadyLogged: bool)

  datatype InsertResult = BelowThreshold | AlreadyExists(id: nat) | Inserted(id: nat) | InsertFailed

  const DLQ_THRESHOLD := 3
  const HISTORY_LIMIT := 10

  // ---- what the queries mean ----

  /** The outcomes logged for a message, oldest first. */
  function Logged(log: seq<AttemptRow>, m: MessageId): seq<Outcome> {
    if |log| == 0 then []
    else
      var last := log[|log| - 1];
      Logged(log[..|log| - 1], m) + (if last.message == m then [last.outcome] else [])
  }

  function FirstTen(s: seq<Outcome>): seq<Outcome> {
    if |s| <= HISTORY_LIMIT then s else s[..HISTORY_LIMIT]
  }

  function Failures(s: seq<Outcome>): nat {
    if |s| == 0 then 0 else Failures(s[..|s| - 1]) + (if Failed(s[|s| - 1]) then 1 else 0)
  }

  /** The history a failing delivery puts together: the ten oldest rows and itself. */
  function History(log: seq<AttemptRow>, m: MessageId, current: Outcome): seq<Outcome> {
    FirstTen(Logged(log, m)) + [current]
  }

  predicate InDlq(dlq: seq<DlqRow>, m: MessageId) {
    exists i :: 0 <= i < |dlq| && dlq[i].message == m
  }

  /** The row with the message, if any. */
  function DlqIndex(dlq: seq<DlqRow>, m: MessageId): (r: Option<nat>)
    ensures r.Some? <==> InDlq(dlq, m)
    ensures r.Some? ==> r.value < |dlq| && dlq[r.value].message == m
  {
    if |dlq| == 0 then None
    else if dlq[|dlq| - 1].message == m then Some(|dlq| - 1)
    else
      assert InDlq(dlq, m) ==> InDlq(dlq[..|dlq| - 1], m);
      DlqIndex(dlq[..|dlq| - 1], m)
  }

  // ---- counting ----

  lemma {:induction false} FailuresAppend(s: seq<Outcome>, o: Outcome)
    ensures Failures(s + [o]) == Failures(s) + (if Failed(o) then 1 else 0)
  { }

  lemma {:induction false} FailuresBounded(s: seq<Outcome>)
    ensures Failures(s) <= |s|
  {
    if |s| > 0 { FailuresBounded(s[..|s| - 1]); }
  }

  lemma {:induction false} FailuresOfPrefix(s: seq<Outcome>, k: nat)
    requires k <= |s|
    ensures Failures(s[..k]) <= Failures(s)
  {
    if k < |s| {
      FailuresOfPrefix(s[..|s| - 1], k);
      assert s[..|s| - 1][..k] == s[..k];
    } else {
      assert s[..k] == s;
    }
  }

  /** Two failures within the ten oldest rows is exactly what the third delivery needs. */
  lemma {:induction false} ThresholdReachedIff(log: seq<AttemptRow>, m: MessageId, current: Outcome)
    requires Failed(current)
    ensures Failures(History(log, m, current)) == Failures(FirstTen(Logged(log, m))) + 1
    ensures Failures(History(log, m, current)) >= DLQ_THRESHOLD <==> Failures(FirstTen(Logged(log, m))) >= 2
    ensures Failures(History(log, m, current)) <= HISTORY_LIMIT + 1
  {
    FailuresAppend(FirstTen(Logged(log, m)), current);
    FailuresBounded(FirstTen(Logged(log, m)));
  }

  lemma {:induction false} AllFailures(s: seq<Outcome>)
    requires forall i :: 0 <= i < |s| ==> Failed(s[i])
    ensures Failures(s) == |s|
  {
    if |s| > 0 { AllFailures(s[..|s| - 1]); }
  }

  /** Without success rows in the log, two logged failures are enough. */
  lemma {:induction false} NoSuccessRowsReachThreshold(log: seq<AttemptRow>, m: MessageId, current: Outcome)
    requires Failed(current)
    requires forall i :: 0 <= i < |Logged(log, m)| ==> Failed(Logged(log, m)[i])
    ensures Failures(History(log, m, current)) >= DLQ_THRESHOLD <==> |Logged(log, m)| >= 2
  {
    ThresholdReachedIff(log, m, current);
    AllFailures(FirstTen(Logged(log, m)));
  }

  lemma {:induction false} LoggedPrefix(log: seq<AttemptRow>, more: seq<AttemptRow>, m: MessageId)
    ensures Logged(log, m) <= Logged(log + more, m)
  {
    if |more| == 0 {
      assert log + more == log;
    } else {
      assert (log + more)[..|log + more| - 1] == log + more[..|more| - 1];
      LoggedPrefix(log, more[..|more| - 1], m);
    }
  }

  /**
   The ten-row window does not move once full: when nine of the ten oldest rows are
   successes (handler fine, acknowledgement lost), no later failure of the message is
   dead-lettered while those rows stay in the log, however many failures there are.
   */
  lemma {:induction false} StarvedWhileWindowStands(log: seq<AttemptRow>, more: seq<AttemptRow>, m: MessageId,
                                                    current: Outcome)
    requires Failed(current)
    requires |Logged(log, m)| >= HISTORY_LIMIT && Failures(FirstTen(Logged(log, m))) <= 1
    ensures Failures(History(log + more, m, current)) < DLQ_THRESHOLD
  {
    LoggedPrefix(log, more, m);
    assert FirstTen(Logged(log + more, m)) == FirstTen(Logged(log, m));
    ThresholdReachedIff(log + more, m, current);
  }

  lemma {:induction false} InDlqResolved(dlq: seq<DlqRow>, i: nat, status: DlqStatus, m: MessageId)
    requires i < |dlq|
    ensures InDlq(dlq[i := dlq[i].(status := status)], m) <==> InDlq(dlq, m)
  {
    var dlq' := dlq[i := dlq[i].(status := status)];
    if InDlq(dlq, m) {
      var j :| 0 <= j < |dlq| && dlq[j].message == m;
      assert dlq'[j].message == m;
    }
    if InDlq(dlq', m) {
      var j :| 0 <= j < |dlq'| && dlq'[j].message == m;
      assert dlq[j].message == m;
    }
  }

  // ---- the repository ----

  class DlqRepository {
    var attempts: seq<AttemptRow>
    var dlq: seq<DlqRow>

    constructor ()
      ensures attempts == [] && dlq == []
    {
      attempts, dlq := [], [];
    }

    /** The message's outcomes gain this one at the end; other messages' outcomes are untouched. */
    method InsertAttempt(row: AttemptRow)
      modifies this`attempts
      ensures attempts == old(attempts) + [row]
      ensures forall m :: Logged(attempts, m)
                       == Logged(old(attempts), m) + (if m == row.message then [row.outcome] else [])
    {
      attempts := attempts + [row];
      assert attempts[..|old(attempts)|] == old(attempts);
    }

    /** The scan: failures and history over the ten oldest rows of the message. */
    method ScanAttempts(m: MessageId) returns (failureCount: nat, history: seq<Outcome>)
      ensures history == FirstTen(Logged(attempts, m))
      ensures failureCount == Failures(history)
    {
      failureCount, history := 0, [];
      var i := 0;
      while i < |attempts| && |history| < HISTORY_LIMIT
        invariant i <= |attempts| && |history| <= HISTORY_LIMIT
        invariant history == Logged(attempts[..i], m) && failureCount == Failures(history)
      {
        assert attempts[..i + 1][..i] == attempts[..i];
        if attempts[i].message == m {
          FailuresAppend(history, attempts[i].outcome);
          history := history + [attempts[i].outcome];
          if Failed(attempts[i].outcome) { failureCount := failureCount + 1; }
        }
        i := i + 1;
      }
      if i == |attempts| { assert attempts[..i] == attempts; }
      LoggedPrefix(attempts[..i], attempts[i..], m);
      assert attempts[..i] + attempts[i..] == attempts;
    }

    /**
     Inserts a dead letter when the failures in the history reach the threshold.
     The result is truthful: Inserted and AlreadyExists mean a committed row for the
     message, BelowThreshold that there were too few failures, and nothing but an
     insert changes the table.
     */
    method InsertIfThreshold(m: MessageId, dispatch: nat, current: Outcome, fault: TxFault)
      returns (result: InsertResult)
      modifies this`dlq
      ensures result.BelowThreshold? <==> Failures(History(attempts, m, current)) < DLQ_THRESHOLD
      ensures result.AlreadyExists? ==> InDlq(old(dlq), m)
      ensures result.Inserted? ==> !InDlq(old(dlq), m) && InDlq(dlq, m) && result.id == |old(dlq)|
      ensures result.InsertFailed? <==> !result.BelowThreshold? && !InDlq(old(dlq), m) && fault != NoFault
      ensures dlq == old(dlq) || (
        && !InDlq(old(dlq), m)
        && |dlq| == |old(dlq)| + 1 && dlq[..|old(dlq)|] == old(dlq)
        && var row := dlq[|old(dlq)|];
        && row.message == m && row.status == Open && row.dispatch == dispatch
        && row.history == History(attempts, m, current)
        && row.attemptCount == Failures(row.history)
        && (row.alreadyLogged <==> exists i :: 0 <= i < |attempts| && attempts[i].dispatch == dispatch)
        && 3 <= row.attemptCount <= 11)
      ensures dlq != old(dlq) <==> result.Inserted? || (result.InsertFailed? && fault == CommitAckLost)
      ensures dlq != old(dlq) ==>
        var history := History(attempts, m, current);
        var logged := exists i :: 0 <= i < |attempts| && attempts[i].dispatch == dispatch;
        dlq == old(dlq) + [DlqRow(m, Failures(history), history, Open, dispatch, logged)]
    {
      var failureCount, history := ScanAttempts(m);
      FailuresAppend(history, current);
      FailuresBounded(history);
      history := history + [current];
      if Failed(current) { failureCount := failureCount + 1; }
      if failureCount < DLQ_THRESHOLD { return BelowThreshold; }
      var existing := DlqIndex(dlq, m);
      if existing.Some? { return AlreadyExists(existing.value); }
      if fault == RolledBack { return InsertFailed; }
      var alreadyLogged := exists i :: 0 <= i < |attempts| && attempts[i].dispatch == dispatch;
      dlq := dlq + [DlqRow(m, failureCount, history, Open, dispatch, alreadyLogged)];
      assert dlq[|old(dlq)|].message == m;
      return if fault == CommitAckLost then InsertFailed else Inserted(|dlq| - 1);
    }

    /** Operators move open rows to a final status once; anything else is refused. */
    method Resolve(id: nat, status: DlqStatus) returns (ok: bool)
      requires status != Open
      modifies this`dlq
      ensures ok <==> id < |old(dlq)| && old(dlq)[id].status == Open
      ensures ok ==> id < |dlq| && dlq[id].status == status
      ensures |dlq| == |old(dlq)|
      ensures forall i :: 0 <= i < |dlq| ==>
        && dlq[i] == old(dlq)[i].(status := dlq[i].status)
        && (old(dlq)[i].status != Open || i != id ==> dlq[i] == old(dlq)[i])
      ensures forall m :: InDlq(dlq, m) <==> InDlq(old(dlq), m)
    {
      ghost var before := dlq;
      ok := id < |dlq| && dlq[id].status == Open;
      if ok {
        dlq := dlq[id := dlq[id].(status := status)];
        forall m ensures InDlq(dlq, m) <==> InDlq(before, m) { InDlqResolved(before, id, status, m); }
      }
    }
  }
}
