/**
 Seller decisions on returns (internal/order/returns.go:444-552): approve settles the
 return and queues one refund event in the same transaction, reject closes it.  The
 status is read before the transaction, so a decision may act on a stale reading;
 the outbox key return:refunded:<id> is unique.
 */
module RefundSettlement {
  datatype Status = Pending | Approved | Refunded | Rejected

  /** `pendingReads` are the returns some worker has seen as pending and not yet acted on. */
  datatype Settlement = Settlement(statuses: seq<Status>, outbox: seq<nat>, pendingReads: set<nat>)

  datatype Step = Submit | ReadPending(r: nat) | Approve(r: nat, fails: bool) | Reject(r: nat, fails: bool)

  predicate Enabled(s: Settlement, step: Step) {
    match step
    case Submit => true
    case ReadPending(r) => r < |s.statuses| && s.statuses[r] == Pending
    case Approve(r, _) => r < |s.statuses| && r in s.pendingReads
    case Reject(r, _) => r < |s.statuses| && r in s.pendingReads
  }

  /** The approve transaction: both status changes and the event, or nothing. */
  function ApproveTx(s: Settlement, r: nat): Settlement
    requires r < |s.statuses|
  {
    if r in s.outbox then s
    else s.(statuses := s.statuses[r := Approved][r := Refunded], outbox := s.outbox + [r])
  }

  function RejectTx(s: Settlement, r: nat): Settlement
    requires r < |s.statuses|
  {
    s.(statuses := s.statuses[r := Rejected])
  }

  function Apply(s: Settlement, step: Step): Settlement
    requires Enabled(s, step)
  {
    match step
    case Submit => s.(statuses := s.statuses + [Pending])
    case ReadPending(r) => s.(pendingReads := s.pendingReads + {r})
    case Approve(r, fails) => if fails then s else ApproveTx(s, r)
    case Reject(r, fails) => if fails then s else RejectTx(s, r)
  }

  predicate CanRun(s: Settlement, steps: seq<Step>)
    decreases |steps|
  {
    |steps| > 0 ==> Enabled(s, steps[0]) && CanRun(Apply(s, steps[0]), steps[1..])
  }

  function Run(s: Settlement, steps: seq<Step>): Settlement
    requires CanRun(s, steps)
    decreases |steps|
  {
    if |steps| == 0 then s else Run(Apply(s, steps[0]), steps[1..])
  }

  predicate EventsUnique(outbox: seq<nat>) {
    forall i, j :: 0 <= i < j < |outbox| ==> outbox[i] != outbox[j]
  }

  /** Holds however decisions race. */
  predicate EventInv(s: Settlement) {
    && EventsUnique(s.outbox)
    && (forall i :: 0 <= i < |s.outbox| ==> s.outbox[i] < |s.statuses|)
    && (forall r :: 0 <= r < |s.statuses| && s.statuses[r] == Refunded ==> r in s.outbox)
    && (forall r :: 0 <= r < |s.statuses| ==> s.statuses[r] != Approved)
  }

  /** Refunded exactly when the event exists. */
  predicate Settled(s: Settlement) {
    && EventInv(s)
    && forall r :: r in s.outbox ==> r < |s.statuses| && s.statuses[r] == Refunded
  }

  lemma {:induction false} StepKeepsEvents(s: Settlement, step: Step)
    requires EventInv(s) && Enabled(s, step)
    ensures EventInv(Apply(s, step))
    ensures !step.Reject? && Settled(s) ==> Settled(Apply(s, step))
  {
    var s' := Apply(s, step);
    if step.Approve? && s' != s {
      assert s'.outbox[|s.outbox|] == step.r;
      forall r | 0 <= r < |s'.statuses| && s'.statuses[r] == Refunded ensures r in s'.outbox {
        if r != step.r { assert r in s.outbox; }
      }
    }
  }

  /**
   In any interleaving of approvals and rejections with stale readings, at most one
   refund event per return reaches the outbox, every refunded return has its event,
   and no return is left merely approved.  Without rejections a return is refunded
   exactly when its event exists.
   */
  lemma {:induction false} RefundAtMostOnce(s: Settlement, steps: seq<Step>)
    requires EventInv(s) && CanRun(s, steps)
    ensures EventInv(Run(s, steps))
    ensures Settled(s) && (forall i :: 0 <= i < |steps| ==> !steps[i].Reject?) ==> Settled(Run(s, steps))
    decreases |steps|
  {
    if |steps| > 0 {
      StepKeepsEvents(s, steps[0]);
      RefundAtMostOnce(Apply(s, steps[0]), steps[1..]);
    }
  }

  /** A rejection keeps refunds and events in step exactly when the return is not refunded yet. */
  lemma {:induction false} RejectKeepsSettledIff(s: Settlement, r: nat)
    requires Settled(s) && r < |s.statuses|
    ensures Settled(RejectTx(s, r)) <==> s.statuses[r] != Refunded
  {
    var s' := RejectTx(s, r);
    if s.statuses[r] == Refunded {
      assert r in s'.outbox && s'.statuses[r] == Rejected;
    } else {
      forall q | 0 <= q < |s'.statuses| && s'.statuses[q] == Refunded ensures q in s'.outbox {
        assert s.statuses[q] == Refunded;
      }
      forall q | q in s'.outbox ensures q < |s'.statuses| && s'.statuses[q] == Refunded { assert q in s.outbox; }
    }
  }

  /** Money refunded, return rejected. */
  predicate Contradicted(s: Settlement, r: nat) {
    r in s.outbox && r < |s.statuses| && s.statuses[r] == Rejected
  }

  /** Such a return is never put right. */
  lemma {:induction false} ContradictedForEver(s: Settlement, steps: seq<Step>, r: nat)
    requires CanRun(s, steps) && Contradicted(s, r)
    ensures Contradicted(Run(s, steps), r)
    decreases |steps|
  {
    if |steps| > 0 { ContradictedForEver(Apply(s, steps[0]), steps[1..], r); }
  }

  /** Some rejection of the run lands on a return that is refunded by then. */
  predicate RejectsRefunded(s: Settlement, steps: seq<Step>)
    requires CanRun(s, steps)
    decreases |steps|
  {
    |steps| > 0 && (
      || (steps[0].Reject? && !steps[0].fails && s.statuses[steps[0].r] == Refunded)
      || RejectsRefunded(Apply(s, steps[0]), steps[1..]))
  }

  /** Over every run: refunded exactly when the event exists, unless a rejection lands on a refunded return. */
  lemma {:induction false} SettledIff(s: Settlement, steps: seq<Step>)
    requires Settled(s) && CanRun(s, steps)
    ensures Settled(Run(s, steps)) <==> !RejectsRefunded(s, steps)
    decreases |steps|
  {
    if |steps| > 0 {
      var step, s' := steps[0], Apply(s, steps[0]);
      if step.Reject? && !step.fails { RejectKeepsSettledIff(s, step.r); } else { StepKeepsEvents(s, step); }
      if Settled(s') {
        SettledIff(s', steps[1..]);
      } else {
        assert Contradicted(s', step.r);
        ContradictedForEver(s', steps[1..], step.r);
      }
    }
  }

  /** Two workers read the same pending return; one approves, then the other rejects. */
  lemma {:induction false} StaleRejectAfterApprove()
    ensures var steps := [Submit, ReadPending(0), Approve(0, false), Reject(0, false)];
      var s := Settlement([], [], {});
      CanRun(s, steps) && Contradicted(Run(s, steps), 0)
  {
    var s0 := Settlement([], [], {});
    var steps := [Submit, ReadPending(0), Approve(0, false), Reject(0, false)];
    var s1 := Apply(s0, steps[0]);
    var s2 := Apply(s1, steps[1]);
    var s3 := Apply(s2, steps[2]);
    var s4 := Apply(s3, steps[3]);
    assert steps[3..][1..] == [] && steps[2..][1..] == steps[3..] && steps[1..][1..] == steps[2..];
    assert CanRun(s3, steps[3..]) && Run(s3, steps[3..]) == s4;
    assert CanRun(s2, steps[2..]) && Run(s2, steps[2..]) == s4;
    assert CanRun(s1, steps[1..]) && Run(s1, steps[1..]) == s4;
  }

  // ---- when decisions are final ----

  /** Returns that were decided keep their status. */
  predicate KeepsDecided(s: Settlement, s': Settlement) {
    forall r :: 0 <= r < |s.statuses| && s.statuses[r] != Pending ==>
      r < |s'.statuses| && s'.statuses[r] == s.statuses[r]
  }

  /** No step of the run changes a decision. */
  predicate FinalThroughout(s: Settlement, steps: seq<Step>)
    requires CanRun(s, steps)
    decreases |steps|
  {
    |steps| > 0 ==> KeepsDecided(s, Apply(s, steps[0])) && FinalThroughout(Apply(s, steps[0]), steps[1..])
  }

  /** The decision fails, hits a pending return, or repeats what the return already is. */
  predicate InOrder(s: Settlement, step: Step)
    requires Enabled(s, step)
  {
    && (step.Approve? && !step.fails ==> s.statuses[step.r] == Pending || step.r in s.outbox)
    && (step.Reject? && !step.fails ==> s.statuses[step.r] != Refunded)
  }

  predicate Orderly(s: Settlement, steps: seq<Step>)
    requires CanRun(s, steps)
    decreases |steps|
  {
    |steps| > 0 ==> InOrder(s, steps[0]) && Orderly(Apply(s, steps[0]), steps[1..])
  }

  lemma {:induction false} StepFinalIff(s: Settlement, step: Step)
    requires EventInv(s) && Enabled(s, step)
    ensures KeepsDecided(s, Apply(s, step)) <==> InOrder(s, step)
  {
    var s' := Apply(s, step);
    if !InOrder(s, step) {
      assert s'.statuses[step.r] != s.statuses[step.r] && s.statuses[step.r] != Pending;
    }
  }

  /**
   Over every run, however stale the readings: no decision is ever changed exactly when
   every landing approval hits a pending return or one whose event exists, and no landing
   rejection hits a refunded one.
   */
  lemma {:induction false} DecisionsFinalIff(s: Settlement, steps: seq<Step>)
    requires EventInv(s) && CanRun(s, steps)
    ensures FinalThroughout(s, steps) <==> Orderly(s, steps)
    decreases |steps|
  {
    if |steps| > 0 {
      StepKeepsEvents(s, steps[0]);
      StepFinalIff(s, steps[0]);
      DecisionsFinalIff(Apply(s, steps[0]), steps[1..]);
    }
  }

  /** In an orderly run refunded and rejected are final, and a rejected return never has an event. */
  lemma {:induction false} DecisionsAreFinal(s: Settlement, steps: seq<Step>, r: nat)
    requires Settled(s) && CanRun(s, steps) && Orderly(s, steps) && r < |s.statuses|
    ensures var e := Run(s, steps);
      && Settled(e) && r < |e.statuses|
      && (s.statuses[r] != Pending ==> e.statuses[r] == s.statuses[r])
      && (e.statuses[r] == Rejected ==> r !in e.outbox)
    decreases |steps|
  {
    if |steps| > 0 {
      if steps[0].Reject? && !steps[0].fails { RejectKeepsSettledIff(s, steps[0].r); }
      else { StepKeepsEvents(s, steps[0]); }
      StepFinalIff(s, steps[0]);
      DecisionsAreFinal(Apply(s, steps[0]), steps[1..], r);
    }
  }

  /** The other race: one worker rejects, then a stale approval pays the rejected return out. */
  lemma {:induction false} StaleApproveAfterReject()
    ensures var steps := [Submit, ReadPending(0), Reject(0, false), Approve(0, false)];
      var s := Settlement([], [], {});
      && CanRun(s, steps) && !FinalThroughout(s, steps)
      && Run(s, steps).statuses == [Refunded] && Run(s, steps).outbox == [0]
  {
    var s0 := Settlement([], [], {});
    var steps := [Submit, ReadPending(0), Reject(0, false), Approve(0, false)];
    var s1 := Apply(s0, steps[0]);
    var s2 := Apply(s1, steps[1]);
    var s3 := Apply(s2, steps[2]);
    var s4 := Apply(s3, steps[3]);
    assert steps[3..][1..] == [] && steps[2..][1..] == steps[3..] && steps[1..][1..] == steps[2..];
    assert CanRun(s3, steps[3..]) && Run(s3, steps[3..]) == s4;
    assert CanRun(s2, steps[2..]) && Run(s2, steps[2..]) == s4;
    assert CanRun(s1, steps[1..]) && Run(s1, steps[1..]) == s4;
    assert s3.statuses[0] == Rejected && s4.statuses[0] == Refunded;
    assert !FinalThroughout(s3, steps[3..]);
    assert !FinalThroughout(s2, steps[2..]);
    assert !FinalThroughout(s1, steps[1..]);
  }
}
