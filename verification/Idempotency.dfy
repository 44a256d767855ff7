/**
 The idempotency middleware and its key store (internal/idempotency/middleware.go,
 internal/idempotency/store.go), for the requests that share one key.  Entries do not
 expire while requests are running.
 */
module Idempotency {
  datatype Response = Response(status: int, contentType: string, body: seq<int>)

  datatype Slot = Absent | InFlight | Cached(resp: Response)

  // ---- the store ----

  class KeyStore {
    var slot: Slot

    constructor ()
      ensures slot == Absent
    {
      slot := Absent;
    }

    /** SETNX: takes the key only when nobody has it. */
    method Acquire() returns (acquired: bool)
      modifies this
      ensures acquired <==> old(slot) == Absent
      ensures slot == if acquired then InFlight else old(slot)
    {
      acquired := slot == Absent;
      if acquired { slot := InFlight; }
    }

    method Save(resp: Response)
      modifies this
      ensures slot == Cached(resp)
    {
      slot := Cached(resp);
    }

    method Release()
      modifies this
      ensures slot == Absent
    {
      slot := Absent;
    }
  }

  // ---- polling ----

  const POLL_MAX_DURATION := 3000
  const POLL_INITIAL_WAIT := 50
  const POLL_MAX_INTERVAL := 1000

  /** What one load finds; a marker and an absent key look the same to the poller. */
  datatype Look = Entry(slot: Slot) | LoadFailed

  datatype PollResult = Found(resp: Response) | TimedOut | StoreError | Cancelled

  predicate Inconclusive(look: Look) {
    look.Entry? && !look.slot.Cached?
  }

  /** The wait before load i. */
  function Backoff(i: nat): nat {
    if i == 0 then 50 else if i == 1 then 100 else if i == 2 then 200
    else if i == 3 then 400 else if i == 4 then 800 else 1000
  }

  /** The waits double up to the maximum. */
  lemma {:induction false} Doubles(i: nat)
    ensures Backoff(i + 1) == if Backoff(i) * 2 < 1000 then Backoff(i) * 2 else 1000
  { }

  /** Time between the start of Poll and its k-th deadline check; `latency(i)` is what round i costs beyond its wait. */
  function Elapsed(latency: nat -> nat, k: nat): nat {
    if k == 0 then 0 else Elapsed(latency, k - 1) + Backoff(k - 1) + latency(k - 1)
  }

  /** The waits alone put the seventh deadline check past the deadline. */
  lemma {:induction false} SeventhCheckIsLate(latency: nat -> nat)
    ensures Elapsed(latency, 7) > POLL_MAX_DURATION
  { }

  /** A deadline check that is not late is at most the sixth. */
  lemma {:induction false} NotLateMeansEarly(latency: nat -> nat, k: nat)
    requires k <= 7 && Elapsed(latency, k) <= POLL_MAX_DURATION
    ensures k <= 6
  {
    SeventhCheckIsLate(latency);
  }

  /**
   Poll against a store that others change: `looks(i)` is what its i-th load finds.
   It returns after at most seven loads, with the first conclusive one if the deadline
   or a cancellation does not come first.
   */
  method Poll(looks: nat -> Look, latency: nat -> nat, cancelled: nat -> bool) returns (r: PollResult, loads: nat)
    ensures loads <= 7
    ensures forall i :: 0 <= i < loads - 1 ==> Inconclusive(looks(i))
    ensures loads > 0 ==> Elapsed(latency, loads - 1) <= 3000
    ensures r.Found? ==> loads > 0 && looks(loads - 1) == Entry(Cached(r.resp))
    ensures r.StoreError? ==> loads > 0 && looks(loads - 1) == LoadFailed
    ensures r.TimedOut? ==> loads > 0 && Inconclusive(looks(loads - 1)) && Elapsed(latency, loads) > 3000
    ensures r.Cancelled? ==> cancelled(loads) && (loads > 0 ==> Inconclusive(looks(loads - 1)))
    ensures (forall i :: looks(i) == Entry(Absent)) ==> r.TimedOut? || r.Cancelled?
  {
    var wait := POLL_INITIAL_WAIT;
    var now := 0;
    loads := 0;
    while true
      invariant loads <= 6
      invariant wait == Backoff(loads) && now == Elapsed(latency, loads) <= POLL_MAX_DURATION
      invariant forall i :: 0 <= i < loads ==> Inconclusive(looks(i))
      decreases 7 - loads
    {
      if cancelled(loads) { return Cancelled, loads; }
      var look := looks(loads);
      now := now + wait + latency(loads);
      loads := loads + 1;
      if look.LoadFailed? { return StoreError, loads; }
      if look.slot.Cached? { return Found(look.slot.resp), loads; }
      if now > POLL_MAX_DURATION { return TimedOut, loads; }
      NotLateMeansEarly(latency, loads);
      Doubles(loads - 1);
      wait := if wait * 2 < POLL_MAX_INTERVAL then wait * 2 else POLL_MAX_INTERVAL;
    }
  }

  // ---- concurrent requests ----

  /**
   Where a request stands.  Running, Panicked and Returned hold the key; a Bypassing
   request runs its handler without it, because Acquire reported an error, and is
   Bypassed when the handler is done.
   */
  datatype Phase =
    | Arrived
    | Running | Panicked | Returned(resp: Response)
    | Polling | Bypassing | Bypassed
    | Answered(resp: Response) | Replayed(resp: Response) | Crashed | Refused

  predicate HoldsKey(p: Phase) { p.Running? || p.Panicked? || p.Returned? }

  /** The handler is at work for the request. */
  predicate Executing(p: Phase) { p.Running? || p.Bypassing? }

  /** The counters record what happened; the program does not keep them. */
  datatype Shared = Shared(slot: Slot, requests: seq<Phase>, starts: nat, panics: nat, completed: seq<Response>,
                           released: nat, orphaned: nat, bypasses: nat)

  /** `lost` marks a store call whose effect does not arrive; `applied` a failed SETNX that did arrive. */
  datatype Step =
    | Arrive
    | Acquire(q: nat)
    | AcquireError(q: nat, applied: bool)
    | BypassEnds(q: nat)
    | Panic(q: nat)
    | Release(q: nat, lost: bool)
    | Return(q: nat, resp: Response)
    | Save(q: nat, lost: bool)
    | Load(q: nat)
    | GiveUp(q: nat)

  predicate Enabled(s: Shared, step: Step) {
    if step.Arrive? then true
    else
      && step.q < |s.requests|
      && var p := s.requests[step.q];
      match step
      case Acquire(_) => p.Arrived?
      case AcquireError(_, _) => p.Arrived?
      case BypassEnds(_) => p.Bypassing?
      case Panic(_) => p.Running?
      case Release(_, _) => p.Panicked?
      case Return(_, _) => p.Running?
      case Save(_, _) => p.Returned?
      case Load(_) => p.Polling?
      case GiveUp(_) => p.Polling?
  }

  function At(s: Shared, q: nat, p: Phase): Shared
    requires q < |s.requests|
  {
    s.(requests := s.requests[q := p])
  }

  function Apply(s: Shared, step: Step): Shared
    requires Enabled(s, step)
  {
    match step
    case Arrive => s.(requests := s.requests + [Arrived])
    case Acquire(q) =>
      if s.slot == Absent then At(s, q, Running).(slot := InFlight, starts := s.starts + 1) else At(s, q, Polling)
    case AcquireError(q, applied) =>
      var s' := At(s, q, Bypassing).(bypasses := s.bypasses + 1);
      if applied && s.slot == Absent then s'.(slot := InFlight, orphaned := s.orphaned + 1) else s'
    case BypassEnds(q) => At(s, q, Bypassed)
    case Panic(q) => At(s, q, Panicked).(panics := s.panics + 1)
    case Release(q, lost) =>
      if lost then At(s, q, Crashed) else At(s, q, Crashed).(slot := Absent, released := s.released + 1)
    case Return(q, resp) => At(s, q, Returned(resp)).(completed := s.completed + [resp])
    case Save(q, lost) =>
      var resp := s.requests[q].resp;
      if lost then At(s, q, Answered(resp)) else At(s, q, Answered(resp)).(slot := Cached(resp))
    case Load(q) => if s.slot.Cached? then At(s, q, Replayed(s.slot.resp)) else s
    case GiveUp(q) => At(s, q, Refused)
  }

  predicate CanRun(s: Shared, steps: seq<Step>)
    decreases |steps|
  {
    |steps| > 0 ==> Enabled(s, steps[0]) && CanRun(Apply(s, steps[0]), steps[1..])
  }

  function Run(s: Shared, steps: seq<Step>): Shared
    requires CanRun(s, steps)
    decreases |steps|
  {
    if |steps| == 0 then s else Run(Apply(s, steps[0]), steps[1..])
  }

  /** At most one request holds the key. */
  predicate OneHolder(requests: seq<Phase>) {
    forall i, j :: 0 <= i < j < |requests| ==> !(HoldsKey(requests[i]) && HoldsKey(requests[j]))
  }

  /** What one request's phase says about the shared state. */
  predicate PhaseOk(s: Shared, p: Phase) {
    && (HoldsKey(p) ==> s.slot == InFlight)
    && (p.Running? || p.Panicked? ==> s.completed == [])
    && (p.Panicked? ==> s.released < s.panics)
    && (p.Returned? || p.Answered? || p.Replayed? ==> s.completed == [p.resp])
  }

  predicate Inv(s: Shared) {
    && OneHolder(s.requests)
    && (forall q :: 0 <= q < |s.requests| ==> PhaseOk(s, s.requests[q]))
    && s.starts + s.orphaned == s.released + (if s.slot == Absent then 0 else 1)
    && s.released <= s.panics
    && |s.completed| <= 1
    && (s.slot == Absent ==> s.completed == [])
    && (s.slot.Cached? ==> s.completed == [s.slot.resp])
  }

  /** Whatever a step does, a request it does not move is still in a consistent phase. */
  lemma {:induction false} BystanderKept(s: Shared, step: Step, i: nat)
    requires Inv(s) && Enabled(s, step) && !step.Arrive? && i < |s.requests| && i != step.q
    ensures PhaseOk(Apply(s, step), s.requests[i])
    ensures HoldsKey(s.requests[i]) ==> !HoldsKey(Apply(s, step).requests[step.q])
  { }

  lemma {:induction false} StepKeepsInv(s: Shared, step: Step)
    requires Inv(s) && Enabled(s, step)
    ensures Inv(Apply(s, step))
  {
    var s' := Apply(s, step);
    if step.Arrive? {
      forall i | 0 <= i < |s'.requests| ensures PhaseOk(s', s'.requests[i]) {
        if i < |s.requests| { assert PhaseOk(s, s.requests[i]); }
      }
    } else {
      assert PhaseOk(s, s.requests[step.q]);
      forall i | 0 <= i < |s'.requests| ensures PhaseOk(s', s'.requests[i]) {
        if i != step.q { BystanderKept(s, step, i); }
      }
      forall i, j | 0 <= i < j < |s'.requests| ensures !(HoldsKey(s'.requests[i]) && HoldsKey(s'.requests[j])) {
        if i == step.q { BystanderKept(s, step, j); }
        else if j == step.q { BystanderKept(s, step, i); }
      }
    }
  }

  lemma {:induction false} RunKeepsInv(s: Shared, steps: seq<Step>)
    requires Inv(s) && CanRun(s, steps)
    ensures Inv(Run(s, steps))
    decreases |steps|
  {
    if |steps| > 0 {
      StepKeepsInv(s, steps[0]);
      RunKeepsInv(Apply(s, steps[0]), steps[1..]);
    }
  }

  predicate IsStart(s: Shared) {
    && s.slot == Absent && |s.requests| == 0 && |s.completed| == 0
    && s.starts == 0 && s.panics == 0 && s.released == 0 && s.orphaned == 0 && s.bypasses == 0
  }

  /** Every answer given, by the handler or by a replay, is the completed execution's response. */
  predicate AnswersAgree(s: Shared) {
    forall q :: 0 <= q < |s.requests| ==>
      (s.requests[q].Answered? || s.requests[q].Replayed? ==> s.completed == [s.requests[q].resp])
  }

  lemma {:induction false} InvAnswersAgree(s: Shared)
    requires Inv(s)
    ensures AnswersAgree(s) && s.starts <= 1 + s.panics
  { }

  /**
   In every interleaving, with saves and releases that may be lost: executions holding
   the key never overlap; there is at most one more of them than panics; at most one runs
   to completion; and every answer, first or replayed, is that execution's response.
   */
  lemma {:induction false} HandlerRunsOnce(s: Shared, steps: seq<Step>)
    requires IsStart(s) && CanRun(s, steps)
    ensures var e := Run(s, steps);
      OneHolder(e.requests) && e.starts <= 1 + e.panics && |e.completed| <= 1 && AnswersAgree(e)
  {
    RunKeepsInv(s, steps);
    InvAnswersAgree(Run(s, steps));
  }

  lemma {:induction false} RunCons(s: Shared, step: Step, rest: seq<Step>)
    requires Enabled(s, step) && CanRun(Apply(s, step), rest)
    ensures CanRun(s, [step] + rest) && Run(s, [step] + rest) == Run(Apply(s, step), rest)
  {
    assert ([step] + rest)[1..] == rest;
  }

  lemma {:induction false} TwoSteps(s: Shared, a: Step, b: Step)
    requires Enabled(s, a) && Enabled(Apply(s, a), b)
    ensures CanRun(s, [a] + [b]) && Run(s, [a] + [b]) == Apply(Apply(s, a), b)
  {
    assert [b] + [] == [b];
    RunCons(Apply(s, a), b, []);
    RunCons(s, a, [b]);
  }

  /** Handlers that panicked while holding the key. */
  function Panics(steps: seq<Step>): nat {
    if |steps| == 0 then 0 else (if steps[0].Panic? then 1 else 0) + Panics(steps[1..])
  }

  lemma {:induction false} PanicsCounted(s: Shared, steps: seq<Step>)
    requires CanRun(s, steps)
    ensures Run(s, steps).panics == s.panics + Panics(steps)
    decreases |steps|
  {
    if |steps| > 0 { PanicsCounted(Apply(s, steps[0]), steps[1..]); }
  }

  /** Calls of Acquire that reported an error. */
  function AcquireErrors(steps: seq<Step>): nat {
    if |steps| == 0 then 0 else (if steps[0].AcquireError? then 1 else 0) + AcquireErrors(steps[1..])
  }

  lemma {:induction false} BypassesAreErrors(s: Shared, steps: seq<Step>)
    requires CanRun(s, steps)
    ensures Run(s, steps).bypasses == s.bypasses + AcquireErrors(steps)
    decreases |steps|
  {
    if |steps| > 0 { BypassesAreErrors(Apply(s, steps[0]), steps[1..]); }
  }

  predicate NoneBypassing(s: Shared) {
    forall q :: 0 <= q < |s.requests| ==> !s.requests[q].Bypassing?
  }

  lemma {:induction false} NoErrorNoBypass(s: Shared, steps: seq<Step>)
    requires CanRun(s, steps) && AcquireErrors(steps) == 0 && NoneBypassing(s)
    ensures NoneBypassing(Run(s, steps))
    decreases |steps|
  {
    if |steps| > 0 { NoErrorNoBypass(Apply(s, steps[0]), steps[1..]); }
  }

  /** No two requests have their handler at work. */
  predicate NoOverlap(requests: seq<Phase>) {
    forall i, j :: 0 <= i < j < |requests| ==> !(Executing(requests[i]) && Executing(requests[j]))
  }

  /**
   Counting the executions without the key too: in every run there are at most
   1 + panics + Acquire errors of them, and without an Acquire error no two overlap.
   */
  lemma {:induction false} AllExecutions(s: Shared, steps: seq<Step>)
    requires IsStart(s) && CanRun(s, steps)
    ensures var e := Run(s, steps);
      && e.starts + e.bypasses <= 1 + Panics(steps) + AcquireErrors(steps)
      && (AcquireErrors(steps) == 0 ==> NoOverlap(e.requests))
  {
    HandlerRunsOnce(s, steps);
    BypassesAreErrors(s, steps);
    PanicsCounted(s, steps);
    if AcquireErrors(steps) == 0 {
      NoErrorNoBypass(s, steps);
      var e := Run(s, steps);
      forall i, j | 0 <= i < j < |e.requests| ensures !(Executing(e.requests[i]) && Executing(e.requests[j])) {
        assert !(HoldsKey(e.requests[i]) && HoldsKey(e.requests[j]));
      }
    }
  }

  /** One Acquire error is enough for two executions at once. */
  lemma {:induction false} BypassCanOverlap(s: Shared)
    requires IsStart(s)
    ensures var steps := [Arrive] + ([Arrive] + ([Acquire(0)] + [AcquireError(1, false)]));
      CanRun(s, steps) && Run(s, steps).requests == [Running, Bypassing]
  {
    var s1 := Apply(s, Arrive);
    var s2 := Apply(s1, Arrive);
    TwoSteps(s2, Acquire(0), AcquireError(1, false));
    RunCons(s1, Arrive, [Acquire(0)] + [AcquireError(1, false)]);
    RunCons(s, Arrive, [Arrive] + ([Acquire(0)] + [AcquireError(1, false)]));
  }

  /** Once an execution has completed, no later request ever runs the handler under the key. */
  lemma {:induction false} NoExecutionAfterCompletion(s: Shared, steps: seq<Step>)
    requires Inv(s) && CanRun(s, steps) && s.completed != []
    ensures var e := Run(s, steps); e.starts == s.starts && e.completed == s.completed && e.slot != Absent
    decreases |steps|
  {
    if |steps| > 0 {
      if !steps[0].Arrive? { assert PhaseOk(s, s.requests[steps[0].q]); }
      StepKeepsInv(s, steps[0]);
      NoExecutionAfterCompletion(Apply(s, steps[0]), steps[1..]);
    }
  }

  // ---- one request from start to finish ----

  datatype Handler = Panics | Returns(resp: Response)

  datatype Answer = Executed(resp: Response) | Replay(resp: Response) | PanicPropagated | NotServed | Unprotected

  /** Where the machine's request ends up. */
  function PhaseOf(a: Answer): Phase {
    match a
    case Executed(resp) => Answered(resp)
    case Replay(resp) => Replayed(resp)
    case PanicPropagated => Crashed
    case NotServed => Refused
    case Unprotected => Bypassed
  }

  /** A single request about to begin, with the key in some state. */
  function Alone(slot: Slot): Shared { Shared(slot, [Arrived], 0, 0, [], 0, 0, 0) }

  /** The steps take a lone request from `before` to `after`, where it has this answer. */
  predicate Explains(before: Slot, steps: seq<Step>, after: Slot, answer: Answer) {
    && CanRun(Alone(before), steps)
    && Run(Alone(before), steps).slot == after
    && Run(Alone(before), steps).requests == [PhaseOf(answer)]
  }

  lemma {:induction false} ThreeSteps(s: Shared, a: Step, b: Step, c: Step)
    requires Enabled(s, a) && Enabled(Apply(s, a), b) && Enabled(Apply(Apply(s, a), b), c)
    ensures CanRun(s, [a] + ([b] + [c])) && Run(s, [a] + ([b] + [c])) == Apply(Apply(Apply(s, a), b), c)
  {
    TwoSteps(Apply(s, a), b, c);
    RunCons(s, a, [b] + [c]);
  }

  /**
   The middleware for one request that nobody interferes with, `lost` marking a save or
   release that does not arrive.  What it does to the key and what it answers is a run of
   the machine; the handler runs under the key exactly when the key was free.
   */
  method Wrap(store: KeyStore, handler: Handler, acquireFails: bool, applied: bool, lost: bool,
              latency: nat -> nat, cancelled: nat -> bool)
    returns (answer: Answer, ghost steps: seq<Step>)
    modifies store
    ensures Explains(old(store.slot), steps, store.slot, answer)
    ensures answer.Unprotected? <==> acquireFails
    ensures answer.Executed? || answer.PanicPropagated? <==> !acquireFails && old(store.slot) == Absent
    ensures answer.Executed? ==> handler == Returns(answer.resp) && (!lost ==> store.slot == Cached(answer.resp))
    ensures answer.PanicPropagated? ==> handler.Panics? && (!lost ==> store.slot == Absent)
    ensures answer.Replay? ==> old(store.slot) == Cached(answer.resp)
    ensures !acquireFails && old(store.slot).Cached? && (forall i :: !cancelled(i)) ==>
      answer == Replay(old(store.slot).resp) && store.slot == old(store.slot)
  {
    ghost var before := Alone(store.slot);
    if acquireFails {
      steps := [AcquireError(0, applied)] + [BypassEnds(0)];
      TwoSteps(before, AcquireError(0, applied), BypassEnds(0));
      if applied { var _ := store.Acquire(); }
      return Unprotected, steps;
    }
    var acquired := store.Acquire();
    if !acquired {
      var slot := store.slot;
      var r, loads := Poll(_ => Entry(slot), latency, cancelled);
      answer := if r.Found? then Replay(r.resp) else NotServed;
      ghost var last := if r.Found? then Load(0) else GiveUp(0);
      steps := [Acquire(0)] + [last];
      TwoSteps(before, Acquire(0), last);
      return;
    }
    match handler {
      case Panics =>
        steps := [Acquire(0)] + ([Panic(0)] + [Release(0, lost)]);
        ThreeSteps(before, Acquire(0), Panic(0), Release(0, lost));
        if !lost { store.Release(); }
        answer := PanicPropagated;
      case Returns(resp) =>
        steps := [Acquire(0)] + ([Return(0, resp)] + [Save(0, lost)]);
        ThreeSteps(before, Acquire(0), Return(0, resp), Save(0, lost));
        if !lost { store.Save(resp); }
        answer := Executed(resp);
    }
  }

  /** Sending a request again replays the first response, whatever its handler would do now. */
  method SendTwice(store: KeyStore, first: Handler, second: Handler, latency: nat -> nat, cancelled: nat -> bool)
    returns (a: Answer, b: Answer)
    requires store.slot == Absent && first.Returns? && forall i :: !cancelled(i)
    modifies store
    ensures a == Executed(first.resp) && b == Replay(first.resp)
  {
    ghost var steps;
    a, steps := Wrap(store, first, false, false, false, latency, cancelled);
    b, steps := Wrap(store, second, false, false, false, latency, cancelled);
  }
}
