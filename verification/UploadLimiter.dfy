/** The fixed-window upload limiter (cmd/core-svc/upload_handlers.go:40-66). */
module UploadLimiter {
  import opened Options

  const UPLOADS_PER_HOUR := 50
  const HOUR := 3600

  datatype Window = Window(count: nat, start: int)

  /** The window after an attempt at `now`, and whether it is granted. */
  function Next(w: Option<Window>, now: int): (Option<Window>, bool) {
    if w.None? || now - w.value.start >= HOUR then (Some(Window(1, now)), true)
    else if w.value.count >= UPLOADS_PER_HOUR then (w, false)
    else (Some(w.value.(count := w.value.count + 1)), true)
  }

  class Limiter {
    var windows: map<int, Window>

    constructor ()
      ensures windows == map[]
    {
      windows := map[];
    }

    function Find(userId: int): Option<Window>
      reads this
    {
      if userId in windows then Some(windows[userId]) else None
    }

    /** One user's attempt does not touch another user's window. */
    method Allow(userId: int, now: int) returns (granted: bool)
      modifies this
      ensures (Find(userId), granted) == Next(old(Find(userId)), now)
      ensures forall u :: u != userId ==> Find(u) == old(Find(u))
    {
      if userId !in windows || now - windows[userId].start >= HOUR {
        windows := windows[userId := Window(1, now)];
        return true;
      }
      var w := windows[userId];
      if w.count >= UPLOADS_PER_HOUR { return false; }
      windows := windows[userId := w.(count := w.count + 1)];
      return true;
    }
  }

  // ---- one user's whole history ----

  predicate NonDecreasing(times: seq<int>) {
    forall i, j :: 0 <= i < j < |times| ==> times[i] <= times[j]
  }

  /** The window after a sequence of attempts. */
  function After(times: seq<int>): Option<Window> {
    if |times| == 0 then None else Next(After(times[..|times| - 1]), times[|times| - 1]).0
  }

  predicate GrantedLast(times: seq<int>)
    requires |times| > 0
  {
    Next(After(times[..|times| - 1]), times[|times| - 1]).1
  }

  /** Grants among the attempts at or after `from` and before `from + HOUR`. */
  function Grants(times: seq<int>, from: int): nat {
    if |times| == 0 then 0
    else
      Grants(times[..|times| - 1], from)
      + (if GrantedLast(times) && from <= times[|times| - 1] < from + HOUR then 1 else 0)
  }

  /** How the grants of an interval relate to the window the limiter is in. */
  lemma {:induction false} GrantsAgainstWindow(times: seq<int>, from: int)
    requires NonDecreasing(times)
    ensures var w := After(times); var g := Grants(times, from);
      && (|times| == 0 <==> w.None?)
      && (w.Some? ==>
            && 1 <= w.value.count <= UPLOADS_PER_HOUR
            && w.value.start <= times[|times| - 1] < w.value.start + HOUR
            && (times[|times| - 1] < from ==> g == 0)
            && (w.value.start < from ==> g <= w.value.count - 1)
            && (from <= w.value.start < from + HOUR ==> g <= UPLOADS_PER_HOUR - 1 + w.value.count))
      && g <= 2 * UPLOADS_PER_HOUR - 1
  {
    if |times| > 0 { GrantsAgainstWindow(times[..|times| - 1], from); }
  }

  /** Any hour-long interval sees at most 2 * 50 - 1 uploads of a user. */
  lemma {:induction false} AtMost99PerHour(times: seq<int>, from: int)
    requires NonDecreasing(times)
    ensures Grants(times, from) <= 99
  {
    GrantsAgainstWindow(times, from);
  }

  /** A window is replaced only an hour or more after it began. */
  lemma {:induction false} WindowsAnHourApart(times: seq<int>, now: int)
    requires NonDecreasing(times + [now]) && |times| > 0
    ensures var before, after := After(times), After(times + [now]);
      && before.Some? && after.Some?
      && (after.value.start != before.value.start ==> after.value.start >= before.value.start + HOUR)
  { }

  // ---- 99 is reached ----

  function Repeat(t: int, k: nat): seq<int> { seq(k, _ => t) }

  lemma {:induction false} OneMore(times: seq<int>, t: int, from: int)
    ensures After(times + [t]) == Next(After(times), t).0
    ensures Grants(times + [t], from)
         == Grants(times, from) + (if Next(After(times), t).1 && from <= t < from + HOUR then 1 else 0)
  { }

  lemma {:induction false} RepeatNext(times: seq<int>, t: int, k: nat)
    requires k > 0
    ensures times + Repeat(t, k) == times + Repeat(t, k - 1) + [t]
  { }

  /** An attempt inside the running window is granted while the count allows. */
  lemma {:induction false} InsideWindow(times: seq<int>, w: Window, t: int, from: int)
    requires After(times) == Some(w) && t < w.start + HOUR && w.count < UPLOADS_PER_HOUR
    requires from <= t < from + HOUR
    ensures After(times + [t]) == Some(Window(w.count + 1, w.start))
    ensures Grants(times + [t], from) == Grants(times, from) + 1
  {
    OneMore(times, t, from);
  }

  /** k attempts at once, inside the running window, are all granted while the count allows. */
  lemma {:induction false} Burst(times: seq<int>, w: Window, t: int, k: nat, from: int)
    requires After(times) == Some(w) && t < w.start + HOUR && w.count + k <= UPLOADS_PER_HOUR
    requires from <= t < from + HOUR
    ensures After(times + Repeat(t, k)) == Some(Window(w.count + k, w.start))
    ensures Grants(times + Repeat(t, k), from) == Grants(times, from) + k
  {
    if k == 0 {
      assert times + Repeat(t, 0) == times;
    } else {
      Burst(times, w, t, k - 1, from);
      RepeatNext(times, t, k);
      InsideWindow(times + Repeat(t, k - 1), Window(w.count + k - 1, w.start), t, from);
    }
  }

  /** One upload, 49 just before the hour is over, 50 as it ends: 99 within an hour. */
  lemma {:induction false} NinetyNineIsReached()
    ensures var times := [0] + Repeat(3599, 49) + [3600] + Repeat(3600, 49);
      NonDecreasing(times) && Grants(times, 3599) == 99
  {
    var none: seq<int> := [];
    OneMore(none, 0, 3599);
    var t0 := none + [0];
    Burst(t0, Window(1, 0), 3599, 49, 3599);
    var t1 := t0 + Repeat(3599, 49);
    OneMore(t1, 3600, 3599);
    var t2 := t1 + [3600];
    Burst(t2, Window(1, 3600), 3600, 49, 3599);
    assert t0 == [0];
  }
}
