/** `Watchdog`: fires once when its latch has not been cleared for too long. */
module Watchdog {
  import opened Clocks

  /** latch is set by the watchdog and cleared by whoever it watches. */
  datatype State = State(lastTime: nat, misses: nat, latch: bool)

  const START := State(0, 0, false)

  datatype Event = Reset | Poll(time: nat)

  /** What a poll finds: the clock not started, a reset, no reset yet but still in time, one
      more miss. */
  datatype Outcome = FirstPoll | SawReset | InTime | Missed(fired: bool)

  function Polled(s: State, interval: nat, allowed: nat, time: nat): (State, Outcome) {
    if s.lastTime == 0 then (s.(lastTime := time), FirstPoll)
    else if !s.latch then (State(time, 0, true), SawReset)
    else if time > s.lastTime + interval * (s.misses + 1) then
      (s.(misses := s.misses + 1), Missed(s.misses + 1 == allowed + 1))
    else (s, InTime)
  }

  function Step(s: State, interval: nat, allowed: nat, e: Event): State {
    match e
    case Reset => s.(latch := false)
    case Poll(time) => Polled(s, interval, allowed, time).0
  }

  function Run(interval: nat, allowed: nat, events: seq<Event>): State {
    if events == [] then START
    else var n := |events| - 1; Step(Run(interval, allowed, events[..n]), interval, allowed, events[n])
  }

  predicate Fires(interval: nat, allowed: nat, events: seq<Event>, i: nat)
    requires i < |events|
  {
    events[i].Poll? && Polled(Run(interval, allowed, events[..i]), interval, allowed, events[i].time).1 == Missed(true)
  }

  predicate SeesReset(interval: nat, allowed: nat, events: seq<Event>, i: nat)
    requires i < |events|
  {
    events[i].Poll? && Polled(Run(interval, allowed, events[..i]), interval, allowed, events[i].time).1 == SawReset
  }

  lemma RunStep(interval: nat, allowed: nat, events: seq<Event>, i: nat)
    requires i < |events|
    ensures Run(interval, allowed, events[..i + 1])
            == Step(Run(interval, allowed, events[..i]), interval, allowed, events[i])
  {
    assert events[..i + 1][..i] == events[..i];
  }

  /** Without a poll that sees a reset, misses only go up, and the reference time stays. */
  lemma {:induction false} MissesGoUp(interval: nat, allowed: nat, events: seq<Event>, i: nat, j: nat)
    requires i <= j <= |events| && Run(interval, allowed, events[..i]).lastTime > 0
    requires forall k :: i <= k < j ==> !SeesReset(interval, allowed, events, k)
    ensures var s, t := Run(interval, allowed, events[..i]), Run(interval, allowed, events[..j]);
            s.misses <= t.misses && s.lastTime == t.lastTime
  {
    if i < j {
      hide Run;
      MissesGoUp(interval, allowed, events, i, j - 1);
      RunStep(interval, allowed, events, j - 1);
      assert !SeesReset(interval, allowed, events, j - 1);
    }
  }

  /** Between two firings some poll saw a reset, for any clock and any interleaving. */
  lemma FiresOncePerReset(interval: nat, allowed: nat, events: seq<Event>, i: nat, j: nat)
    requires i < j < |events|
    requires Fires(interval, allowed, events, i) && Fires(interval, allowed, events, j)
    ensures exists k :: i < k < j && SeesReset(interval, allowed, events, k)
  {
    hide Run;
    RunStep(interval, allowed, events, i);
    if forall k :: i < k < j ==> !SeesReset(interval, allowed, events, k) {
      MissesGoUp(interval, allowed, events, i + 1, j);
    }
  }

  /** A poll that took its time as the new reference: the first one, or one that saw a reset. */
  predicate SetsReference(interval: nat, allowed: nat, events: seq<Event>, i: nat)
    requires i < |events|
  {
    && events[i].Poll?
    && var outcome := Polled(Run(interval, allowed, events[..i]), interval, allowed, events[i].time).1;
       outcome == FirstPoll || outcome == SawReset
  }

  /** The reference time is the time of the last such poll. */
  lemma {:induction false} LastReference(interval: nat, allowed: nat, events: seq<Event>, n: nat) returns (j: nat)
    requires n <= |events| && Run(interval, allowed, events[..n]).lastTime > 0
    ensures j < n && SetsReference(interval, allowed, events, j)
    ensures events[j].time == Run(interval, allowed, events[..n]).lastTime
    ensures forall k :: j < k < n ==> !SetsReference(interval, allowed, events, k)
  {
    assert n > 0;
    j := n - 1;
    hide Run;
    RunStep(interval, allowed, events, n - 1);
    if !SetsReference(interval, allowed, events, n - 1) {
      j := LastReference(interval, allowed, events, n - 1);
    }
  }

  lemma LatchStep(interval: nat, allowed: nat, events: seq<Event>, n: nat)
    requires 0 < n <= |events|
    ensures Run(interval, allowed, events[..n]).latch
            <==> || SeesReset(interval, allowed, events, n - 1)
                 || (Run(interval, allowed, events[..n - 1]).latch && events[n - 1] != Reset)
  {
    hide Run;
    RunStep(interval, allowed, events, n - 1);
  }

  /** The latch is up exactly when a poll saw a reset and none has come since. */
  lemma {:induction false} LatchIff(interval: nat, allowed: nat, events: seq<Event>, n: nat)
    requires n <= |events|
    ensures Run(interval, allowed, events[..n]).latch
            <==> exists j :: 0 <= j < n && SeesReset(interval, allowed, events, j)
                             && forall k :: j < k < n ==> events[k] != Reset
  {
    if n == 0 {
    } else {
      hide Run;
      LatchIff(interval, allowed, events, n - 1);
      hide SeesReset;
      LatchStep(interval, allowed, events, n);
    }
  }

  /** A firing comes only after the clock has passed all the allowed intervals and one more since
      the last poll that set the reference, for any clock and any interleaving. */
  lemma FiresOnlyLate(interval: nat, allowed: nat, events: seq<Event>, i: nat)
    requires i < |events| && Fires(interval, allowed, events, i)
    ensures exists j :: 0 <= j < i && SetsReference(interval, allowed, events, j)
                        && (forall k :: j < k < i ==> !SetsReference(interval, allowed, events, k))
                        && events[i].time > events[j].time + interval * (allowed + 1)
  {
    var j := LastReference(interval, allowed, events, i);
    hide Run;
    assert events[i].time > events[j].time + interval * (allowed + 1);
  }

  // ---- Polls often enough ----

  /** After event j nothing but polls, each at most an interval after the event before it. */
  ghost predicate PolledOften(interval: nat, events: seq<Event>, j: nat) {
    && (forall i :: j <= i < |events| ==> events[i].Poll?)
    && (forall i :: j < i < |events| ==> events[i - 1].time <= events[i].time <= events[i - 1].time + interval)
  }

  /** The number of misses is the number of whole intervals the clock has passed. */
  ghost predicate CaughtUp(s: State, interval: nat, time: nat) {
    && s.lastTime <= time <= s.lastTime + interval * (s.misses + 1)
    && (s.misses > 0 ==> time > s.lastTime + interval * s.misses)
  }

  lemma PollCatchesUp(s: State, interval: nat, allowed: nat, time: nat, next: nat)
    requires s.lastTime > 0 && s.latch && CaughtUp(s, interval, time) && time <= next <= time + interval
    ensures var t := Polled(s, interval, allowed, next).0;
            t.lastTime == s.lastTime && t.latch && CaughtUp(t, interval, next)
  {
    assert interval * (s.misses + 2) == interval * (s.misses + 1) + interval;
  }

  lemma {:induction false} PollsCaughtUp(interval: nat, allowed: nat, events: seq<Event>, j: nat, i: nat)
    requires j < i <= |events| && PolledOften(interval, events, j)
    requires SeesReset(interval, allowed, events, j) && events[j].time > 0
    ensures var t := Run(interval, allowed, events[..i]);
            t.lastTime == events[j].time && t.latch && CaughtUp(t, interval, events[i - 1].time)
  {
    hide Run, CaughtUp, Polled;
    RunStep(interval, allowed, events, i - 1);
    var s := Run(interval, allowed, events[..i - 1]);
    if i - 1 == j {
      ResetCaughtUp(s, interval, allowed, events[j].time);
    } else {
      PollsCaughtUp(interval, allowed, events, j, i - 1);
      PollCatchesUp(s, interval, allowed, events[i - 2].time, events[i - 1].time);
    }
  }

  lemma ResetCaughtUp(s: State, interval: nat, allowed: nat, time: nat)
    requires Polled(s, interval, allowed, time).1 == SawReset
    ensures var t := Polled(s, interval, allowed, time).0;
            t.lastTime == time && t.latch && CaughtUp(t, interval, time)
  {
  }

  /** Polled at least once an interval since a poll that saw a reset, with no reset since, the
      watchdog fires at exactly the first poll past the allowed intervals and one more, and that
      poll comes within one interval more. */
  lemma FiresInTime(interval: nat, allowed: nat, events: seq<Event>, j: nat, i: nat)
    requires j < i < |events| && PolledOften(interval, events, j)
    requires SeesReset(interval, allowed, events, j) && events[j].time > 0
    ensures var deadline := events[j].time + interval * (allowed + 1);
            && (Fires(interval, allowed, events, i)
                <==> events[i].time > deadline && events[i - 1].time <= deadline)
            && (Fires(interval, allowed, events, i) ==> events[i].time <= events[j].time + interval * (allowed + 2))
  {
    hide Run, CaughtUp, Polled;
    PollsCaughtUp(interval, allowed, events, j, i);
    FiresWhenCaughtUp(Run(interval, allowed, events[..i]), interval, allowed, events[i - 1].time, events[i].time);
  }

  lemma FiresWhenCaughtUp(s: State, interval: nat, allowed: nat, before: nat, time: nat)
    requires s.lastTime > 0 && s.latch && CaughtUp(s, interval, before) && before <= time <= before + interval
    ensures var deadline := s.lastTime + interval * (allowed + 1);
            var fires := Polled(s, interval, allowed, time).1 == Missed(true);
            && (fires <==> time > deadline && before <= deadline)
            && (fires ==> time <= s.lastTime + interval * (allowed + 2))
  {
    var m := s.misses;
    assert interval * (m + 1) == interval * m + interval;
    assert interval * (allowed + 1) == interval * allowed + interval;
    assert interval * (allowed + 2) == interval * allowed + 2 * interval;
    if m < allowed {
      Multiples(interval, m + 1, allowed);
    } else if m > allowed {
      Multiples(interval, allowed + 1, m);
    }
  }

  lemma Multiples(interval: nat, a: nat, b: nat)
    requires a <= b
    ensures interval * a <= interval * b
  {
    assert interval * b == interval * a + interval * (b - a);
  }

  // ---- The object ----

  class Watchdog {
    const clock: Clock
    const interval: nat
    const allowedMisses: nat
    var lastTime: nat
    var misses: nat
    var latch: bool
    /** How often the action was executed. */
    var executed: nat
    /** The run so far. */
    ghost var events: seq<Event>

    function Current(): State
      reads this
    {
      State(lastTime, misses, latch)
    }

    ghost predicate Valid()
      reads this
    {
      Current() == Run(interval, allowedMisses, events)
    }

    constructor (clock: Clock, interval: nat, allowedMisses: nat)
      ensures Valid() && events == [] && executed == 0
      ensures this.clock == clock && this.interval == interval && this.allowedMisses == allowedMisses
    {
      this.clock, this.interval, this.allowedMisses := clock, interval, allowedMisses;
      lastTime, misses, latch, executed, events := 0, 0, false, 0, [];
    }

    method Reset()
      requires Valid()
      modifies this`latch, this`events
      ensures Valid() && events == old(events) + [Event.Reset]
    {
      RunSnoc(interval, allowedMisses, events, Event.Reset);
      latch := false;
      events := events + [Event.Reset];
    }

    method Execute()
      requires Valid()
      modifies this
      ensures Valid() && events == old(events) + [Poll(clock.time)]
      ensures executed == old(executed) + if Fires(interval, allowedMisses, events, |events| - 1) then 1 else 0
    {
      hide Run;
      var time := clock.time;
      RunSnoc(interval, allowedMisses, events, Poll(time));
      assert (events + [Poll(time)])[..|events|] == events;
      events := events + [Poll(time)];
      if lastTime == 0 {
        lastTime := time;
        return;
      }
      if !latch {
        latch := true;
        lastTime := time;
        misses := 0;
        return;
      }
      if time > lastTime + interval * (misses + 1) {
        misses := misses + 1;
        if misses == allowedMisses + 1 {
          executed := executed + 1;
        }
      }
    }
  }

  lemma RunSnoc(interval: nat, allowed: nat, events: seq<Event>, e: Event)
    ensures Run(interval, allowed, events + [e]) == Step(Run(interval, allowed, events), interval, allowed, e)
  {
    assert (events + [e])[..|events|] == events;
  }
}
