/** What one pass of `Scheduler::execute` does to the task table, as functions on values:
    take the head while it is due, run it, put it back one interval later if it repeats. */
module Schedule {
  import opened Division
  import opened Multimaps

  /** A scheduled task: count < 0 repeats forever, otherwise it is the number of runs left
      (0 still runs once). */
  datatype Task<+T> = Task(id: T, interval: nat, count: int)

  type Table<+T> = Multimap<Task<T>>

  function CountAfterRun(count: int): int {
    if count > 0 then count - 1 else count
  }

  predicate Due<T>(m: Table<T>, now: nat) {
    m.entries != [] && m.entries[0].key <= now
  }

  /** One turn of the loop. */
  function Step<T>(m: Table<T>): Table<T>
    requires m.entries != []
  {
    var e := m.entries[0];
    var count := CountAfterRun(e.value.count);
    if count != 0 then Emplace(PopFront(m), e.key + e.value.interval, e.value.(count := count))
    else PopFront(m)
  }

  /** No due task repeats forever without moving forward in time. */
  ghost predicate Halts<T>(m: Table<T>, now: nat) {
    forall e :: e in m.entries && e.key <= now ==> e.value.interval > 0 || e.value.count >= 0
  }

  /** How often a task first due at key runs by now. */
  function RunsDue(key: nat, interval: nat, count: int, now: nat): nat {
    if now < key then 0
    else if count == 0 then 1
    else if interval == 0 then (if count > 0 then count else 0)
    else
      var k := (now - key) / interval + 1;
      if 0 < count < k then count else k
  }

  ghost function EntryRuns<T>(e: Entry<Task<T>>, now: nat): nat {
    RunsDue(e.key, e.value.interval, e.value.count, now)
  }

  ghost function TotalRuns<T>(entries: seq<Entry<Task<T>>>, now: nat): nat {
    if entries == [] then 0 else EntryRuns(entries[0], now) + TotalRuns(entries[1..], now)
  }

  /** Running a due task once uses up exactly one of its due runs. */
  lemma RunsDueStep(key: nat, interval: nat, count: int, now: nat)
    requires key <= now
    requires interval > 0 || count >= 0
    ensures var left := CountAfterRun(count);
            RunsDue(key, interval, count, now)
            == 1 + if left == 0 then 0 else RunsDue(key + interval, interval, left, now)
  {
    if interval > 0 {
      DivLess(now - key, interval);
    }
  }

  lemma {:induction false} TotalRunsConcat<T>(a: seq<Entry<Task<T>>>, b: seq<Entry<Task<T>>>, now: nat)
    ensures TotalRuns(a + b, now) == TotalRuns(a, now) + TotalRuns(b, now)
  {
    if a == [] {
      assert a + b == b;
    } else {
      assert (a + b)[1..] == a[1..] + b;
      TotalRunsConcat(a[1..], b, now);
    }
  }

  lemma TotalRunsEmplace<T>(m: Table<T>, key: nat, task: Task<T>, now: nat)
    ensures TotalRuns(Emplace(m, key, task).entries, now)
            == TotalRuns(m.entries, now) + RunsDue(key, task.interval, task.count, now)
  {
    var p := UpperBound(m.entries, key);
    var e := Entry(key, m.nextSerial, task);
    assert m.entries == m.entries[..p] + m.entries[p..];
    TotalRunsConcat(m.entries[..p], m.entries[p..], now);
    TotalRunsConcat(m.entries[..p] + [e], m.entries[p..], now);
    TotalRunsConcat(m.entries[..p], [e], now);
  }

  lemma StepKeepsHalts<T>(m: Table<T>, now: nat)
    requires Due(m, now) && Halts(m, now)
    ensures Halts(Step(m), now)
  {
    hide Emplace;
    var e := m.entries[0];
    EmplaceEntries(PopFront(m), e.key + e.value.interval, e.value.(count := CountAfterRun(e.value.count)));
    forall x | x in Step(m).entries && x.key <= now ensures x.value.interval > 0 || x.value.count >= 0 {
      assert x in m.entries || x.value == e.value.(count := CountAfterRun(e.value.count));
      assert e in m.entries;
    }
  }

  lemma StepKeepsValid<T>(m: Table<T>)
    requires m.entries != [] && Valid(m)
    ensures Valid(Step(m))
  {
    var e := m.entries[0];
    var count := CountAfterRun(e.value.count);
    var rest := PopFront(m);
    PopFrontKeepsValid(m);
    if count == 0 {
      assert Step(m) == rest;
    } else {
      var put := Emplace(rest, e.key + e.value.interval, e.value.(count := count));
      EmplaceKeepsValid(rest, e.key + e.value.interval, e.value.(count := count));
      assert Step(m) == put;
    }
  }

  /** The termination measure: each turn of the loop lowers the number of due runs by one,
      although it may put the task back. */
  lemma StepMeasure<T>(m: Table<T>, now: nat)
    requires Due(m, now) && Halts(m, now)
    ensures TotalRuns(m.entries, now) == TotalRuns(Step(m).entries, now) + 1
  {
    var e := m.entries[0];
    RunsDueStep(e.key, e.value.interval, e.value.count, now);
    TotalRunsEmplace(PopFront(m), e.key + e.value.interval, e.value.(count := CountAfterRun(e.value.count)), now);
  }

  /** A whole pass: the table it leaves and the entries it ran, in order. */
  ghost function Drain<T>(m: Table<T>, now: nat): (r: (Table<T>, seq<Entry<Task<T>>>))
    requires Valid(m) && Halts(m, now)
    ensures Valid(r.0) && !Due(r.0, now)
    decreases TotalRuns(m.entries, now)
  {
    if Due(m, now) then
      StepMeasure(m, now);
      StepKeepsHalts(m, now);
      StepKeepsValid(m);
      var (left, ran) := Drain(Step(m), now);
      (left, [m.entries[0]] + ran)
    else
      (m, [])
  }

  // ---- Order ----

  lemma StepComesAfterHead<T>(m: Table<T>)
    requires m.entries != [] && Valid(m)
    ensures AllAfter(m.entries[0], Step(m))
  {
    hide Valid, Emplace;
    var e := m.entries[0];
    PopFrontKeepsValid(m);
    HeadSerial(m);
    EmplaceEntries(PopFront(m), e.key + e.value.interval, e.value.(count := CountAfterRun(e.value.count)));
  }

  /** Tasks run in nondecreasing scheduled time, equal times in the order in which they were
      put in the table, and none before its time. */
  lemma {:induction false} DrainOrder<T>(m: Table<T>, now: nat)
    requires Valid(m) && Halts(m, now)
    ensures var ran := Drain(m, now).1;
            && (ran != [] ==> ran[0] == m.entries[0])
            && (forall i, j :: 0 <= i < j < |ran| ==> Before(ran[i], ran[j]))
            && (forall i :: 0 <= i < |ran| ==> ran[i].key <= now)
    decreases TotalRuns(m.entries, now)
  {
    if Due(m, now) {
      DrainDue(m, now);
      StepComesAfterHead(m);
      DrainOrder(Step(m), now);
    }
  }

  // ---- Composition ----

  lemma DrainDue<T>(m: Table<T>, now: nat)
    requires Valid(m) && Halts(m, now) && Due(m, now)
    ensures Valid(Step(m)) && Halts(Step(m), now)
    ensures Drain(m, now) == (Drain(Step(m), now).0, [m.entries[0]] + Drain(Step(m), now).1)
    ensures TotalRuns(m.entries, now) == TotalRuns(Step(m).entries, now) + 1
  {
    StepMeasure(m, now);
    StepKeepsHalts(m, now);
    StepKeepsValid(m);
  }

  lemma DrainIdle<T>(m: Table<T>, now: nat)
    requires Valid(m) && Halts(m, now)
    ensures !Due(m, now) ==> Drain(m, now) == (m, [])
  {
  }

  lemma HaltsEarlier<T>(m: Table<T>, earlier: nat, now: nat)
    requires earlier <= now && Halts(m, now)
    ensures Halts(m, earlier)
  {
  }

  /** Running at an earlier clock first changes nothing: same runs, same table. */
  lemma {:induction false} DrainComposes<T>(m: Table<T>, earlier: nat, now: nat)
    requires earlier <= now
    requires Valid(m) && Halts(m, now)
    ensures Halts(m, earlier)
    ensures Halts(Drain(m, earlier).0, now)
    ensures var (m1, ran1) := Drain(m, earlier);
            var (m2, ran2) := Drain(m1, now);
            Drain(m, now) == (m2, ran1 + ran2)
    decreases TotalRuns(m.entries, now)
  {
    hide Valid, Emplace, Step, TotalRuns, Halts, Drain;
    HaltsEarlier(m, earlier, now);
    DrainIdle(m, earlier);
    if Due(m, earlier) {
      DrainDue(m, now);
      DrainDue(m, earlier);
      DrainComposes(Step(m), earlier, now);
      var ran1 := Drain(Step(m), earlier).1;
      var ran2 := Drain(Drain(m, earlier).0, now).1;
      assert [m.entries[0]] + (ran1 + ran2) == [m.entries[0]] + ran1 + ran2;
    } else {
      var ran := Drain(m, now).1;
      assert [] + ran == ran;
    }
  }

  // ---- What one task does ----

  ghost predicate UniqueTasks<T>(m: Table<T>) {
    forall x, y :: x in m.entries && y in m.entries && x.value.id == y.value.id ==> x == y
  }

  /** The times at which one task ran. */
  ghost function TimesOf<T>(ran: seq<Entry<Task<T>>>, id: T): seq<nat> {
    if ran == [] then []
    else (if ran[0].value.id == id then [ran[0].key] else []) + TimesOf(ran[1..], id)
  }

  /** start, start + interval, ..., n of them. */
  ghost function Every(start: nat, interval: nat, n: nat): seq<nat>
    decreases n
  {
    if n == 0 then [] else [start] + Every(start + interval, interval, n - 1)
  }

  lemma {:induction false} EveryAt(start: nat, interval: nat, n: nat, k: nat)
    requires k < n
    ensures |Every(start, interval, n)| == n
    ensures Every(start, interval, n)[k] == start + k * interval
    decreases n
  {
    if k > 0 {
      EveryAt(start + interval, interval, n - 1, k - 1);
    } else if n > 1 {
      EveryAt(start + interval, interval, n - 1, 0);
    }
  }

  /** The entry a turn of the loop puts back, when the task repeats. */
  function Next<T>(m: Table<T>): Entry<Task<T>>
    requires m.entries != []
  {
    var e := m.entries[0];
    Entry(e.key + e.value.interval, m.nextSerial, e.value.(count := CountAfterRun(e.value.count)))
  }

  lemma StepEntries<T>(m: Table<T>)
    requires m.entries != [] && Valid(m)
    ensures forall y :: y in Step(m).entries ==> (y in m.entries && y != m.entries[0]) || y == Next(m)
    ensures Next(m) in Step(m).entries <==> Next(m).value.count != 0
    ensures forall y :: y in m.entries && y != m.entries[0] ==> y in Step(m).entries
  {
    hide Valid, Emplace;
    var e := m.entries[0];
    PopFrontKeepsValid(m);
    HeadSerial(m);
    assert m.entries == [e] + PopFront(m).entries;
    EmplaceEntries(PopFront(m), e.key + e.value.interval, Next(m).value);
  }

  lemma StepKeepsUnique<T>(m: Table<T>)
    requires m.entries != [] && Valid(m) && UniqueTasks(m)
    ensures UniqueTasks(Step(m))
  {
    StepEntries(m);
    var e := m.entries[0];
    forall x, y | x in Step(m).entries && y in Step(m).entries && x.value.id == y.value.id
      ensures x == y
    {
      if x == Next(m) && y != Next(m) {
        assert false;
      } else if y == Next(m) && x != Next(m) {
        assert false;
      }
    }
  }

  lemma {:induction false} DrainAbsent<T>(m: Table<T>, now: nat, id: T)
    requires Valid(m) && Halts(m, now) && UniqueTasks(m)
    requires forall x :: x in m.entries ==> x.value.id != id
    ensures TimesOf(Drain(m, now).1, id) == []
    ensures forall x :: x in Drain(m, now).0.entries ==> x.value.id != id
    decreases TotalRuns(m.entries, now)
  {
    hide Valid, Emplace;
    if Due(m, now) {
      DrainDue(m, now);
      StepEntries(m);
      StepKeepsUnique(m);
      DrainAbsent(Step(m), now, id);
      TimesOfDrain(m, now, id);
    }
  }

  /** What a pass must leave of a task that ran n times: nothing when its count is used up,
      otherwise one entry n intervals later with the count lowered. */
  ghost predicate LeftAfter<T>(e: Entry<Task<T>>, n: nat, left: Table<T>) {
    if (e.value.count == 0 && n == 1) || 0 < e.value.count == n then
      forall x :: x in left.entries ==> x.value.id != e.value.id
    else
      var task := e.value.(count := if e.value.count > 0 then e.value.count - n else e.value.count);
      && (exists x :: x in left.entries && x.value == task)
      && forall x :: x in left.entries && x.value.id == e.value.id
                     ==> x.value == task && x.key == e.key + n * e.value.interval
  }

  /** Every task runs at start, start + interval, ... up to the clock and no further than its
      count allows, and the table afterwards holds exactly what is left of it. */
  lemma {:induction false} DrainTask<T>(m: Table<T>, now: nat, e: Entry<Task<T>>)
    requires Valid(m) && Halts(m, now) && UniqueTasks(m)
    requires e in m.entries
    ensures TimesOf(Drain(m, now).1, e.value.id) == Every(e.key, e.value.interval, EntryRuns(e, now))
    ensures LeftAfter(e, EntryRuns(e, now), Drain(m, now).0)
    decreases TotalRuns(m.entries, now)
  {
    if Due(m, now) {
      DrainDue(m, now);
      StepKeepsUnique(m);
      StepEntries(m);
      if e == m.entries[0] {
        if Next(m).value.count == 0 {
          DrainHeadLast(m, now);
        } else {
          DrainHeadAgain(m, now);
        }
      } else {
        DrainTask(Step(m), now, e);
        TimesOfDrain(m, now, e.value.id);
      }
    } else {
      assert e.key > now by {
        assert exists i :: 0 <= i < |m.entries| && m.entries[i] == e;
      }
    }
  }

  /** A task that does not repeat is gone from the table. */
  lemma HeadLeaves<T>(m: Table<T>)
    requires m.entries != [] && Valid(m) && UniqueTasks(m)
    requires Next(m).value.count == 0
    ensures forall x :: x in Step(m).entries ==> x.value.id != m.entries[0].value.id
  {
    StepEntries(m);
  }

  lemma TimesOfDrain<T>(m: Table<T>, now: nat, id: T)
    requires Valid(m) && Halts(m, now) && Due(m, now)
    requires Valid(Step(m)) && Halts(Step(m), now)
    ensures Drain(m, now).0 == Drain(Step(m), now).0
    ensures TimesOf(Drain(m, now).1, id)
            == (if m.entries[0].value.id == id then [m.entries[0].key] else [])
               + TimesOf(Drain(Step(m), now).1, id)
  {
    DrainDue(m, now);
    var ran := Drain(Step(m), now).1;
    assert ([m.entries[0]] + ran)[1..] == ran;
  }

  /** What is left of the successor entry after n runs is what is left after n + 1. */
  lemma LeftAfterNext<T>(e: Entry<Task<T>>, next: Entry<Task<T>>, n: nat, left: Table<T>)
    requires next.value == e.value.(count := CountAfterRun(e.value.count)) && next.value.count != 0
    requires next.key == e.key + e.value.interval
    requires LeftAfter(next, n, left)
    ensures LeftAfter(e, n + 1, left)
  {
    assert next.key + n * e.value.interval == e.key + (n + 1) * e.value.interval;
  }

  /** The head of the table, when due and not repeating: one run and it is gone. */
  lemma DrainHeadLast<T>(m: Table<T>, now: nat)
    requires Valid(m) && Halts(m, now) && UniqueTasks(m) && Due(m, now)
    requires Valid(Step(m)) && Halts(Step(m), now) && UniqueTasks(Step(m))
    requires Next(m).value.count == 0
    ensures var e := m.entries[0];
            && TimesOf(Drain(m, now).1, e.value.id) == Every(e.key, e.value.interval, EntryRuns(e, now))
            && LeftAfter(e, EntryRuns(e, now), Drain(m, now).0)
  {
    hide Valid, Emplace, Step, Halts, UniqueTasks, RunsDue;
    var e := m.entries[0];
    RunsDueStep(e.key, e.value.interval, e.value.count, now) by { HaltsHead(m, now); }
    TimesOfDrain(m, now, e.value.id);
    HeadLeaves(m);
    DrainAbsent(Step(m), now, e.value.id);
  }

  /** The head of the table, when due and repeating: one run, then what its successor does. */
  lemma {:induction false} DrainHeadAgain<T>(m: Table<T>, now: nat)
    requires Valid(m) && Halts(m, now) && UniqueTasks(m) && Due(m, now)
    requires Valid(Step(m)) && Halts(Step(m), now) && UniqueTasks(Step(m))
    requires Next(m).value.count != 0
    ensures var e := m.entries[0];
            && TimesOf(Drain(m, now).1, e.value.id) == Every(e.key, e.value.interval, EntryRuns(e, now))
            && LeftAfter(e, EntryRuns(e, now), Drain(m, now).0)
    decreases TotalRuns(m.entries, now), 0
  {
    hide Valid, Emplace, Step, Halts, UniqueTasks, RunsDue, LeftAfter;
    var e := m.entries[0];
    RunsDueStep(e.key, e.value.interval, e.value.count, now) by { HaltsHead(m, now); }
    TimesOfDrain(m, now, e.value.id);
    DrainDue(m, now);
    StepEntries(m);
    DrainTask(Step(m), now, Next(m));
    LeftAfterNext(e, Next(m), EntryRuns(Next(m), now), Drain(m, now).0);
  }

  lemma HaltsHead<T>(m: Table<T>, now: nat)
    requires Due(m, now) && Halts(m, now)
    ensures m.entries[0].value.interval > 0 || m.entries[0].value.count >= 0
  {
  }

  // ---- Termination ----

  /** The table after at most n turns of the loop. */
  ghost function Turns<T>(m: Table<T>, now: nat, n: nat): Table<T>
    decreases n
  {
    if n == 0 || !Due(m, now) then m else Turns(Step(m), now, n - 1)
  }

  lemma StuckStays<T>(m: Table<T>, now: nat)
    requires Valid(m) && !Halts(m, now)
    ensures Due(m, now) && Valid(Step(m)) && !Halts(Step(m), now)
  {
    var e :| e in m.entries && e.key <= now && e.value.interval == 0 && e.value.count < 0;
    StepKeepsValid(m);
    StepEntries(m);
    if e == m.entries[0] {
      assert Next(m) in Step(m).entries;
    } else {
      assert e in Step(m).entries;
    }
  }

  lemma {:induction false} StuckForever<T>(m: Table<T>, now: nat, n: nat)
    requires Valid(m) && !Halts(m, now)
    ensures Due(Turns(m, now, n), now)
    decreases n
  {
    hide Valid, Emplace, Step, Halts, Due;
    StuckStays(m, now);
    if n == 0 {
    } else {
      StuckForever(Step(m), now, n - 1);
    }
  }

  lemma {:induction false} TurnsReachDrain<T>(m: Table<T>, now: nat)
    requires Valid(m) && Halts(m, now)
    ensures Turns(m, now, TotalRuns(m.entries, now)) == Drain(m, now).0
    decreases TotalRuns(m.entries, now)
  {
    hide Valid, Emplace, Step, Halts, TotalRuns;
    if Due(m, now) {
      DrainDue(m, now);
      TurnsReachDrain(Step(m), now);
    }
  }

  /** The loop of a pass ends exactly when no due task has interval 0 and a negative count. */
  lemma PassTerminatesIff<T>(m: Table<T>, now: nat)
    requires Valid(m)
    ensures (exists n :: !Due(Turns(m, now, n), now))
            <==> !exists e :: e in m.entries && e.key <= now && e.value.interval == 0 && e.value.count < 0
  {
    if Halts(m, now) {
      TurnsReachDrain(m, now);
    } else {
      forall n ensures Due(Turns(m, now, n), now) {
        StuckForever(m, now, n);
      }
    }
  }

  /** One task with interval 0 that repeats forever: no pass at or after its time ends. */
  lemma StuckTask<T>(id: T, time: nat, now: nat)
    requires time <= now
    ensures var m := Multimap([Entry(time, 0, Task(id, 0, -1))], 1);
            Valid(m) && forall n :: Due(Turns(m, now, n), now)
  {
    var e := Entry(time, 0, Task(id, 0, -1));
    var m := Multimap([e], 1);
    assert e in m.entries;
    PassTerminatesIff(m, now);
  }

  /** A pass computes no time above the clock plus an interval, so 64-bit times do not wrap
      while that stays in range. */
  lemma {:induction false} DrainBounded<T>(m: Table<T>, now: nat, bound: nat)
    requires Valid(m) && Halts(m, now)
    requires forall e :: e in m.entries ==> e.key <= bound && now + e.value.interval <= bound
    ensures forall e :: e in Drain(m, now).0.entries || e in Drain(m, now).1 ==> e.key <= bound
    decreases TotalRuns(m.entries, now)
  {
    hide Valid, Emplace, Halts;
    if Due(m, now) {
      DrainDue(m, now);
      StepEntries(m);
      assert m.entries[0] in m.entries;
      assert Next(m).key <= bound;
      DrainBounded(Step(m), now, bound);
    }
  }
}
