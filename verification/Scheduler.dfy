/** `Scheduler` and `ScheduledTask`, updated in place, against the functions of Schedule. */
module Scheduler {
  import opened Clocks
  import opened Multimaps
  import opened Schedule

  /** What the outside world sees: the actions executed so far. */
  class Journal {
    var actions: seq<nat>
  }

  class ScheduledTask {
    const action: nat
    const interval: nat
    var count: int

    constructor (action: nat, interval: nat, count: int)
      ensures this.action == action && this.interval == interval && this.count == count
    {
      this.action, this.interval, this.count := action, interval, count;
    }

    predicate Repeat()
      reads this
    {
      count != 0
    }

    method Execute(journal: Journal)
      modifies this, journal
      ensures journal.actions == old(journal.actions) + [action]
      ensures count == CountAfterRun(old(count))
    {
      journal.actions := journal.actions + [action];
      if count > 0 {
        count := count - 1;
      }
    }
  }

  class Scheduler {
    const clock: Clock
    const journal: Journal
    var tasks: Multimap<ScheduledTask>
    /** The task table with each task object replaced by what it currently holds. */
    ghost var table: Table<ScheduledTask>
    /** Every run so far, as the table entry that was due. */
    ghost var ran: seq<Entry<Task<ScheduledTask>>>
    ghost var owned: set<ScheduledTask>

    ghost predicate Valid()
      reads this, owned
    {
      Multimaps.Valid(table) && UniqueTasks(table) && Mirrored()
    }

    /** The table is what the task objects hold. */
    ghost predicate Mirrored()
      reads this`tasks, this`table, this`owned, owned
    {
      && SameKeys(tasks, table)
      && (forall i :: 0 <= i < |tasks.entries| ==> tasks.entries[i].value in owned)
      && (forall i :: 0 <= i < |tasks.entries| ==> Holds(tasks.entries[i].value, table.entries[i].value))
    }

    constructor (clock: Clock, journal: Journal)
      ensures Valid() && this.clock == clock && this.journal == journal
      ensures table == Multimap([], 0) && ran == [] && owned == {}
    {
      this.clock, this.journal := clock, journal;
      tasks, table, ran, owned := Multimap([], 0), Multimap([], 0), [], {};
    }

    method Schedule(action: nat, time: nat, interval: nat, repeat: int)
      requires Valid()
      modifies this
      ensures Valid() && ran == old(ran) && fresh(owned - old(owned))
      ensures exists task: ScheduledTask :: fresh(task) && task.action == action
                && table == Emplace(old(table), time, Task(task, interval, repeat))
    {
      hide Multimaps.Valid, Emplace;
      var task := new ScheduledTask(action, interval, repeat);
      EmplaceKeepsValid(table, time, Task(task, interval, repeat));
      EmplaceEntries(table, time, Task(task, interval, repeat));
      EmplaceKeepsSameKeys(tasks, table, time, task, Task(task, interval, repeat));
      assert forall x :: x in table.entries ==> x.value.id != task && x.value.id in owned;
      owned := owned + {task};
      tasks := Emplace(tasks, time, task);
      table := Emplace(table, time, Task(task, interval, repeat));
    }

    /** Takes the head out and runs it. */
    method TakeHead() returns (key: nat, task: ScheduledTask)
      requires Valid() && tasks.entries != []
      modifies this`tasks, this`table, journal, owned
      ensures Mirrored() && table == PopFront(old(table))
      ensures key == old(table).entries[0].key && task == old(table).entries[0].value.id && task in owned
      ensures task.interval == old(table).entries[0].value.interval
      ensures task.count == CountAfterRun(old(table).entries[0].value.count)
      ensures journal.actions == old(journal.actions) + [task.action]
    {
      hide Multimaps.Valid, UniqueTasks;
      OthersDiffer(table);
      key, task := tasks.entries[0].key, tasks.entries[0].value;
      task.Execute(journal);
      tasks := PopFront(tasks);
      table := PopFront(table);
    }

    method PutBack(key: nat, task: ScheduledTask)
      requires Mirrored() && task in owned
      modifies this`tasks, this`table
      ensures Mirrored() && table == Emplace(old(table), key, Task(task, task.interval, task.count))
    {
      hide Emplace;
      EmplaceKeepsSameKeys(tasks, table, key, task, Task(task, task.interval, task.count));
      tasks := Emplace(tasks, key, task);
      table := Emplace(table, key, Task(task, task.interval, task.count));
    }

    /** One turn of the loop: run the head, take it out, put it back if it repeats. */
    method RunHead()
      requires Valid() && tasks.entries != []
      modifies this, journal, owned
      ensures Valid() && owned == old(owned)
      ensures table == Step(old(table))
      ensures ran == old(ran) + [old(table).entries[0]]
      ensures journal.actions == old(journal.actions) + [old(table).entries[0].value.id.action]
    {
      hide Multimaps.Valid, Emplace, UniqueTasks, Mirrored;
      assert table.entries != [] by { MirroredEntries(); }
      ghost var before := table;
      StepKeepsValid(before);
      StepKeepsUnique(before);
      var key, task := TakeHead();
      if task.Repeat() {
        PutBack(key + task.interval, task);
      }
      ran := ran + [before.entries[0]];
    }

    lemma MirroredEntries()
      requires Mirrored()
      ensures |tasks.entries| == |table.entries|
    {
    }

    /** Runs everything due.  The precondition is the exact condition under which the loop
        ends (Schedule.PassTerminatesIff). */
    method Execute()
      requires Valid() && Halts(table, clock.time)
      modifies this, journal, owned
      ensures Valid() && owned == old(owned) && clock.time == old(clock.time)
      ensures table == Drain(old(table), clock.time).0
      ensures ran == old(ran) + Drain(old(table), clock.time).1
      ensures journal.actions == old(journal.actions) + ActionsOf(Drain(old(table), clock.time).1)
    {
      hide Multimaps.Valid, UniqueTasks, Halts, Due, ToGo;
      var time := clock.time;
      ToGoStart(table, time, ran, journal.actions);
      while tasks.entries != []
        invariant Valid() && owned == old(owned) && clock.time == time && Halts(table, time)
        invariant ToGo(old(table), time, old(ran), old(journal.actions), table, ran, journal.actions)
        decreases TotalRuns(table.entries, time)
      {
        if tasks.entries[0].key > time {
          break;
        }
        ToGoStep(old(table), time, old(ran), old(journal.actions), table, ran, journal.actions);
        RunHead();
      }
      ToGoDone(old(table), time, old(ran), old(journal.actions), table, ran, journal.actions);
    }
  }

  /** Part of the way through a pass that began at (start, ran0, actions0): what was done so
      far followed by what the rest of the pass does is what the whole pass does. */
  ghost predicate ToGo(start: Table<ScheduledTask>, time: nat,
                       ran0: seq<Entry<Task<ScheduledTask>>>, actions0: seq<nat>,
                       table: Table<ScheduledTask>, ran: seq<Entry<Task<ScheduledTask>>>, actions: seq<nat>)
  {
    && Multimaps.Valid(start) && Halts(start, time) && Multimaps.Valid(table) && Halts(table, time)
    && Drain(start, time).0 == Drain(table, time).0
    && ran0 + Drain(start, time).1 == ran + Drain(table, time).1
    && actions0 + ActionsOf(Drain(start, time).1) == actions + ActionsOf(Drain(table, time).1)
  }

  lemma ToGoStart(start: Table<ScheduledTask>, time: nat, ran0: seq<Entry<Task<ScheduledTask>>>, actions0: seq<nat>)
    requires Multimaps.Valid(start) && Halts(start, time)
    ensures ToGo(start, time, ran0, actions0, start, ran0, actions0)
  {
  }

  lemma ToGoStep(start: Table<ScheduledTask>, time: nat, ran0: seq<Entry<Task<ScheduledTask>>>, actions0: seq<nat>,
                 table: Table<ScheduledTask>, ran: seq<Entry<Task<ScheduledTask>>>, actions: seq<nat>)
    requires ToGo(start, time, ran0, actions0, table, ran, actions)
    requires table.entries != [] && table.entries[0].key <= time
    ensures ToGo(start, time, ran0, actions0, Step(table), ran + [table.entries[0]],
                 actions + [table.entries[0].value.id.action])
    ensures Halts(Step(table), time)
    ensures TotalRuns(Step(table).entries, time) < TotalRuns(table.entries, time)
  {
    hide Multimaps.Valid, Halts, Step, TotalRuns, ActionsOf;
    DrainDue(table, time);
    var e, rest := table.entries[0], Drain(Step(table), time).1;
    ActionsOfCons(e, rest);
    assert ran + ([e] + rest) == ran + [e] + rest;
    assert actions + ([e.value.id.action] + ActionsOf(rest)) == actions + [e.value.id.action] + ActionsOf(rest);
  }

  lemma ToGoDone(start: Table<ScheduledTask>, time: nat, ran0: seq<Entry<Task<ScheduledTask>>>, actions0: seq<nat>,
                 table: Table<ScheduledTask>, ran: seq<Entry<Task<ScheduledTask>>>, actions: seq<nat>)
    requires ToGo(start, time, ran0, actions0, table, ran, actions)
    requires table.entries == [] || table.entries[0].key > time
    ensures Multimaps.Valid(start) && Halts(start, time)
    ensures table == Drain(start, time).0
    ensures ran == ran0 + Drain(start, time).1
    ensures actions == actions0 + ActionsOf(Drain(start, time).1)
  {
  }

  ghost predicate Holds(task: ScheduledTask, held: Task<ScheduledTask>)
    reads task
  {
    held == Task(task, task.interval, task.count)
  }

  lemma OthersDiffer(m: Table<ScheduledTask>)
    requires m.entries != [] && Multimaps.Valid(m) && UniqueTasks(m)
    ensures forall i :: 0 < i < |m.entries| ==> m.entries[i].value.id != m.entries[0].value.id
  {
    forall i | 0 < i < |m.entries| ensures m.entries[i].value.id != m.entries[0].value.id {
      assert m.entries[i] in m.entries && m.entries[0] in m.entries && Before(m.entries[0], m.entries[i]);
    }
  }

  ghost function ActionsOf(ran: seq<Entry<Task<ScheduledTask>>>): seq<nat> {
    if ran == [] then [] else [ran[0].value.id.action] + ActionsOf(ran[1..])
  }

  lemma ActionsOfCons(e: Entry<Task<ScheduledTask>>, ran: seq<Entry<Task<ScheduledTask>>>)
    ensures ActionsOf([e] + ran) == [e.value.id.action] + ActionsOf(ran)
  {
    assert ([e] + ran)[1..] == ran;
  }
}
