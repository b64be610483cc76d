/** `TimeSeriesReplayer`, updated in place over series objects, against the functions of
    Replay. */
module Replayer {
  import opened Clocks
  import opened Multimaps
  import opened Options
  import opened Replay
  import opened Series

  /** The object is the series the table entry describes. */
  ghost predicate Matches(s: Source<TimeSeries>)
    reads s.id, s.id.footprint, if s.id.kind.CsvSeries? then {s.id.kind.parser} else {}
  {
    s.id.Valid() && s.id.time == s.at.time && s.id.at == s.at && s.id.upcoming == s.rest && s.id.AtRow()
  }

  /** Which line `addDataSource` logs, if any. */
  datatype Outcome = Added | FinishedSource | UnorderedSource

  datatype Sight = Sight(time: nat, source: TimeSeries?, row: seq<string>)

  /** The main action saw the event: a filler has no source; a dispatch shows its source, at
      its own time, and for a CSV series the dispatched row. */
  ghost predicate Saw(sight: Sight, event: Event<TimeSeries>) {
    match event
    case Filler(time) => sight == Sight(time, null, [])
    case Dispatch(e) =>
      && sight.source == e.value.id && sight.time == e.value.at.time
      && (e.value.id.kind.CsvSeries? ==> sight.row == e.value.at.row)
  }

  class TimeSeriesReplayer {
    const simulatedClock: Clock
    const completed: Latch
    const timeout: nat
    var dataSources: Multimap<TimeSeries>
    var currentDataSource: TimeSeries?
    /** The table with each series replaced by where it is and what it will still yield. */
    ghost var queue: Queue<TimeSeries>
    ghost var owned: set<object>

    ghost predicate Valid()
      reads this, owned
    {
      && this !in owned && simulatedClock !in owned && completed !in owned
      && Ok(queue) && Mirrors(dataSources, queue)
      && (forall x :: x in queue.entries ==> Held(x.value))
      && (forall x, y :: x in queue.entries && y in queue.entries && x != y ==>
            x.value.id.footprint !! y.value.id.footprint)
    }

    ghost predicate Held(s: Source<TimeSeries>)
      reads this`owned, owned
    {
      && s.id in owned && s.id.footprint <= owned && s.id in s.id.footprint
      && (s.id.kind.CsvSeries? ==> s.id.kind.parser in s.id.footprint)
      && Matches(s)
    }

    ghost function State(): State<TimeSeries>
      reads this, simulatedClock, completed
    {
      Replay.State(queue, simulatedClock.time,
                   if currentDataSource == null then None else Some(currentDataSource), completed.value)
    }

    constructor (simulatedClock: Clock, completed: Latch, timeout: nat)
      ensures Valid() && owned == {} && queue == AddAll<TimeSeries>([])
      ensures this.simulatedClock == simulatedClock && this.completed == completed && this.timeout == timeout
      ensures currentDataSource == null
    {
      this.simulatedClock, this.completed, this.timeout := simulatedClock, completed, timeout;
      dataSources, currentDataSource := Multimap([], 0), null;
      queue, owned := Multimap([], 0), {};
    }

    method AddDataSource(dataSource: TimeSeries) returns (outcome: Outcome)
      requires Valid() && dataSource.Valid()
      requires this !in dataSource.footprint
      requires simulatedClock !in dataSource.footprint && completed !in dataSource.footprint
      requires forall x :: x in queue.entries ==> x.value.id.footprint !! dataSource.footprint
      modifies this`dataSources, this`queue, this`owned, dataSource.footprint
      ensures Valid() && owned == old(owned) + dataSource.footprint
      ensures queue == Add(old(queue), dataSource, old(dataSource.time), old(dataSource.upcoming))
      ensures var upcoming := old(dataSource.upcoming);
              outcome == if upcoming == [] || upcoming[0].time == 0 then FinishedSource
                         else if upcoming[0].time < old(dataSource.time) then UnorderedSource else Added
      ensures dataSource.kind.CsvSeries? && old(dataSource.AtRow())
              ==> dataSource.kind.parser.LastValues() == old(dataSource.at.row)
    {
      hide Ok, Emplace, Mirrors, TimeSeries.Valid, TimeSeries.AtRow;
      ghost var before, upcoming := queue, dataSource.upcoming;
      var time := dataSource.time;
      InFootprint(dataSource);
      AddKeepsOk(queue, dataSource, time, upcoming);
      var moved := dataSource.MoveNext();
      InFootprint(dataSource);
      var nextTime := dataSource.time;
      owned := owned + dataSource.footprint;
      assert forall x :: x in queue.entries ==> Held(x.value);
      if !moved || nextTime == 0 {
        return FinishedSource;
      } else if nextTime < time {
        return UnorderedSource;
      }
      ghost var source := Source(dataSource, dataSource.at, dataSource.upcoming);
      assert queue == before && Add(before, dataSource, time, upcoming) == Emplace(queue, nextTime, source);
      assert Held(source);
      Enqueue(dataSource, nextTime, source);
      return Added;
    }

    /** Puts a series into the table at its time. */
    method Enqueue(dataSource: TimeSeries, nextTime: nat, ghost source: Source<TimeSeries>)
      requires Valid() && Held(source) && source.id == dataSource && Ok(Emplace(queue, nextTime, source))
      requires forall x :: x in queue.entries ==> x.value.id.footprint !! dataSource.footprint
      modifies this`dataSources, this`queue
      ensures Valid() && queue == Emplace(old(queue), nextTime, source)
    {
      hide Ok, Emplace, Mirrors, Held;
      EmplaceEntries(queue, nextTime, source);
      EmplaceKeepsMirror(dataSources, queue, nextTime, source);
      dataSources := Emplace(dataSources, nextTime, dataSource);
      queue := Emplace(queue, nextTime, source);
    }

    /** Takes the head out of the table. */
    method EraseHead() returns (dataSource: TimeSeries)
      requires Valid() && dataSources.entries != []
      modifies this`dataSources, this`queue
      ensures Valid() && queue == PopFront(old(queue))
      ensures dataSource == old(queue).entries[0].value.id && Held(old(queue).entries[0].value)
      ensures forall x :: x in queue.entries ==> x.value.id.footprint !! dataSource.footprint
    {
      hide Multimaps.Valid, Keyed, Distinct, TimeSeries.Valid, TimeSeries.AtRow;
      dataSource := dataSources.entries[0].value;
      assert queue.entries[0] in queue.entries;
      PopKeepsOk(queue);
      dataSources := PopFront(dataSources);
      queue := PopFront(queue);
    }

    /** One event: dispatches the earliest reading, or a filler when it is more than a timeout
        away; with no source left the replay is complete.  When the main action would run, a
        CSV current source shows the very row whose time column set the clock. */
    method Execute()
      requires Valid()
      modifies this, simulatedClock, completed, owned
      ensures Valid() && owned == old(owned)
      ensures State() == Step(old(State()), timeout).0
      ensures ShowsRow(Step(old(State()), timeout).1)
    {
      hide Ok, Emplace, Matches, TimeSeries.Valid, TimeSeries.AtRow;
      if dataSources.entries == [] {
        completed.value := true;
        return;
      }
      var dataSource := dataSources.entries[0].value;
      ghost var head := queue.entries[0];
      assert head in queue.entries && Held(head.value);
      HeldMatches(head.value);
      var time := dataSource.time;
      var lastTime := simulatedClock.time;
      if timeout > 0 && lastTime > 0 && time > lastTime + timeout {
        currentDataSource := null;
        simulatedClock.time := lastTime + timeout;
      } else {
        currentDataSource := dataSource;
        simulatedClock.time := time;
        var _ := EraseHead();
        HeldMatches(head.value);
        var _ := AddDataSource(dataSource);
      }
    }

    /** The main loop: executes until the replay is complete.  What the main action saw, event
        by event, is the run of the merge with its fillers. */
    method RunToCompletion() returns (sights: seq<Sight>, ghost events: seq<Event<TimeSeries>>)
      requires Valid() && !completed.value
      modifies this, simulatedClock, completed, owned
      ensures Valid() && completed.value
      ensures events == Run(old(State()), timeout)
      ensures |sights| == |events| && forall i :: 0 <= i < |sights| ==> Saw(sights[i], events[i])
    {
      hide Run, Step, Valid, Saw, State;
      sights, events := [], [];
      ghost var all := Run(State(), timeout);
      while !completed.value
        invariant Valid() && owned == old(owned)
        invariant if completed.value then all == events else all == events + Run(State(), timeout)
        invariant |sights| == |events| && forall i :: 0 <= i < |sights| ==> Saw(sights[i], events[i])
        decreases if completed.value then 0 else 1 + |Run(State(), timeout)|
      {
        ghost var event;
        var sight;
        sight, event := Turn();
        if sight.Some? {
          assert events + ([event.value] + Run(State(), timeout)) == events + [event.value] + Run(State(), timeout);
          sights, events := sights + [sight.value], events + [event.value];
        }
      }
    }

    /** One turn of the main loop: execute, and unless that completed the replay, the main
        action. */
    method Turn() returns (sight: Option<Sight>, ghost event: Option<Event<TimeSeries>>)
      requires Valid() && !completed.value
      modifies this, simulatedClock, completed, owned
      ensures Valid() && owned == old(owned)
      ensures completed.value <==> sight.None?
      ensures event.Some? <==> sight.Some?
      ensures sight.None? ==> Run(old(State()), timeout) == []
      ensures sight.Some? ==>
                Saw(sight.value, event.value) && Run(old(State()), timeout) == [event.value] + Run(State(), timeout)
    {
      hide Run, Step, Ok, Mirrors, Saw;
      ghost var before := State();
      RunCons(before, timeout);
      Execute();
      sight, event := None, Step(before, timeout).1;
      if !completed.value {
        var seen := Look();
        SightOf(before, seen);
        sight := Some(seen);
      }
    }

    /** What the main action can see: the clock, the current source, and its row if it is a
        CSV series. */
    method Look() returns (sight: Sight)
      ensures sight == Sight(simulatedClock.time, currentDataSource,
                               if currentDataSource != null && currentDataSource.kind.CsvSeries?
                               then currentDataSource.kind.parser.LastValues() else [])
    {
      var row := [];
      if currentDataSource != null {
        match currentDataSource.kind
        case CsvSeries(parser, _) => row := parser.LastValues();
        case JitterSeries(_, _, _, _) =>
      }
      return Sight(simulatedClock.time, currentDataSource, row);
    }

    lemma SightOf(before: State<TimeSeries>, sight: Sight)
      requires State() == Step(before, timeout).0 && Step(before, timeout).1.Some?
      requires ShowsRow(Step(before, timeout).1)
      requires sight == Sight(simulatedClock.time, currentDataSource,
                               if currentDataSource != null && currentDataSource.kind.CsvSeries?
                               then currentDataSource.kind.parser.LastValues() else [])
      ensures Saw(sight, Step(before, timeout).1.value)
    {
      hide Advance;
    }

    /** At a dispatch the current source is the dispatched one, at the dispatched time, and if
        it is a CSV series its `values()` is the dispatched row. */
    ghost predicate ShowsRow(event: Option<Event<TimeSeries>>)
      reads this, simulatedClock
      reads if currentDataSource != null && currentDataSource.kind.CsvSeries?
            then {currentDataSource.kind.parser} else {}
    {
      event.Some? && event.value.Dispatch? ==>
        var s := event.value.entry.value;
        && currentDataSource == s.id && simulatedClock.time == s.at.time
        && (s.id.kind.CsvSeries? ==>
              var row, times := s.id.kind.parser.LastValues(), s.id.kind.times;
              && row == s.at.row && |row| > times.column && times.Converts(row)
              && simulatedClock.time == times.TimeOf(row))
    }
  }

  lemma HeldMatches(s: Source<TimeSeries>)
    requires Matches(s)
    ensures s.id.Valid() && s.id.time == s.at.time && s.id.at == s.at && s.id.upcoming == s.rest && s.id.AtRow()
    ensures s.id.kind.CsvSeries? ==>
              |s.at.row| > s.id.kind.times.column && s.id.kind.times.Converts(s.at.row)
              && s.at.time == s.id.kind.times.TimeOf(s.at.row)
  {
  }

  lemma InFootprint(o: TimeSeries)
    requires o.Valid()
    ensures o in o.footprint
    ensures o.kind.CsvSeries? ==> o.kind.parser in o.footprint
  {
  }
}
