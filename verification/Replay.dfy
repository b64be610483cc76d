/** What the replayer does to its table of sources, as functions on values: a merge of the
    sources by time, with filler events in gaps longer than the timeout. */
module Replay {
  import opened Multimaps
  import opened Options
  import opened Division

  /** One position of a source: its time and, for a CSV source, its row. */
  datatype Reading = Reading(time: nat, row: seq<string>)

  /** A source in the table: where it is, and what `moveNext` will still yield. */
  datatype Source<+S> = Source(id: S, at: Reading, rest: seq<Reading>)

  type Queue<+S> = Multimap<Source<S>>

  /** `addDataSource` on a source whose current time is time. */
  function Add<S>(q: Queue<S>, id: S, time: nat, upcoming: seq<Reading>): Queue<S> {
    if upcoming == [] || upcoming[0].time == 0 || upcoming[0].time < time then q
    else Emplace(q, upcoming[0].time, Source(id, upcoming[0], upcoming[1..]))
  }

  /** Takes the head out and moves its source on. */
  function Advance<S>(q: Queue<S>): Queue<S>
    requires q.entries != []
  {
    var s := q.entries[0].value;
    Add(PopFront(q), s.id, s.at.time, s.rest)
  }

  datatype State<+S> = State(queue: Queue<S>, clock: nat, current: Option<S>, complete: bool)

  /** The main action ran: at a filler, or on a source's reading. */
  datatype Event<+S> = Filler(time: nat) | Dispatch(entry: Entry<Source<S>>)
  {
    function Time(): nat {
      if Filler? then time else entry.value.at.time
    }
  }

  /** One `execute`: the next state and the event, none when it completes. */
  function Step<S>(s: State<S>, timeout: nat): (State<S>, Option<Event<S>>) {
    if s.queue.entries == [] then (s.(complete := true), None)
    else
      var head := s.queue.entries[0];
      if timeout > 0 && s.clock > 0 && head.value.at.time > s.clock + timeout then
        (s.(current := None, clock := s.clock + timeout), Some(Filler(s.clock + timeout)))
      else
        (State(Advance(s.queue), head.value.at.time, Some(head.value.id), s.complete), Some(Dispatch(head)))
  }

  // ---- Invariants ----

  /** Each key is the time its source is at. */
  ghost predicate Keyed<S>(q: Queue<S>) {
    forall e :: e in q.entries ==> e.key == e.value.at.time
  }

  ghost predicate Distinct<S>(q: Queue<S>) {
    forall x, y :: x in q.entries && y in q.entries && x.value.id == y.value.id ==> x == y
  }

  ghost predicate Ok<S>(q: Queue<S>) {
    Valid(q) && Keyed(q) && Distinct(q)
  }

  lemma AddEntries<S>(q: Queue<S>, id: S, time: nat, upcoming: seq<Reading>)
    ensures forall y :: y in q.entries ==> y in Add(q, id, time, upcoming).entries
    ensures forall y :: y in Add(q, id, time, upcoming).entries ==>
              || y in q.entries
              || (&& upcoming != [] && time <= upcoming[0].time && 0 < upcoming[0].time
                  && y == Entry(upcoming[0].time, q.nextSerial, Source(id, upcoming[0], upcoming[1..])))
    ensures upcoming != [] && 0 < upcoming[0].time && time <= upcoming[0].time
            ==> Entry(upcoming[0].time, q.nextSerial, Source(id, upcoming[0], upcoming[1..]))
                in Add(q, id, time, upcoming).entries
  {
    if upcoming != [] {
      EmplaceEntries(q, upcoming[0].time, Source(id, upcoming[0], upcoming[1..]));
    }
  }

  lemma AddKeepsOk<S>(q: Queue<S>, id: S, time: nat, upcoming: seq<Reading>)
    requires Ok(q) && forall e :: e in q.entries ==> e.value.id != id
    ensures Ok(Add(q, id, time, upcoming))
  {
    hide Valid, Emplace;
    AddEntries(q, id, time, upcoming);
    if upcoming != [] {
      EmplaceKeepsValid(q, upcoming[0].time, Source(id, upcoming[0], upcoming[1..]));
    }
  }

  lemma PopKeepsOk<S>(q: Queue<S>)
    requires q.entries != [] && Ok(q)
    ensures Ok(PopFront(q))
    ensures AllAfter(q.entries[0], PopFront(q))
    ensures forall e :: e in PopFront(q).entries ==> e in q.entries && e.value.id != q.entries[0].value.id
    ensures forall e :: e in q.entries && e != q.entries[0] ==> e in PopFront(q).entries
  {
    PopFrontKeepsValid(q);
    assert q.entries[0] in q.entries;
    assert q.entries == [q.entries[0]] + PopFront(q).entries;
  }

  /** The one new entry an advance may put in, when the source goes on. */
  ghost predicate GoesOn<S>(s: Source<S>) {
    s.rest != [] && 0 < s.rest[0].time && s.at.time <= s.rest[0].time
  }

  function Successor<S>(q: Queue<S>): Entry<Source<S>>
    requires q.entries != [] && q.entries[0].value.rest != []
  {
    var s := q.entries[0].value;
    Entry(s.rest[0].time, q.nextSerial, Source(s.id, s.rest[0], s.rest[1..]))
  }

  lemma AdvanceKeepsOk<S>(q: Queue<S>)
    requires q.entries != [] && Ok(q)
    ensures Ok(Advance(q))
    ensures AllAfter(q.entries[0], Advance(q))
    ensures forall e :: e in Advance(q).entries && e.value.id != q.entries[0].value.id ==> e in q.entries
    ensures forall e :: e in q.entries && e != q.entries[0] ==> e in Advance(q).entries
    ensures GoesOn(q.entries[0].value) ==> Successor(q) in Advance(q).entries
    ensures !GoesOn(q.entries[0].value) ==> forall e :: e in Advance(q).entries ==> e.value.id != q.entries[0].value.id
  {
    hide Valid, Emplace, Distinct, Add;
    var h := q.entries[0];
    var s := h.value;
    assert h in q.entries && h.key == s.at.time;
    PopKeepsOk(q);
    assert h.serial < q.nextSerial by { HeadSerial(q); }
    AddKeepsOk(PopFront(q), s.id, s.at.time, s.rest);
    AddEntries(PopFront(q), s.id, s.at.time, s.rest);
  }

  /** The multimap of the code, which holds only the sources themselves. */
  ghost predicate Mirrors<S>(sources: Multimap<S>, q: Queue<S>) {
    && SameKeys(sources, q)
    && forall i :: 0 <= i < |q.entries| ==> sources.entries[i].value == q.entries[i].value.id
  }

  lemma EmplaceKeepsMirror<S>(sources: Multimap<S>, q: Queue<S>, key: nat, s: Source<S>)
    requires Mirrors(sources, q)
    ensures Mirrors(Emplace(sources, key, s.id), Emplace(q, key, s))
  {
    hide Emplace;
    EmplaceKeepsSameKeys(sources, q, key, s.id, s);
  }

  // ---- The merge ----

  ghost function Pending<S>(entries: seq<Entry<Source<S>>>): nat {
    if entries == [] then 0 else 1 + |entries[0].value.rest| + Pending(entries[1..])
  }

  lemma {:induction false} PendingConcat<S>(a: seq<Entry<Source<S>>>, b: seq<Entry<Source<S>>>)
    ensures Pending(a + b) == Pending(a) + Pending(b)
  {
    if a == [] {
      assert a + b == b;
    } else {
      assert (a + b)[1..] == a[1..] + b;
      PendingConcat(a[1..], b);
    }
  }

  /** Each dispatch uses up a reading. */
  lemma AdvancePends<S>(q: Queue<S>)
    requires q.entries != []
    ensures Pending(Advance(q).entries) < Pending(q.entries)
  {
    var s, rest := q.entries[0].value, q.entries[1..];
    if GoesOn(s) {
      var e := Successor(q);
      var p := UpperBound(rest, e.key);
      assert Advance(q).entries == rest[..p] + [e] + rest[p..];
      PendingConcat(rest[..p] + [e], rest[p..]);
      PendingConcat(rest[..p], [e]);
      PendingConcat(rest[..p], rest[p..]);
      assert rest == rest[..p] + rest[p..];
    } else {
      assert Advance(q).entries == rest;
    }
  }

  /** The table entries dispatched until the table is empty, in order. */
  ghost function Dispatches<S>(q: Queue<S>): seq<Entry<Source<S>>>
    decreases Pending(q.entries)
  {
    if q.entries == [] then []
    else
      AdvancePends(q);
      [q.entries[0]] + Dispatches(Advance(q))
  }

  lemma DispatchesCons<S>(q: Queue<S>)
    requires q.entries != []
    ensures Dispatches(q) == [q.entries[0]] + Dispatches(Advance(q))
    ensures Pending(Advance(q).entries) < Pending(q.entries)
  {
    AdvancePends(q);
  }

  /** Dispatched times never decrease; among equal times the source queued first goes first. */
  lemma {:induction false} DispatchOrder<S>(q: Queue<S>)
    requires Ok(q)
    ensures var ds := Dispatches(q);
            && (ds != [] <==> q.entries != [])
            && (ds != [] ==> ds[0] == q.entries[0])
            && (forall i, j :: 0 <= i < j < |ds| ==> Before(ds[i], ds[j]))
            && (forall i :: 0 <= i < |ds| ==> ds[i].key == ds[i].value.at.time)
    decreases Pending(q.entries)
  {
    hide Ok, Advance, Pending;
    if q.entries == [] {
    } else {
      DispatchesCons(q);
      AdvanceKeepsOk(q);
      DispatchOrder(Advance(q));
      HeadKeyed(q);
      var ds, rest := Dispatches(q), Dispatches(Advance(q));
      assert rest != [] ==> Before(ds[0], rest[0]);
      forall i, j | 0 <= i < j < |ds| ensures Before(ds[i], ds[j]) {
        if i > 0 {
          assert ds[i] == rest[i - 1] && ds[j] == rest[j - 1];
        } else if j > 1 {
          assert Before(rest[0], rest[j - 1]);
        }
      }
    }
  }

  lemma HeadKeyed<S>(q: Queue<S>)
    requires q.entries != [] && Ok(q)
    ensures q.entries[0].key == q.entries[0].value.at.time
  {
    assert q.entries[0] in q.entries;
  }

  /** The readings of one source among the dispatched entries. */
  ghost function ReadingsOf<S>(ds: seq<Entry<Source<S>>>, id: S): seq<Reading> {
    if ds == [] then []
    else (if ds[0].value.id == id then [ds[0].value.at] else []) + ReadingsOf(ds[1..], id)
  }

  /** The readings a source gets to play: up to its end, its first time of 0, or its first
      time that goes back. */
  function Accepted(time: nat, upcoming: seq<Reading>): seq<Reading>
    decreases |upcoming|
  {
    if upcoming == [] || upcoming[0].time == 0 || upcoming[0].time < time then []
    else [upcoming[0]] + Accepted(upcoming[0].time, upcoming[1..])
  }

  /** Positive, and not before the reading in front of it. */
  ghost predicate InOrderAt(time: nat, rs: seq<Reading>, i: nat)
    requires i < |rs|
  {
    rs[i].time > 0 && rs[i].time >= if i == 0 then time else rs[i - 1].time
  }

  ghost predicate InOrder(time: nat, rs: seq<Reading>) {
    forall i :: 0 <= i < |rs| ==> InOrderAt(time, rs, i)
  }

  /** The played readings are the longest prefix in order: they stop only at the end or at a
      reading that is not in order. */
  lemma {:induction false} AcceptedIsLongest(time: nat, upcoming: seq<Reading>)
    ensures var n := |Accepted(time, upcoming)|;
            && n <= |upcoming| && Accepted(time, upcoming) == upcoming[..n]
            && InOrder(time, upcoming[..n])
            && (n < |upcoming| ==> !InOrder(time, upcoming[..n + 1]))
    decreases |upcoming|
  {
    if upcoming != [] && 0 < upcoming[0].time && time <= upcoming[0].time {
      var n := |Accepted(time, upcoming)|;
      AcceptedIsLongest(upcoming[0].time, upcoming[1..]);
      InOrderCons(time, upcoming, n);
      if n < |upcoming| {
        InOrderCons(time, upcoming, n + 1);
      }
    } else if upcoming != [] {
      assert !InOrderAt(time, upcoming[..1], 0);
    }
  }

  lemma InOrderCons(time: nat, rs: seq<Reading>, n: nat)
    requires 0 < n <= |rs| && rs[0].time > 0 && rs[0].time >= time
    ensures InOrder(time, rs[..n]) <==> InOrder(rs[0].time, rs[1..][..n - 1])
  {
    var a, b := rs[..n], rs[1..][..n - 1];
    if InOrder(time, a) {
      forall i | 0 <= i < n - 1 ensures InOrderAt(rs[0].time, b, i) {
        assert InOrderAt(time, a, i + 1) && b[i] == a[i + 1];
      }
    }
    if InOrder(rs[0].time, b) {
      forall i | 0 <= i < n ensures InOrderAt(time, a, i) {
        assert i > 0 ==> InOrderAt(rs[0].time, b, i - 1) && b[i - 1] == a[i];
      }
    }
  }

  lemma ReadingsOfCons<S>(e: Entry<Source<S>>, ds: seq<Entry<Source<S>>>, id: S)
    ensures ReadingsOf([e] + ds, id) == (if e.value.id == id then [e.value.at] else []) + ReadingsOf(ds, id)
  {
    assert ([e] + ds)[1..] == ds;
  }

  lemma {:induction false} AbsentSource<S>(q: Queue<S>, id: S)
    requires Ok(q) && forall e :: e in q.entries ==> e.value.id != id
    ensures ReadingsOf(Dispatches(q), id) == []
    decreases Pending(q.entries)
  {
    hide Ok, Advance, Pending;
    if q.entries == [] {
    } else {
      assert q.entries[0] in q.entries;
      DispatchesCons(q);
      AdvanceKeepsOk(q);
      ReadingsOfCons(q.entries[0], Dispatches(Advance(q)), id);
      AbsentSource(Advance(q), id);
    }
  }

  /** Whatever the other sources do, a queued source plays exactly its readings in order. */
  lemma {:induction false} QueuedSource<S>(q: Queue<S>, e: Entry<Source<S>>)
    requires Ok(q) && e in q.entries
    ensures ReadingsOf(Dispatches(q), e.value.id) == [e.value.at] + Accepted(e.value.at.time, e.value.rest)
    decreases Pending(q.entries)
  {
    hide Ok, Advance, Pending;
    var h := q.entries[0];
    DispatchesCons(q);
    AdvanceKeepsOk(q);
    ReadingsOfCons(h, Dispatches(Advance(q)), e.value.id);
    if e != h {
      assert e.value.id != h.value.id by { OtherId(q, e); }
      QueuedSource(Advance(q), e);
    } else if GoesOn(h.value) {
      QueuedSource(Advance(q), Successor(q));
    } else {
      AbsentSource(Advance(q), e.value.id);
    }
  }

  lemma OtherId<S>(q: Queue<S>, e: Entry<Source<S>>)
    requires Ok(q) && e in q.entries && e != q.entries[0]
    ensures e.value.id != q.entries[0].value.id
  {
    assert q.entries[0] in q.entries;
  }

  // ---- Sources added before the replay starts ----

  /** A source as it is handed to `addDataSource`. */
  datatype Input<+S> = Input(id: S, time: nat, upcoming: seq<Reading>)

  function AddAll<S>(inputs: seq<Input<S>>): Queue<S> {
    if inputs == [] then Multimap([], 0)
    else
      var last := inputs[|inputs| - 1];
      Add(AddAll(inputs[..|inputs| - 1]), last.id, last.time, last.upcoming)
  }

  ghost predicate DistinctInputs<S>(inputs: seq<Input<S>>) {
    forall i, j :: 0 <= i < j < |inputs| ==> inputs[i].id != inputs[j].id
  }

  /** The table holds each source that has a first reading to play, at that reading. */
  ghost predicate QueuedFrom<S>(input: Input<S>, q: Queue<S>) {
    var u := input.upcoming;
    if Accepted(input.time, u) == [] then forall e :: e in q.entries ==> e.value.id != input.id
    else exists e :: e in q.entries && e.value == Source(input.id, u[0], u[1..])
  }

  lemma {:induction false} AddAllQueues<S>(inputs: seq<Input<S>>)
    requires DistinctInputs(inputs)
    ensures Ok(AddAll(inputs))
    ensures forall i :: 0 <= i < |inputs| ==> QueuedFrom(inputs[i], AddAll(inputs))
    ensures forall e :: e in AddAll(inputs).entries ==> exists i :: 0 <= i < |inputs| && inputs[i].id == e.value.id
  {
    if inputs == [] {
    } else {
      var n := |inputs| - 1;
      var before, last := inputs[..n], inputs[n];
      AddAllQueues(before);
      AddOneQueues(before, last, AddAll(before));
      assert before + [last] == inputs;
    }
  }

  lemma AddOneQueues<S>(before: seq<Input<S>>, last: Input<S>, q: Queue<S>)
    requires DistinctInputs(before + [last]) && Ok(q)
    requires forall i :: 0 <= i < |before| ==> QueuedFrom(before[i], q)
    requires forall e :: e in q.entries ==> exists i :: 0 <= i < |before| && before[i].id == e.value.id
    ensures var q', inputs := Add(q, last.id, last.time, last.upcoming), before + [last];
            && Ok(q')
            && (forall i :: 0 <= i < |inputs| ==> QueuedFrom(inputs[i], q'))
            && (forall e :: e in q'.entries ==> exists i :: 0 <= i < |inputs| && inputs[i].id == e.value.id)
  {
    hide Ok, Add;
    var inputs := before + [last];
    forall e | e in q.entries ensures e.value.id != last.id {
      var i :| 0 <= i < |before| && before[i].id == e.value.id;
      assert inputs[i].id != inputs[|before|].id;
    }
    AddKeepsOk(q, last.id, last.time, last.upcoming);
    AddEntries(q, last.id, last.time, last.upcoming);
    var q' := Add(q, last.id, last.time, last.upcoming);
    forall i | 0 <= i < |inputs| ensures QueuedFrom(inputs[i], q') {
      if i < |before| {
        assert inputs[i] == before[i] && QueuedFrom(before[i], q);
        assert inputs[i].id != inputs[|before|].id;
      }
    }
    forall e | e in q'.entries ensures exists i :: 0 <= i < |inputs| && inputs[i].id == e.value.id {
      if e in q.entries {
        var i :| 0 <= i < |before| && before[i].id == e.value.id;
        assert inputs[i].id == e.value.id;
      } else {
        assert inputs[|before|].id == e.value.id;
      }
    }
  }

  /** Replaying distinct sources dispatches of each exactly the longest prefix of its readings
      that is positive and nondecreasing, in order, and nothing else. */
  lemma ReplayMerges<S>(inputs: seq<Input<S>>)
    requires DistinctInputs(inputs)
    ensures forall i :: 0 <= i < |inputs| ==>
              ReadingsOf(Dispatches(AddAll(inputs)), inputs[i].id) == Accepted(inputs[i].time, inputs[i].upcoming)
    ensures forall id :: (forall i :: 0 <= i < |inputs| ==> inputs[i].id != id)
              ==> ReadingsOf(Dispatches(AddAll(inputs)), id) == []
  {
    hide Ok, Dispatches, AddAll, ReadingsOf;
    AddAllQueues(inputs);
    var q := AddAll(inputs);
    forall i | 0 <= i < |inputs|
      ensures ReadingsOf(Dispatches(q), inputs[i].id) == Accepted(inputs[i].time, inputs[i].upcoming)
    {
      var input := inputs[i];
      assert QueuedFrom(input, q);
      if Accepted(input.time, input.upcoming) == [] {
        AbsentSource(q, input.id);
      } else {
        var e :| e in q.entries && e.value == Source(input.id, input.upcoming[0], input.upcoming[1..]);
        QueuedSource(q, e);
      }
    }
    forall id | forall i :: 0 <= i < |inputs| ==> inputs[i].id != id
      ensures ReadingsOf(Dispatches(q), id) == []
    {
      AbsentSource(q, id);
    }
  }

  // ---- The clock ----

  /** No queued reading lies behind the clock. */
  ghost predicate ClockBehind<S>(s: State<S>) {
    forall e :: e in s.queue.entries ==> s.clock <= e.key
  }

  /** Every execute keeps the table in order, keyed by its sources' current times, and not
      behind the clock; the clock never goes back, and moves by at most a positive timeout
      once it is nonzero. */
  lemma StepKeepsClock<S>(s: State<S>, timeout: nat)
    requires Ok(s.queue) && ClockBehind(s)
    ensures var s' := Step(s, timeout).0;
            && Ok(s'.queue) && ClockBehind(s') && s.clock <= s'.clock
            && (timeout > 0 && s.clock > 0 ==> s'.clock <= s.clock + timeout)
  {
    hide Ok, Advance;
    if s.queue.entries != [] {
      var h := s.queue.entries[0];
      HeadKeyed(s.queue);
      assert h in s.queue.entries;
      AdvanceKeepsOk(s.queue);
      HeadFirst(s.queue);
    }
  }

  lemma HeadFirst<S>(q: Queue<S>)
    requires q.entries != [] && Ok(q)
    ensures forall e :: e in q.entries ==> q.entries[0].key <= e.key
  {
  }

  // ---- Timeouts ----

  /** The events of a whole run from s, until it completes. */
  ghost function Run<S>(s: State<S>, timeout: nat): seq<Event<S>>
    decreases Pending(s.queue.entries), if s.queue.entries == [] then 0 else s.queue.entries[0].value.at.time - s.clock
  {
    if s.queue.entries == [] then []
    else
      AdvancePends(s.queue);
      var (s', event) := Step(s, timeout);
      [event.value] + Run(s', timeout)
  }

  /** Dispatches with fillers put in front of each that is more than a timeout away. */
  ghost function Fill<S>(clock: nat, timeout: nat, ds: seq<Entry<Source<S>>>): seq<Event<S>>
    decreases |ds|, if ds == [] then 0 else ds[0].value.at.time - clock
  {
    if ds == [] then []
    else if timeout > 0 && clock > 0 && ds[0].value.at.time > clock + timeout then
      [Filler(clock + timeout)] + Fill(clock + timeout, timeout, ds)
    else
      [Dispatch(ds[0])] + Fill(ds[0].value.at.time, timeout, ds[1..])
  }

  /** A timeout adds fillers and changes nothing else: the dispatches, their order and their
      times are those of the merge without one. */
  lemma {:induction false} RunIsFilledMerge<S>(s: State<S>, timeout: nat)
    ensures Run(s, timeout) == Fill(s.clock, timeout, Dispatches(s.queue))
    decreases Pending(s.queue.entries), if s.queue.entries == [] then 0 else s.queue.entries[0].value.at.time - s.clock
  {
    hide Advance, Pending;
    if s.queue.entries == [] {
    } else {
      DispatchesCons(s.queue);
      var rest := Dispatches(Advance(s.queue));
      assert ([s.queue.entries[0]] + rest)[1..] == rest;
      RunIsFilledMerge(Step(s, timeout).0, timeout);
    }
  }

  /** The real events of a run. */
  function Real<S>(events: seq<Event<S>>): seq<Entry<Source<S>>> {
    if events == [] then []
    else (if events[0].Dispatch? then [events[0].entry] else []) + Real(events[1..])
  }

  lemma {:induction false} FillKeepsReal<S>(clock: nat, timeout: nat, ds: seq<Entry<Source<S>>>)
    ensures Real(Fill(clock, timeout, ds)) == ds
    decreases |ds|, if ds == [] then 0 else ds[0].value.at.time - clock
  {
    if ds == [] {
    } else if timeout > 0 && clock > 0 && ds[0].value.at.time > clock + timeout {
      var rest := Fill(clock + timeout, timeout, ds);
      assert Fill(clock, timeout, ds) == [Filler(clock + timeout)] + rest;
      RealCons(Filler(clock + timeout), rest);
      FillKeepsReal(clock + timeout, timeout, ds);
    } else {
      var rest := Fill(ds[0].value.at.time, timeout, ds[1..]);
      assert Fill(clock, timeout, ds) == [Dispatch(ds[0])] + rest;
      RealCons(Dispatch(ds[0]), rest);
      FillKeepsReal(ds[0].value.at.time, timeout, ds[1..]);
    }
  }

  lemma RealCons<S>(event: Event<S>, events: seq<Event<S>>)
    ensures Real([event] + events) == (if event.Dispatch? then [event.entry] else []) + Real(events)
  {
    assert ([event] + events)[1..] == events;
  }

  /** n fillers, one timeout apart, starting one timeout after the clock. */
  ghost function Fillers<S>(clock: nat, timeout: nat, n: nat): seq<Event<S>>
    decreases n
  {
    if n == 0 then [] else [Filler(clock + timeout)] + Fillers(clock + timeout, timeout, n - 1)
  }

  /** The number of fillers in a gap g > 0: one less than g / timeout rounded up. */
  function FillerCount(gap: nat, timeout: nat): nat
    requires timeout > 0
  {
    if gap == 0 then 0 else (gap - 1) / timeout
  }

  lemma FillerCountStep(gap: nat, timeout: nat)
    requires timeout > 0
    ensures gap <= timeout ==> FillerCount(gap, timeout) == 0
    ensures gap > timeout ==> FillerCount(gap, timeout) == 1 + FillerCount(gap - timeout, timeout)
    ensures gap > 0 ==> FillerCount(gap, timeout) * timeout < gap <= (FillerCount(gap, timeout) + 1) * timeout
  {
    if gap > 0 {
      DivLess(gap - 1, timeout);
      var n := (gap - 1) / timeout;
      assert gap - 1 == n * timeout + (gap - 1) % timeout;
      assert (n + 1) * timeout == n * timeout + timeout;
    }
  }

  /** The gap in front of a real event, once the clock runs: exactly as many fillers as it
      takes for no step to exceed the timeout, then the event at its own time. */
  lemma {:induction false} GapFilled<S>(clock: nat, timeout: nat, ds: seq<Entry<Source<S>>>)
    requires ds != [] && 0 < timeout && 0 < clock <= ds[0].value.at.time
    ensures var time := ds[0].value.at.time;
            Fill(clock, timeout, ds)
            == Fillers(clock, timeout, FillerCount(time - clock, timeout))
               + [Dispatch(ds[0])] + Fill(time, timeout, ds[1..])
    decreases ds[0].value.at.time - clock
  {
    var time := ds[0].value.at.time;
    FillerCountStep(time - clock, timeout);
    if time > clock + timeout {
      hide FillerCount;
      GapFilled(clock + timeout, timeout, ds);
      var n := FillerCount(time - clock, timeout);
      var first: seq<Event<S>> := [Filler(clock + timeout)];
      var more: seq<Event<S>> := Fillers(clock + timeout, timeout, n - 1);
      assert Fill(clock, timeout, ds) == first + Fill(clock + timeout, timeout, ds);
      assert Fillers<S>(clock, timeout, n) == first + more;
      hide Fill, Fillers;
      var rest := Fill(time, timeout, ds[1..]);
      assert first + (more + [Dispatch(ds[0])] + rest) == first + more + [Dispatch(ds[0])] + rest;
    } else {
      assert Fillers<S>(clock, timeout, 0) == [];
      assert Fill(clock, timeout, ds) == [Dispatch(ds[0])] + Fill(time, timeout, ds[1..]);
      assert [] + [Dispatch(ds[0])] == [Dispatch(ds[0])];
    }
  }

  lemma NothingToFill<S>(timeout: nat)
    ensures Fill<S>(0, timeout, []) == []
  {
  }

  /** Before the clock runs there are no fillers: the first event is the first real one. */
  lemma FirstEvent<S>(timeout: nat, ds: seq<Entry<Source<S>>>)
    requires ds != []
    ensures Fill(0, timeout, ds) == [Dispatch(ds[0])] + Fill(ds[0].value.at.time, timeout, ds[1..])
  {
  }

  /** Each event of a run comes no earlier than the one before it, and, once the clock runs, at
      most a positive timeout later. */
  lemma {:induction false} RunSteps<S>(s: State<S>, timeout: nat, i: nat)
    requires Ok(s.queue) && ClockBehind(s) && i < |Run(s, timeout)|
    ensures var events := Run(s, timeout);
            var before := if i == 0 then s.clock else events[i - 1].Time();
            && before <= events[i].Time()
            && (timeout > 0 && before > 0 ==> events[i].Time() <= before + timeout)
    decreases i
  {
    hide Ok, Advance, ClockBehind, Run, Step;
    RunCons(s, timeout);
    StepKeepsClock(s, timeout);
    StepTime(s, timeout);
    if i == 0 {
    } else {
      RunSteps(Step(s, timeout).0, timeout, i - 1);
    }
  }

  /** The event of a step happens at the clock it leaves. */
  lemma StepTime<S>(s: State<S>, timeout: nat)
    requires s.queue.entries != []
    ensures Step(s, timeout).1.Some? && Step(s, timeout).1.value.Time() == Step(s, timeout).0.clock
  {
    hide Advance;
  }

  /** The whole replay of distinct sources added before it starts, with or without a timeout:
      of each source exactly its accepted readings, in order; the real events in time order with
      ties first come first served; time that never goes back; and no filler in front. */
  lemma ReplayComplete<S>(inputs: seq<Input<S>>, timeout: nat)
    requires DistinctInputs(inputs)
    ensures var events := Run(State(AddAll(inputs), 0, None, false), timeout);
            && (forall i :: 0 <= i < |inputs| ==>
                  ReadingsOf(Real(events), inputs[i].id) == Accepted(inputs[i].time, inputs[i].upcoming))
            && (forall i, j :: 0 <= i < j < |Real(events)| ==> Before(Real(events)[i], Real(events)[j]))
            && (forall i :: 0 < i < |events| ==> events[i - 1].Time() <= events[i].Time())
            && (events != [] ==> events[0].Dispatch?)
  {
    hide Ok, AddAll, Run, Fill, Dispatches, Real, ReadingsOf, Accepted;
    var q := AddAll(inputs);
    var s := State(q, 0, None, false);
    AddAllQueues(inputs);
    ReplayMerges(inputs);
    RunIsFilledMerge(s, timeout);
    FillKeepsReal(0, timeout, Dispatches(q));
    if Dispatches(q) == [] {
      NothingToFill<S>(timeout);
    } else {
      FirstEvent(timeout, Dispatches(q));
    }
    DispatchOrder(q);
    forall i | 0 < i < |Run(s, timeout)| ensures Run(s, timeout)[i - 1].Time() <= Run(s, timeout)[i].Time() {
      RunSteps(s, timeout, i);
    }
  }

  // ---- Completion ----

  /** The state after n executes. */
  ghost function After<S>(s: State<S>, timeout: nat, n: nat): State<S>
    decreases n
  {
    if n == 0 then s else After(Step(s, timeout).0, timeout, n - 1)
  }

  /** The run completes on the execute after its last event, and no sooner. */
  lemma {:induction false} CompletesAfter<S>(s: State<S>, timeout: nat, n: nat)
    requires !s.complete
    ensures After(s, timeout, n).complete <==> n > |Run(s, timeout)|
    decreases n
  {
    hide Advance;
    if n == 0 {
    } else {
      if s.queue.entries == [] {
        StaysComplete(Step(s, timeout).0, timeout, n - 1);
      } else {
        CompletesAfter(Step(s, timeout).0, timeout, n - 1);
      }
    }
  }

  lemma {:induction false} StaysComplete<S>(s: State<S>, timeout: nat, n: nat)
    requires s.complete
    ensures After(s, timeout, n).complete
    decreases n
  {
    if n == 0 {
    } else {
      StaysComplete(Step(s, timeout).0, timeout, n - 1);
    }
  }

  lemma RunCons<S>(s: State<S>, timeout: nat)
    ensures s.queue.entries == [] <==> Run(s, timeout) == []
    ensures s.queue.entries == [] <==> Step(s, timeout).1 == None
    ensures Step(s, timeout).0.complete <==> s.complete || s.queue.entries == []
    ensures s.queue.entries != []
            ==> Run(s, timeout) == [Step(s, timeout).1.value] + Run(Step(s, timeout).0, timeout)
  {
    hide Advance;
  }
}
