/** `AsyncLog`: producers take a ticket and then push their message; the queue drops what does
    not fit; one consumer writes what arrives and reports every ticket it did not expect. */
module AsyncLog {
  import opened Buffers

  /** `LogMessage::maxLineLength` */
  const LINE_SIZE := 992

  // ---- Any number of producers ----

  /** held are the tickets taken and not yet pushed, reports the unexpected tickets. */
  datatype State = State(next: nat, held: seq<nat>, queue: seq<nat>, dropped: seq<nat>,
                         written: seq<nat>, expected: nat, reports: seq<nat>)

  /** Taking a ticket and pushing it are two steps: any held ticket may be pushed next. */
  datatype Event = Take | Push(k: nat) | Pop

  const START := State(0, [], [], [], [], 0, [])

  /** `execute` on one message. */
  function Write(s: State, ticket: nat): State {
    s.(written := s.written + [ticket], expected := ticket + 1,
       reports := if ticket != s.expected then s.reports + [ticket] else s.reports)
  }

  function Step(s: State, capacity: nat, e: Event): State {
    match e
    case Take => s.(next := s.next + 1, held := s.held + [s.next])
    case Push(k) =>
      if k >= |s.held| then s
      else
        var rest := s.(held := s.held[..k] + s.held[k + 1..]);
        if |s.queue| < capacity then rest.(queue := s.queue + [s.held[k]])
        else rest.(dropped := s.dropped + [s.held[k]])
    case Pop => if s.queue == [] then s else Write(s.(queue := s.queue[1..]), s.queue[0])
  }

  function Run(capacity: nat, events: seq<Event>): State {
    if events == [] then START
    else var n := |events| - 1; Step(Run(capacity, events[..n]), capacity, events[n])
  }

  /** 0, 1, ..., n - 1 */
  function Upto(n: nat): (r: seq<nat>)
    ensures |r| == n && forall i :: 0 <= i < n ==> r[i] == i
  {
    seq(n, i => i)
  }

  /** Where the tickets are. */
  ghost function Everywhere(s: State): multiset<nat> {
    multiset(s.held) + multiset(s.queue) + multiset(s.dropped) + multiset(s.written)
  }

  lemma UptoSnoc(n: nat)
    ensures Upto(n + 1) == Upto(n) + [n]
  {
  }

  lemma RemoveOne(ns: seq<nat>, k: nat)
    requires k < |ns|
    ensures multiset(ns) == multiset(ns[..k] + ns[k + 1..]) + multiset{ns[k]}
  {
    assert ns == ns[..k] + [ns[k]] + ns[k + 1..];
  }

  lemma PopFirst(ns: seq<nat>)
    requires ns != []
    ensures multiset(ns) == multiset(ns[1..]) + multiset{ns[0]}
  {
    assert ns == [ns[0]] + ns[1..];
  }

  lemma AddOne(ns: seq<nat>, n: nat)
    ensures multiset(ns + [n]) == multiset(ns) + multiset{n}
  {
  }

  lemma PushKeepsTickets(s: State, capacity: nat, k: nat)
    requires k < |s.held|
    ensures Everywhere(Step(s, capacity, Push(k))) == Everywhere(s)
  {
    var n, held := s.held[k], s.held[..k] + s.held[k + 1..];
    RemoveOne(s.held, k);
    AddOne(s.queue, n);
    AddOne(s.dropped, n);
    var t := Step(s, capacity, Push(k));
    assert t.held == held && t.written == s.written;
  }

  lemma PopKeepsTickets(s: State, capacity: nat)
    requires s.queue != []
    ensures Everywhere(Step(s, capacity, Pop)) == Everywhere(s)
  {
    PopFirst(s.queue);
    AddOne(s.written, s.queue[0]);
  }

  lemma TakeKeepsTickets(s: State, capacity: nat)
    requires Everywhere(s) == multiset(Upto(s.next))
    ensures Everywhere(Step(s, capacity, Take)) == multiset(Upto(s.next + 1))
  {
    hide Upto;
    UptoSnoc(s.next);
    AddOne(s.held, s.next);
    AddOne(Upto(s.next), s.next);
  }

  lemma StepKeepsTickets(s: State, capacity: nat, e: Event)
    requires Everywhere(s) == multiset(Upto(s.next))
    ensures Everywhere(Step(s, capacity, e)) == multiset(Upto(Step(s, capacity, e).next))
  {
    hide Upto, Everywhere;
    match e
    case Take => TakeKeepsTickets(s, capacity);
    case Push(k) =>
      if k < |s.held| {
        PushKeepsTickets(s, capacity, k);
      }
    case Pop =>
      if s.queue != [] {
        PopKeepsTickets(s, capacity);
      }
  }

  /** The reports tell of order: none has been made exactly when what was written is
      0, 1, ..., k - 1. */
  ghost predicate ReportsOk(s: State) {
    && s.expected == (if s.written == [] then 0 else s.written[|s.written| - 1] + 1)
    && (s.reports == [] <==> s.written == Upto(|s.written|))
  }

  lemma StepKeepsReports(s: State, capacity: nat, e: Event)
    requires ReportsOk(s)
    ensures ReportsOk(Step(s, capacity, e))
  {
    if e.Pop? && s.queue != [] {
      var n, t := |s.written|, Step(s, capacity, e);
      UptoSnoc(n);
      assert t.written[..n] == s.written;
      assert t.written == Upto(n + 1) ==> s.written == Upto(n + 1)[..n] == Upto(n);
      assert t.written[n] == s.queue[0] && Upto(n + 1)[n] == n;
    }
  }

  /** Over every interleaving of producers and consumer: each ticket is in exactly one place, so
      none is written twice; and the log is free of reports exactly when the tickets written are
      0, 1, ..., k - 1 in that order. */
  lemma {:induction false} LogKeepsCount(capacity: nat, events: seq<Event>)
    ensures var s := Run(capacity, events);
            && Everywhere(s) == multiset(Upto(s.next))
            && ReportsOk(s)
  {
    if events != [] {
      hide Step, ReportsOk, Everywhere;
      var n := |events| - 1;
      LogKeepsCount(capacity, events[..n]);
      StepKeepsTickets(Run(capacity, events[..n]), capacity, events[n]);
      StepKeepsReports(Run(capacity, events[..n]), capacity, events[n]);
    } else {
      assert Upto(0) == [];
    }
  }

  /** With every ticket pushed, the queue drained and nothing reported, nothing was dropped exactly
      when the last ticket taken was written: a silent log may lack messages at its end only. */
  lemma SilentDropsIff(capacity: nat, events: seq<Event>)
    requires var s := Run(capacity, events); s.held == [] && s.queue == [] && s.reports == []
    ensures var s := Run(capacity, events);
            s.dropped == [] <==> s.next == 0 || s.next - 1 in s.written
  {
    hide Run;
    var s := Run(capacity, events);
    LogKeepsCount(capacity, events);
    assert |s.dropped| + |s.written| == s.next by {
      assert |multiset(s.dropped)| + |multiset(s.written)| == |multiset(Upto(s.next))|;
    }
    hide Everywhere;
    if s.next > 0 && s.next - 1 in s.written {
      var i :| 0 <= i < |s.written| && s.written[i] == s.next - 1;
    }
  }

  // ---- One producer ----

  /** delivered[i] says whether ticket i found room; the rest as above. */
  datatype Single = Single(delivered: seq<bool>, queue: seq<nat>, written: seq<nat>, expected: nat, reports: nat)

  datatype SingleEvent = LogOne | WriteOne

  function SingleStep(s: Single, capacity: nat, e: SingleEvent): Single {
    match e
    case LogOne =>
      var room := |s.queue| < capacity;
      s.(delivered := s.delivered + [room], queue := if room then s.queue + [|s.delivered|] else s.queue)
    case WriteOne =>
      if s.queue == [] then s
      else
        var ticket := s.queue[0];
        Single(s.delivered, s.queue[1..], s.written + [ticket], ticket + 1,
               s.reports + if ticket != s.expected then 1 else 0)
  }

  function SingleRun(capacity: nat, events: seq<SingleEvent>): Single {
    if events == [] then Single([], [], [], 0, 0)
    else var n := |events| - 1; SingleStep(SingleRun(capacity, events[..n]), capacity, events[n])
  }

  /** The runs of dropped tickets that end in a delivery. */
  function DropsDelivered(delivered: seq<bool>): nat {
    if |delivered| < 2 then 0
    else
      var n := |delivered| - 1;
      DropsDelivered(delivered[..n]) + if delivered[n] && !delivered[n - 1] then 1 else 0
  }

  /** All runs of dropped tickets. */
  function DropRuns(delivered: seq<bool>): nat {
    if delivered == [] then 0
    else
      var n := |delivered| - 1;
      DropRuns(delivered[..n]) + if !delivered[n] && (n == 0 || delivered[n - 1]) then 1 else 0
  }

  predicate EndsDelivered(delivered: seq<bool>) {
    delivered == [] || delivered[|delivered| - 1]
  }

  /** Only a run of dropped tickets at the very end is not ended by a delivery. */
  lemma {:induction false} DropRunsEnded(delivered: seq<bool>)
    ensures DropRuns(delivered) == DropsDelivered(delivered) + if EndsDelivered(delivered) then 0 else 1
  {
    if delivered == [] {
    } else {
      DropRunsEnded(delivered[..|delivered| - 1]);
    }
  }

  /** The delivered tickets, in order. */
  function Tickets(delivered: seq<bool>): (r: seq<nat>)
    ensures forall i :: 0 <= i < |r| ==> r[i] < |delivered| && delivered[r[i]]
    ensures forall i, j :: 0 <= i < j < |r| ==> r[i] < r[j]
  {
    if delivered == [] then []
    else
      var n := |delivered| - 1;
      Tickets(delivered[..n]) + if delivered[n] then [n] else []
  }

  lemma {:induction false} TicketsHasAll(delivered: seq<bool>, i: nat)
    requires i < |delivered| && delivered[i]
    ensures i in Tickets(delivered)
  {
    var n := |delivered| - 1;
    if i < n {
      TicketsHasAll(delivered[..n], i);
    }
  }

  /** Between two delivered tickets next to each other, everything was dropped. */
  lemma DroppedBetween(delivered: seq<bool>, k: nat, i: nat)
    requires k < |Tickets(delivered)|
    requires (if k == 0 then 0 else Tickets(delivered)[k - 1] + 1) <= i < Tickets(delivered)[k]
    ensures !delivered[i]
  {
    hide Tickets;
    if delivered[i] {
      TicketsHasAll(delivered, i);
      var tickets := Tickets(delivered);
      var j :| 0 <= j < |tickets| && tickets[j] == i;
    }
  }

  /** Dropped tickets add nothing until the delivery after them. */
  lemma {:induction false} DropsFlat(delivered: seq<bool>, from: nat, to: nat)
    requires from <= to <= |delivered| && forall i :: from <= i < to ==> !delivered[i]
    ensures DropsDelivered(delivered[..to]) == DropsDelivered(delivered[..from])
  {
    if from < to {
      DropsFlat(delivered, from, to - 1);
      assert delivered[..to][..to - 1] == delivered[..to - 1];
    }
  }

  lemma DropsThenDelivery(delivered: seq<bool>, from: nat, ticket: nat)
    requires from <= ticket < |delivered| && delivered[ticket]
    requires forall i :: from <= i < ticket ==> !delivered[i]
    requires from > 0 ==> delivered[from - 1]
    ensures DropsDelivered(delivered[..ticket + 1])
            == DropsDelivered(delivered[..from]) + if ticket != from then 1 else 0
  {
    DropsFlat(delivered, from, ticket);
    assert delivered[..ticket + 1][..ticket] == delivered[..ticket];
  }

  ghost predicate SingleOk(s: Single) {
    && s.written + s.queue == Tickets(s.delivered)
    && s.expected == (if s.written == [] then 0 else s.written[|s.written| - 1] + 1)
    && s.expected <= |s.delivered|
    && (s.expected > 0 ==> s.delivered[s.expected - 1])
    && s.reports == DropsDelivered(s.delivered[..s.expected])
  }

  lemma SingleLog(s: Single, capacity: nat)
    requires SingleOk(s)
    ensures SingleOk(SingleStep(s, capacity, LogOne))
  {
    var t := SingleStep(s, capacity, LogOne);
    assert t.delivered[..|s.delivered|] == s.delivered;
    assert t.delivered[..s.expected] == s.delivered[..s.expected];
    assert s.written + (s.queue + [|s.delivered|]) == s.written + s.queue + [|s.delivered|];
  }

  lemma SingleWrite(s: Single, capacity: nat)
    requires SingleOk(s) && s.queue != []
    ensures SingleOk(SingleStep(s, capacity, WriteOne))
  {
    hide DropsDelivered;
    var k, ticket, tickets := |s.written|, s.queue[0], Tickets(s.delivered);
    assert tickets[k] == ticket && (k > 0 ==> tickets[k - 1] == s.written[k - 1]);
    forall i | s.expected <= i < ticket ensures !s.delivered[i] {
      DroppedBetween(s.delivered, k, i);
    }
    DropsThenDelivery(s.delivered, s.expected, ticket);
    assert s.written + [ticket] + s.queue[1..] == s.written + s.queue;
  }

  /** With one producer, the consumer reports once for each run of dropped messages that a
      delivered message ends, and what is written is exactly what was delivered, in order. */
  lemma {:induction false} SingleProducerReports(capacity: nat, events: seq<SingleEvent>)
    ensures SingleOk(SingleRun(capacity, events))
  {
    if events == [] {
      assert Tickets([]) == [];
    } else {
      hide SingleOk;
      var n := |events| - 1;
      var s := SingleRun(capacity, events[..n]);
      SingleProducerReports(capacity, events[..n]);
      if events[n].LogOne? {
        SingleLog(s, capacity);
      } else if s.queue != [] {
        SingleWrite(s, capacity);
      }
    }
  }

  /** Once drained, the number of reports is the number of dropped runs that a delivery ended. */
  lemma DrainedReports(capacity: nat, events: seq<SingleEvent>)
    requires SingleRun(capacity, events).queue == []
    ensures var s := SingleRun(capacity, events);
            s.written == Tickets(s.delivered) && s.reports == DropsDelivered(s.delivered)
  {
    SingleProducerReports(capacity, events);
    DrainedCounts(SingleRun(capacity, events));
  }

  /** Once drained, every dropped run was reported exactly when the last message logged was
      delivered. */
  lemma AllDropsReportedIff(capacity: nat, events: seq<SingleEvent>)
    requires SingleRun(capacity, events).queue == []
    ensures var s := SingleRun(capacity, events);
            s.reports == DropRuns(s.delivered) <==> EndsDelivered(s.delivered)
  {
    DrainedReports(capacity, events);
    DropRunsEnded(SingleRun(capacity, events).delivered);
  }

  ghost predicate OnlyWrites(events: seq<SingleEvent>) {
    forall i :: 0 <= i < |events| ==> events[i].WriteOne?
  }

  lemma {:induction false} WritesTakeFromQueue(capacity: nat, events: seq<SingleEvent>, writes: seq<SingleEvent>)
    requires OnlyWrites(writes)
    ensures var s, t := SingleRun(capacity, events), SingleRun(capacity, events + writes);
            && t.delivered == s.delivered
            && t.queue == s.queue[if |writes| < |s.queue| then |writes| else |s.queue|..]
  {
    if writes == [] {
      assert events + writes == events;
    } else {
      var n := |writes| - 1;
      assert (events + writes)[..|events| + n] == events + writes[..n];
      WritesTakeFromQueue(capacity, events, writes[..n]);
    }
  }

  /** So whether a drained log has reported every drop was decided at the last message logged,
      by whether the queue had room for it. */
  lemma LastLogDecides(capacity: nat, events: seq<SingleEvent>, writes: seq<SingleEvent>)
    requires OnlyWrites(writes) && SingleRun(capacity, events + [LogOne] + writes).queue == []
    ensures var s := SingleRun(capacity, events + [LogOne] + writes);
            s.reports == DropRuns(s.delivered) <==> |SingleRun(capacity, events).queue| < capacity
  {
    hide DropRuns, SingleRun;
    AllDropsReportedIff(capacity, events + [LogOne] + writes);
    WritesTakeFromQueue(capacity, events + [LogOne], writes);
    SingleRunSnoc(capacity, events, LogOne);
  }

  function Repeat(e: SingleEvent, n: nat): (r: seq<SingleEvent>)
    ensures |r| == n && forall i :: 0 <= i < n ==> r[i] == e
  {
    seq(n, _ => e)
  }

  lemma SingleRunSnoc(capacity: nat, events: seq<SingleEvent>, e: SingleEvent)
    ensures SingleRun(capacity, events + [e]) == SingleStep(SingleRun(capacity, events), capacity, e)
  {
    assert (events + [e])[..|events|] == events;
  }

  lemma {:induction false} LogsFillQueue(capacity: nat, n: nat)
    requires n <= capacity
    ensures var s := SingleRun(capacity, Repeat(LogOne, n));
            |s.queue| == n == |s.delivered| && false !in s.delivered
  {
    if n == 0 {
    } else {
      hide SingleRun;
      LogsFillQueue(capacity, n - 1);
      SingleRunSnoc(capacity, Repeat(LogOne, n - 1), LogOne);
      assert Repeat(LogOne, n) == Repeat(LogOne, n - 1) + [LogOne];
    }
  }

  lemma {:induction false} NoDropsDelivered(delivered: seq<bool>)
    requires false !in delivered
    ensures DropsDelivered(delivered) == 0
  {
    if |delivered| >= 2 {
      assert delivered[|delivered| - 2] in delivered;
      NoDropsDelivered(delivered[..|delivered| - 1]);
    }
  }

  /** For every capacity: one message more than fits, then a drain.  The last message is dropped
      and no report says so. */
  lemma LastDropUnreported(capacity: nat)
    ensures var s := SingleRun(capacity, Repeat(LogOne, capacity) + [LogOne] + Repeat(WriteOne, capacity));
            && s.queue == [] && |s.delivered| == capacity + 1 && !s.delivered[capacity]
            && DropRuns(s.delivered) == 1 && s.reports == 0
  {
    hide DropsDelivered, DropRuns, SingleRun, Tickets;
    var logs, writes := Repeat(LogOne, capacity), Repeat(WriteOne, capacity);
    LogsFillQueue(capacity, capacity);
    var s := SingleRun(capacity, logs);
    SingleRunSnoc(capacity, logs, LogOne);
    WritesTakeFromQueue(capacity, logs + [LogOne], writes);
    var t := SingleRun(capacity, logs + [LogOne] + writes);
    DrainedReports(capacity, logs + [LogOne] + writes);
    assert t.delivered[..capacity] == s.delivered;
    NoDropsDelivered(s.delivered);
    assert DropsDelivered(t.delivered) == DropsDelivered(s.delivered) by {
      DropsFlat(t.delivered, capacity, capacity + 1);
      assert t.delivered[..capacity + 1] == t.delivered;
    }
    DropRunsEnded(t.delivered);
  }

  // ---- One producer among many ----

  /** What a single producer does in the terms of many: it pushes each ticket at once. */
  function Interleaved(events: seq<SingleEvent>): seq<Event> {
    if events == [] then []
    else
      var n := |events| - 1;
      Interleaved(events[..n]) + match events[n] case LogOne => [Take, Push(0)] case WriteOne => [Pop]
  }

  function Undelivered(delivered: seq<bool>): seq<nat> {
    if delivered == [] then []
    else var n := |delivered| - 1; Undelivered(delivered[..n]) + if delivered[n] then [] else [n]
  }

  lemma RunTwo(capacity: nat, events: seq<Event>, e: Event, f: Event)
    ensures Run(capacity, events + [e, f]) == Step(Step(Run(capacity, events), capacity, e), capacity, f)
    ensures Run(capacity, events + [e]) == Step(Run(capacity, events), capacity, e)
  {
    assert (events + [e, f])[..|events| + 1] == events + [e] && (events + [e])[..|events|] == events;
  }

  ghost predicate Same(s: Single, t: State) {
    && t.next == |s.delivered| && t.held == [] && t.queue == s.queue && t.written == s.written
    && t.dropped == Undelivered(s.delivered) && t.expected == s.expected && |t.reports| == s.reports
  }

  lemma LogIsTakeAndPush(s: Single, t: State, capacity: nat)
    requires Same(s, t)
    ensures Same(SingleStep(s, capacity, LogOne), Step(Step(t, capacity, Take), capacity, Push(0)))
  {
    var delivered := SingleStep(s, capacity, LogOne).delivered;
    assert delivered[..|delivered| - 1] == s.delivered;
  }

  /** The run of a single producer is that run of many. */
  lemma {:induction false} SingleIsRun(capacity: nat, events: seq<SingleEvent>)
    ensures Same(SingleRun(capacity, events), Run(capacity, Interleaved(events)))
  {
    if events == [] {
    } else {
      hide Run;
      var n := |events| - 1;
      var s, front := SingleRun(capacity, events[..n]), Interleaved(events[..n]);
      SingleIsRun(capacity, events[..n]);
      RunTwo(capacity, front, Take, Push(0));
      RunTwo(capacity, front, Pop, Pop);
      if events[n].LogOne? {
        hide Same, Step, SingleStep;
        LogIsTakeAndPush(s, Run(capacity, front), capacity);
      }
    }
  }

  // ---- The object ----

  datatype LogMessage = LogMessage(sequenceNumber: nat, time: nat, json: bool, text: string)

  datatype Line =
    | IncorrectSequence(time: nat, expected: nat, received: nat)
    | Written(message: LogMessage)

  /** The lines a drain writes for the queued messages. */
  function Lines(queue: seq<LogMessage>, expected: nat): seq<Line>
    decreases |queue|
  {
    if queue == [] then []
    else
      var m := queue[0];
      (if m.sequenceNumber != expected then [IncorrectSequence(m.time, expected, m.sequenceNumber)] else [])
      + [Written(m)] + Lines(queue[1..], m.sequenceNumber + 1)
  }

  /** The lines of the first message, then those of the rest. */
  lemma LinesCons(queue: seq<LogMessage>, expected: nat, file: seq<Line>)
    requires queue != []
    ensures var m := queue[0];
            var report := IncorrectSequence(m.time, expected, m.sequenceNumber);
            var checked := if m.sequenceNumber != expected then file + [report] else file;
            file + Lines(queue, expected) == checked + [Written(m)] + Lines(queue[1..], m.sequenceNumber + 1)
  {
  }

  /** The messages among the lines. */
  function MessagesIn(file: seq<Line>): seq<LogMessage> {
    if file == [] then []
    else (if file[0].Written? then [file[0].message] else []) + MessagesIn(file[1..])
  }

  lemma MessagesInCons(line: Line, file: seq<Line>)
    ensures MessagesIn([line] + file) == (if line.Written? then [line.message] else []) + MessagesIn(file)
  {
    assert ([line] + file)[1..] == file;
  }

  lemma LinesUnfold(queue: seq<LogMessage>, expected: nat)
    requires queue != []
    ensures var m, rest := queue[0], Lines(queue[1..], queue[0].sequenceNumber + 1);
            Lines(queue, expected)
            == if m.sequenceNumber == expected then [Written(m)] + rest
               else [IncorrectSequence(m.time, expected, m.sequenceNumber)] + ([Written(m)] + rest)
  {
  }

  /** Every message of the queue is written, once and in order. */
  lemma {:induction false} LinesKeepMessages(queue: seq<LogMessage>, expected: nat)
    ensures MessagesIn(Lines(queue, expected)) == queue
    decreases |queue|
  {
    if queue == [] {
    } else {
      hide Lines, MessagesIn;
      var m := queue[0];
      var rest := Lines(queue[1..], m.sequenceNumber + 1);
      LinesUnfold(queue, expected);
      LinesKeepMessages(queue[1..], m.sequenceNumber + 1);
      MessagesInCons(Written(m), rest);
      MessagesInCons(IncorrectSequence(m.time, expected, m.sequenceNumber), [Written(m)] + rest);
      assert [m] + queue[1..] == queue;
    }
  }

  /** The number expected at line i: one more than the last written, at first the given one. */
  ghost predicate ExpectedAt(lines: seq<Line>, expected: nat, i: nat, number: nat)
    requires i < |lines|
  {
    if i == 0 then number == expected
    else lines[i - 1].Written? && number == lines[i - 1].message.sequenceNumber + 1
  }

  /** A report stands in front of exactly the messages that were not the expected one, with that
      message's time and number and with the number expected. */
  ghost predicate LineOk(lines: seq<Line>, expected: nat, i: nat)
    requires i < |lines|
  {
    match lines[i]
    case IncorrectSequence(time, number, received) =>
      && i + 1 < |lines| && lines[i + 1].Written?
      && time == lines[i + 1].message.time && received == lines[i + 1].message.sequenceNumber != number
      && ExpectedAt(lines, expected, i, number)
    case Written(m) =>
      (i > 0 && lines[i - 1].IncorrectSequence?) || ExpectedAt(lines, expected, i, m.sequenceNumber)
  }

  lemma LineOkBehind(front: seq<Line>, last: Line, rest: seq<Line>, expected: nat, i: nat)
    requires last.Written? && i < |rest| && LineOk(rest, last.message.sequenceNumber + 1, i)
    ensures LineOk(front + [last] + rest, expected, |front| + 1 + i)
  {
    var lines := front + [last] + rest;
    assert forall k :: 0 <= k < |rest| ==> lines[|front| + 1 + k] == rest[k];
    assert lines[|front|] == last;
  }

  lemma {:induction false} LinesReport(queue: seq<LogMessage>, expected: nat)
    ensures forall i :: 0 <= i < |Lines(queue, expected)| ==> LineOk(Lines(queue, expected), expected, i)
    decreases |queue|
  {
    if queue == [] {
    } else {
      hide Lines;
      var m, lines := queue[0], Lines(queue, expected);
      var rest := Lines(queue[1..], m.sequenceNumber + 1);
      LinesUnfold(queue, expected);
      LinesReport(queue[1..], m.sequenceNumber + 1);
      var front := if m.sequenceNumber == expected then [] else [IncorrectSequence(m.time, expected, m.sequenceNumber)];
      assert lines == front + [Written(m)] + rest;
      forall i | 0 <= i < |lines| ensures LineOk(lines, expected, i) {
        if i > |front| {
          LineOkBehind(front, Written(m), rest, expected, i - |front| - 1);
        }
      }
    }
  }

  function Numbers(queue: seq<LogMessage>): (r: seq<nat>)
    ensures |r| == |queue| && forall i :: 0 <= i < |r| ==> r[i] == queue[i].sequenceNumber
  {
    seq(|queue|, i requires 0 <= i < |queue| => queue[i].sequenceNumber)
  }

  function Incorrect(file: seq<Line>): nat {
    if file == [] then 0
    else var n := |file| - 1; Incorrect(file[..n]) + if file[n].IncorrectSequence? then 1 else 0
  }

  lemma IncorrectSnoc(file: seq<Line>, line: Line)
    ensures Incorrect(file + [line]) == Incorrect(file) + if line.IncorrectSequence? then 1 else 0
  {
    assert (file + [line])[..|file|] == file;
  }

  class AsyncLog {
    const capacity: nat
    var nextSendSequenceNumber: nat
    var messages: seq<LogMessage>
    var nextReceiveSequenceNumber: nat
    var file: seq<Line>
    /** The run so far, as one producer's. */
    ghost var run: Single

    ghost predicate Valid()
      reads this
    {
      && SingleOk(run)
      && nextSendSequenceNumber == |run.delivered|
      && Numbers(messages) == run.queue
      && nextReceiveSequenceNumber == run.expected
      && Incorrect(file) == run.reports
    }

    constructor (capacity: nat)
      ensures Valid() && run == SingleRun(capacity, []) && file == [] && this.capacity == capacity
    {
      this.capacity := capacity;
      nextSendSequenceNumber, messages, nextReceiveSequenceNumber, file := 0, [], 0, [];
      run := Single([], [], [], 0, 0);
    }

    /** Whether the push succeeded is ignored. */
    method LogRaw(time: nat, json: bool, text: string)
      requires Valid()
      modifies this
      ensures Valid() && run == SingleStep(old(run), capacity, LogOne) && file == old(file)
      ensures messages == old(messages)
                + if |old(messages)| < capacity
                  then [LogMessage(old(nextSendSequenceNumber), time, json, Copied(text, LINE_SIZE))] else []
      ensures '\0' !in text && |text| <= 991 ==> Copied(text, LINE_SIZE) == text
    {
      hide SingleOk;
      SingleLog(run, capacity);
      CopiedIs(text, LINE_SIZE);
      var message := LogMessage(nextSendSequenceNumber, time, json, Copied(text, LINE_SIZE));
      nextSendSequenceNumber := nextSendSequenceNumber + 1;
      if |messages| < capacity {
        messages := messages + [message];
      }
      run := SingleStep(run, capacity, LogOne);
      assert Numbers(messages) == run.queue;
    }

    /** One turn of the drain loop. */
    method WriteNext()
      requires Valid() && messages != []
      modifies this
      ensures Valid() && run == SingleStep(old(run), capacity, WriteOne)
      ensures messages == old(messages)[1..]
      ensures file + Lines(messages, nextReceiveSequenceNumber)
              == old(file + Lines(messages, nextReceiveSequenceNumber))
    {
      hide SingleOk, Incorrect, Lines;
      SingleWrite(run, capacity);
      var message := messages[0];
      LinesCons(messages, nextReceiveSequenceNumber, file);
      messages := messages[1..];
      IncorrectSnoc(file, IncorrectSequence(message.time, nextReceiveSequenceNumber, message.sequenceNumber));
      if message.sequenceNumber != nextReceiveSequenceNumber {
        file := file + [IncorrectSequence(message.time, nextReceiveSequenceNumber, message.sequenceNumber)];
      }
      nextReceiveSequenceNumber := message.sequenceNumber + 1;
      IncorrectSnoc(file, Written(message));
      file := file + [Written(message)];
      run := SingleStep(run, capacity, WriteOne);
      assert Numbers(messages) == run.queue;
    }

    /** Writes everything queued.  Afterwards the incorrect-sequence lines number exactly the
        runs of dropped messages that a delivered one ended. */
    method Execute()
      requires Valid()
      modifies this
      ensures Valid() && messages == []
      ensures file == old(file) + old(Lines(messages, nextReceiveSequenceNumber))
      ensures run.delivered == old(run).delivered
      ensures Incorrect(file) == DropsDelivered(run.delivered)
      ensures Incorrect(file) == DropRuns(run.delivered) <==> EndsDelivered(run.delivered)
    {
      hide SingleOk;
      ghost var whole := file + Lines(messages, nextReceiveSequenceNumber);
      while messages != []
        invariant Valid() && run.delivered == old(run).delivered
        invariant file + Lines(messages, nextReceiveSequenceNumber) == whole
        decreases |messages|
      {
        WriteNext();
      }
      DrainedCounts(run);
      DropRunsEnded(run.delivered);
    }
  }

  lemma DrainedCounts(s: Single)
    requires SingleOk(s) && s.queue == []
    ensures s.written == Tickets(s.delivered) && s.reports == DropsDelivered(s.delivered)
  {
    assert s.written + [] == s.written;
    forall i | s.expected <= i < |s.delivered| ensures !s.delivered[i] {
      if s.delivered[i] {
        TicketsHasAll(s.delivered, i);
      }
    }
    DropsFlat(s.delivered, s.expected, |s.delivered|);
    assert s.delivered[..|s.delivered|] == s.delivered;
  }
}
