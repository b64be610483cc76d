/** The IPC console protocol on values: what a send puts in the queue, what the server does
    with a message, and whole runs of many clients, one bounded queue and one server. */
module Console {
  import opened Buffers
  import opened Options

  const MAGIC := 0xBADF00D5
  const VERSION := 2
  const MESSAGE_SIZE := 252
  const STALE_AFTER := 3_000_000_000
  const SILENT_AFTER := 5_000_000_000
  const SEQUENCES := 0x1_0000_0000

  datatype Message = Message(magic: nat, version: nat, pid: nat, time: nat, sequence: nat, text: string)

  /** The text that fits the message buffer. */
  function Payload(text: string): string {
    Copied(text, MESSAGE_SIZE)
  }

  /** A text without a NUL of at most 251 characters is sent as it is; of any other, the longest
      beginning of that kind. */
  lemma PayloadIs(text: string)
    ensures Payload(text) <= text && '\0' !in Payload(text) && |Payload(text)| <= 251
    ensures |Payload(text)| < |text| ==> |Payload(text)| == 251 || text[|Payload(text)|] == '\0'
    ensures Payload(text) == text <==> '\0' !in text && |text| <= 251
  {
    CopiedIs(text, MESSAGE_SIZE);
  }

  // ---- The server ----

  datatype ClientState = ClientState(lastSequenceNumber: nat, lastHeartbeatTime: nat, lastCommandTime: nat)

  datatype Report =
    | BadMagic
    | MismatchedVersion
    | ClientConnected(pid: nat)
    | OutOfOrderSequence(pid: nat)
    | DuplicateSequence(pid: nat)
    | MissingSequence(pid: nat)
    | Stale(pid: nat)
    | Received(pid: nat, text: string)
    | NoHeartbeats

  datatype Server = Server(states: map<nat, ClientState>, connected: bool,
                           lastCommandTime: nat, lastHeartbeatTime: nat, log: seq<Report>)

  const NEW_SERVER := Server(map[], false, 0, 0, [])

  /** What the sequence check of a known client logs. */
  function SequenceReport(pid: nat, sequence: nat, last: nat): seq<Report> {
    if sequence < last then [OutOfOrderSequence(pid)]
    else if sequence == last then [DuplicateSequence(pid)]
    else if sequence > last + 1 then [MissingSequence(pid)]
    else []
  }

  /** The log lines of a good message: the sequence check, staleness, the command. */
  function CheckLog(s: Server, m: Message): seq<Report> {
    if m.pid in s.states then SequenceReport(m.pid, m.sequence, s.states[m.pid].lastSequenceNumber)
    else [ClientConnected(m.pid)]
  }

  function TimeLog(m: Message, now: nat): seq<Report> {
    if now > m.time + STALE_AFTER then [Stale(m.pid)] else []
  }

  function CommandLog(m: Message): seq<Report> {
    if m.text != "" then [Received(m.pid, m.text)] else []
  }

  /** What the server then knows of the client.  The sequence number of a pid's first message is
      not recorded. */
  function ClientAfter(s: Server, m: Message, now: nat): ClientState {
    var known := m.pid in s.states;
    ClientState(
      if known then m.sequence else 0,
      now,
      if m.text != "" then now else if known then s.states[m.pid].lastCommandTime else 0)
  }

  /** `receive` on a message taken from the queue: the command line, or None where it returns
      false. */
  function Receive(s: Server, m: Message, now: nat): (Server, Option<string>) {
    if m.magic != MAGIC then (s.(log := s.log + [BadMagic]), None)
    else if m.version != VERSION then (s.(log := s.log + [MismatchedVersion]), None)
    else
      (Server(s.states[m.pid := ClientAfter(s, m, now)], s.connected || m.pid !in s.states,
              if m.text != "" then now else s.lastCommandTime, now,
              s.log + CheckLog(s, m) + TimeLog(m, now) + CommandLog(m)),
       Some(m.text))
  }

  /** `update`: the flag drops when the last heartbeat is too old, and only a pid never seen
      before raises it again. */
  function Update(s: Server, now: nat): Server {
    if s.connected && s.lastHeartbeatTime != 0 && now > s.lastHeartbeatTime + SILENT_AFTER
    then s.(connected := false, log := s.log + [NoHeartbeats])
    else s
  }

  // ---- Runs ----

  /** sent are the payloads of the successful sends under each pid so far, senders the clients
      that made them, and got the sequence numbers received from that pid.  A message names its
      process only: several clients of one process, or of processes that had one pid after the
      other, look alike to the server. */
  datatype World = World(sent: map<nat, seq<string>>, senders: map<nat, seq<nat>>, got: map<nat, seq<nat>>,
                         queue: seq<Message>, server: Server, commands: seq<(nat, string)>)

  datatype Event =
    | Send(pid: nat, client: nat, text: string, time: nat)
    | ReceiveNext(now: nat)
    | UpdateServer(now: nat)
    | Lose(k: nat)

  function Of<T>(m: map<nat, seq<T>>, pid: nat): seq<T> {
    if pid in m then m[pid] else []
  }

  /** How many of the sends a client made. */
  function CountOf(senders: seq<nat>, client: nat): nat {
    if senders == [] then 0
    else var n := |senders| - 1; CountOf(senders[..n], client) + if senders[n] == client then 1 else 0
  }

  /** The next message of a client: the sequence number is a uint32_t counting the client's own
      successful sends. */
  function NextMessage(w: World, pid: nat, client: nat, text: string, time: nat): Message {
    Message(MAGIC, VERSION, pid, time, CountOf(Of(w.senders, pid), client) % SEQUENCES, Payload(text))
  }

  function Step(w: World, capacity: nat, e: Event): World {
    match e
    case Send(pid, client, text, time) =>
      if |w.queue| >= capacity then w
      else w.(queue := w.queue + [NextMessage(w, pid, client, text, time)],
              sent := w.sent[pid := Of(w.sent, pid) + [Payload(text)]],
              senders := w.senders[pid := Of(w.senders, pid) + [client]])
    case ReceiveNext(now) =>
      if w.queue == [] then w
      else
        var m := w.queue[0];
        var (server, line) := Receive(w.server, m, now);
        w.(queue := w.queue[1..], server := server, got := w.got[m.pid := Of(w.got, m.pid) + [m.sequence]],
           commands := if line.Some? && line.value != "" then w.commands + [(m.pid, line.value)] else w.commands)
    case UpdateServer(now) => w.(server := Update(w.server, now))
    case Lose(k) => if k < |w.queue| then w.(queue := w.queue[..k] + w.queue[k + 1..]) else w
  }

  const START := World(map[], map[], map[], [], NEW_SERVER, [])

  function Run(capacity: nat, events: seq<Event>): World {
    if events == [] then START
    else var n := |events| - 1; Step(Run(capacity, events[..n]), capacity, events[n])
  }

  // ---- What concerns one pid ----

  function MessagesOf(queue: seq<Message>, pid: nat): seq<Message> {
    if queue == [] then []
    else (if queue[0].pid == pid then [queue[0]] else []) + MessagesOf(queue[1..], pid)
  }

  function CommandsOf(commands: seq<(nat, string)>, pid: nat): seq<string> {
    if commands == [] then []
    else
      var n := |commands| - 1;
      CommandsOf(commands[..n], pid) + if commands[n].0 == pid then [commands[n].1] else []
  }

  function NonEmpty(texts: seq<string>): seq<string> {
    if texts == [] then []
    else var n := |texts| - 1; NonEmpty(texts[..n]) + if texts[n] == "" then [] else [texts[n]]
  }

  predicate AboutSequence(r: Report, pid: nat) {
    (r.OutOfOrderSequence? || r.DuplicateSequence? || r.MissingSequence?) && r.pid == pid
  }

  /** The sequence reports about a pid, in order. */
  function ReportsOf(log: seq<Report>, pid: nat): seq<Report> {
    if log == [] then []
    else
      var n := |log| - 1;
      ReportsOf(log[..n], pid) + if AboutSequence(log[n], pid) then [log[n]] else []
  }

  lemma {:induction false} MessagesOfConcat(a: seq<Message>, b: seq<Message>, pid: nat)
    ensures MessagesOf(a + b, pid) == MessagesOf(a, pid) + MessagesOf(b, pid)
  {
    if a == [] {
      assert a + b == b;
    } else {
      var rest := a[1..];
      assert a + b == [a[0]] + (rest + b);
      MessagesOfCons(a[0], rest + b, pid);
      MessagesOfCons(a[0], rest, pid);
      assert a == [a[0]] + rest;
      MessagesOfConcat(rest, b, pid);
    }
  }

  lemma MessagesOfCons(m: Message, queue: seq<Message>, pid: nat)
    ensures MessagesOf([m] + queue, pid) == (if m.pid == pid then [m] else []) + MessagesOf(queue, pid)
  {
    assert ([m] + queue)[1..] == queue;
  }

  lemma {:induction false} ReportsOfConcat(a: seq<Report>, b: seq<Report>, pid: nat)
    ensures ReportsOf(a + b, pid) == ReportsOf(a, pid) + ReportsOf(b, pid)
  {
    if b == [] {
      assert a + b == a;
    } else {
      var n := |b| - 1;
      assert (a + b)[..|a| + n] == a + b[..n];
      ReportsOfConcat(a, b[..n], pid);
    }
  }

  lemma CommandsOfSnoc(commands: seq<(nat, string)>, c: (nat, string), pid: nat)
    ensures CommandsOf(commands + [c], pid) == CommandsOf(commands, pid) + if c.0 == pid then [c.1] else []
  {
    assert (commands + [c])[..|commands|] == commands;
  }

  lemma ReportsOfOne(r: Report, pid: nat)
    ensures ReportsOf([r], pid) == if AboutSequence(r, pid) then [r] else []
    ensures ReportsOf([], pid) == []
  {
    assert [r][..0] == [];
  }

  /** A good message adds at most one sequence report, about its own pid. */
  lemma ReceiveReports(s: Server, m: Message, now: nat, pid: nat)
    requires m.magic == MAGIC && m.version == VERSION
    ensures ReportsOf(Receive(s, m, now).0.log, pid)
            == ReportsOf(s.log, pid)
               + if pid == m.pid && pid in s.states
                 then SequenceReport(pid, m.sequence, s.states[pid].lastSequenceNumber) else []
  {
    hide ReportsOf;
    var check, time, command := CheckLog(s, m), TimeLog(m, now), CommandLog(m);
    ReportsOfConcat(s.log, check, pid);
    ReportsOfConcat(s.log + check, time, pid);
    ReportsOfConcat(s.log + check + time, command, pid);
    if check != [] {
      assert check == [check[0]];
      ReportsOfOne(check[0], pid);
    }
    ReportsOfOne(Stale(m.pid), pid);
    ReportsOfOne(Received(m.pid, m.text), pid);
  }

  /** What a message adds to the log: a bad magic or version and nothing else; or, of a pid not
      known, that it connected, and of a known one how its number fails to be the next; that the
      message is more than three seconds old; and the command, if it is not empty. */
  lemma ReceiveLogs(s: Server, m: Message, now: nat, r: Report)
    ensures var log := Receive(s, m, now).0.log;
            && s.log <= log
            && (r in log[|s.log|..] <==>
                  if m.magic != 0xBADF00D5 then r == BadMagic
                  else if m.version != 2 then r == MismatchedVersion
                  else match r
                       case ClientConnected(pid) => pid == m.pid && pid !in s.states
                       case OutOfOrderSequence(pid) =>
                         pid == m.pid && pid in s.states && m.sequence < s.states[pid].lastSequenceNumber
                       case DuplicateSequence(pid) =>
                         pid == m.pid && pid in s.states && m.sequence == s.states[pid].lastSequenceNumber
                       case MissingSequence(pid) =>
                         pid == m.pid && pid in s.states && m.sequence > s.states[pid].lastSequenceNumber + 1
                       case Stale(pid) => pid == m.pid && now - m.time > 3_000_000_000
                       case Received(pid, text) => pid == m.pid && text == m.text != ""
                       case _ => false)
  {
    var log := Receive(s, m, now).0.log;
    if m.magic == MAGIC && m.version == VERSION {
      assert log[|s.log|..] == CheckLog(s, m) + TimeLog(m, now) + CommandLog(m);
    } else {
      assert log[|s.log|..] == if m.magic != MAGIC then [BadMagic] else [MismatchedVersion];
    }
  }

  // ---- A run seen by one pid ----

  /** What a world holds about one pid; last is None before its first message arrives. */
  datatype View = View(sent: seq<string>, senders: seq<nat>, got: seq<nat>, messages: seq<Message>, last: Option<nat>,
                       reports: seq<Report>, commands: seq<string>)

  function ViewOf(w: World, pid: nat): View {
    View(Of(w.sent, pid), Of(w.senders, pid), Of(w.got, pid), MessagesOf(w.queue, pid),
         if pid in w.server.states then Some(w.server.states[pid].lastSequenceNumber) else None,
         ReportsOf(w.server.log, pid), CommandsOf(w.commands, pid))
  }

  ghost predicate Good(queue: seq<Message>) {
    forall m :: m in queue ==> m.magic == MAGIC && m.version == VERSION
  }

  function ViewSent(v: View, m: Message, client: nat): View {
    v.(sent := v.sent + [m.text], senders := v.senders + [client], messages := v.messages + [m])
  }

  function ViewReceived(v: View): View
    requires v.messages != []
  {
    var m := v.messages[0];
    View(v.sent, v.senders, v.got + [m.sequence], v.messages[1..],
         Some(if v.last.Some? then m.sequence else 0),
         v.reports + (if v.last.Some? then SequenceReport(m.pid, m.sequence, v.last.value) else []),
         v.commands + (if m.text != "" then [m.text] else []))
  }

  function ViewLost(v: View, j: nat): View
    requires j < |v.messages|
  {
    v.(messages := v.messages[..j] + v.messages[j + 1..])
  }

  lemma SendViews(w: World, capacity: nat, pid: nat, client: nat, text: string, time: nat, other: nat)
    requires Good(w.queue)
    ensures var w' := Step(w, capacity, Send(pid, client, text, time));
            && Good(w'.queue)
            && ViewOf(w', other) == if pid == other && |w.queue| < capacity
                                    then ViewSent(ViewOf(w, pid), NextMessage(w, pid, client, text, time), client)
                                    else ViewOf(w, other)
  {
    hide MessagesOf, Payload, CountOf;
    var m := NextMessage(w, pid, client, text, time);
    MessagesOfConcat(w.queue, [m], other);
    MessagesOfCons(m, [], other);
    assert [m] + [] == [m];
    assert MessagesOf([], other) == [] by { NoMessages(other); }
  }

  lemma NoMessages(pid: nat)
    ensures MessagesOf([], pid) == []
  {
  }

  lemma ReceiveFields(w: World, capacity: nat, now: nat)
    requires Good(w.queue) && w.queue != []
    ensures var m, w' := w.queue[0], Step(w, capacity, ReceiveNext(now));
            && m.magic == MAGIC && m.version == VERSION && w.queue == [m] + w'.queue && Good(w'.queue)
            && w'.sent == w.sent && w'.senders == w.senders
            && w'.got == w.got[m.pid := Of(w.got, m.pid) + [m.sequence]]
            && w'.server == Receive(w.server, m, now).0
            && w'.server.states == w.server.states[m.pid := ClientAfter(w.server, m, now)]
            && ClientAfter(w.server, m, now).lastSequenceNumber == (if m.pid in w.server.states then m.sequence else 0)
            && w'.commands == if m.text != "" then w.commands + [(m.pid, m.text)] else w.commands
  {
    hide CheckLog, TimeLog, CommandLog;
    var m := w.queue[0];
    assert m in w.queue;
    assert w.queue == [m] + w.queue[1..];
  }

  lemma ReceiveViews(w: World, capacity: nat, now: nat, pid: nat)
    requires Good(w.queue) && w.queue != []
    ensures var w' := Step(w, capacity, ReceiveNext(now));
            && Good(w'.queue)
            && (w.queue[0].pid == pid ==> ViewOf(w, pid).messages != [] && ViewOf(w, pid).messages[0] == w.queue[0])
            && ViewOf(w', pid) == if w.queue[0].pid == pid then ViewReceived(ViewOf(w, pid)) else ViewOf(w, pid)
  {
    hide ReportsOf, MessagesOf, CommandsOf, ClientAfter, Receive, SequenceReport, Step, Good;
    var m, w' := w.queue[0], Step(w, capacity, ReceiveNext(now));
    ReceiveFields(w, capacity, now);
    ReceiveReports(w.server, m, now, pid);
    MessagesOfCons(m, w'.queue, pid);
    CommandsOfSnoc(w.commands, (m.pid, m.text), pid);
  }

  /** An update of the server concerns no pid. */
  lemma UpdateViews(w: World, capacity: nat, now: nat, pid: nat)
    ensures var w' := Step(w, capacity, UpdateServer(now));
            w'.queue == w.queue && ViewOf(w', pid) == ViewOf(w, pid)
  {
    hide ReportsOf, MessagesOf, CommandsOf;
    ReportsOfConcat(w.server.log, [NoHeartbeats], pid);
    ReportsOfOne(NoHeartbeats, pid);
  }

  lemma LoseMessages(queue: seq<Message>, k: nat, pid: nat) returns (j: nat)
    requires Good(queue) && k < |queue|
    ensures var messages, left := MessagesOf(queue, pid), MessagesOf(queue[..k] + queue[k + 1..], pid);
            && Good(queue[..k] + queue[k + 1..])
            && (queue[k].pid == pid ==> j < |messages| && left == messages[..j] + messages[j + 1..])
            && (queue[k].pid != pid ==> left == messages)
  {
    hide MessagesOf;
    var m, front, back := queue[k], queue[..k], queue[k + 1..];
    j := |MessagesOf(front, pid)|;
    assert queue == front + ([m] + back);
    MessagesOfConcat(front, [m] + back, pid);
    MessagesOfCons(m, back, pid);
    MessagesOfConcat(front, back, pid);
  }

  lemma LoseViews(w: World, capacity: nat, k: nat, pid: nat) returns (j: nat)
    requires Good(w.queue) && k < |w.queue|
    ensures var w' := Step(w, capacity, Lose(k));
            && Good(w'.queue)
            && (w.queue[k].pid == pid ==>
                  j < |ViewOf(w, pid).messages| && ViewOf(w', pid) == ViewLost(ViewOf(w, pid), j))
            && (w.queue[k].pid != pid ==> ViewOf(w', pid) == ViewOf(w, pid))
  {
    hide MessagesOf, ReportsOf, CommandsOf, Good;
    j := LoseMessages(w.queue, k, pid);
  }

  // ---- A reliable queue ----

  /** The number of send i under a pid: how often its client had sent before. */
  function NumberAt(senders: seq<nat>, i: nat): nat
    requires i < |senders|
  {
    CountOf(senders[..i], senders[i])
  }

  predicate OneClient(senders: seq<nat>) {
    forall i :: 0 <= i < |senders| ==> senders[i] == senders[0]
  }

  /** Every message between the received and the sent is in the queue, in order; the server's
      number is that of the last received; the commands run are the received non-empty sends;
      and nothing was reported unless a second client was received under the pid or the number
      has wrapped round. */
  ghost predicate InStep(v: View) {
    var r := |v.got|;
    && |v.sent| == |v.senders| == r + |v.messages|
    && (forall j :: 0 <= j < |v.messages| ==>
          v.messages[j].sequence == NumberAt(v.senders, r + j) % SEQUENCES && v.messages[j].text == v.sent[r + j])
    && v.last == (if r == 0 then None else Some(NumberAt(v.senders, r - 1) % SEQUENCES))
    && v.commands == NonEmpty(v.sent[..r])
    && (v.reports == [] <==> OneClient(v.senders[..r]) && r <= SEQUENCES)
  }

  lemma {:induction false} CountOfOne(senders: seq<nat>, client: nat)
    requires forall i :: 0 <= i < |senders| ==> senders[i] == client
    ensures CountOf(senders, client) == |senders|
  {
    if senders == [] {
    } else {
      CountOfOne(senders[..|senders| - 1], client);
    }
  }

  lemma {:induction false} CountOfOther(senders: seq<nat>, client: nat)
    requires client !in senders
    ensures CountOf(senders, client) == 0
  {
    if senders == [] {
    } else {
      CountOfOther(senders[..|senders| - 1], client);
    }
  }

  lemma WrapReports(pid: nat, r: nat)
    requires 0 < r <= SEQUENCES
    ensures SequenceReport(pid, r % SEQUENCES, (r - 1) % SEQUENCES) == [] <==> r < SEQUENCES
    ensures SequenceReport(pid, 0, (r - 1) % SEQUENCES) != []
  {
  }

  /** While one client only was received, the next message is reported exactly when it is from
      another or its number has wrapped. */
  lemma NextReport(pid: nat, senders: seq<nat>, r: nat)
    requires 0 < r < |senders| && OneClient(senders[..r]) && r <= SEQUENCES
    ensures SequenceReport(pid, NumberAt(senders, r) % SEQUENCES, NumberAt(senders, r - 1) % SEQUENCES) == []
            <==> OneClient(senders[..r + 1]) && r < SEQUENCES
  {
    hide SequenceReport;
    var first := senders[0];
    assert forall i :: 0 <= i < r ==> senders[i] == senders[..r][i] == first;
    assert NumberAt(senders, r - 1) == r - 1 by { CountOfOne(senders[..r - 1], first); }
    WrapReports(pid, r);
    if senders[r] == first {
      CountOfOne(senders[..r], first);
    } else {
      CountOfOther(senders[..r], senders[r]);
      assert senders[..r + 1][r] != senders[..r + 1][0];
    }
  }

  lemma OneClientPrefix(senders: seq<nat>, r: nat)
    requires r < |senders| && OneClient(senders[..r + 1])
    ensures OneClient(senders[..r])
  {
    assert forall i :: 0 <= i < r ==> senders[..r][i] == senders[..r + 1][i];
  }

  lemma ReceivedInStep(v: View)
    requires InStep(v) && v.messages != []
    ensures InStep(ViewReceived(v))
  {
    hide NonEmpty, SequenceReport, NumberAt, OneClient;
    var r := |v.got|;
    NonEmptySnoc(v.sent[..r], v.sent[r]);
    assert v.sent[..r + 1] == v.sent[..r] + [v.sent[r]];
    if r == 0 {
      FirstReceived(v.senders);
    } else if OneClient(v.senders[..r]) && r <= SEQUENCES {
      NextReport(v.messages[0].pid, v.senders, r);
    } else if OneClient(v.senders[..r + 1]) {
      OneClientPrefix(v.senders, r);
    }
    assert v.messages[0].sequence == NumberAt(v.senders, r) % SEQUENCES;
    var w := ViewReceived(v);
    forall j | 0 <= j < |w.messages|
      ensures w.messages[j].sequence == NumberAt(v.senders, r + 1 + j) % SEQUENCES
      ensures w.messages[j].text == v.sent[r + 1 + j]
    {
      assert w.messages[j] == v.messages[j + 1] && r + (j + 1) == r + 1 + j;
    }
  }

  lemma FirstReceived(senders: seq<nat>)
    requires senders != []
    ensures NumberAt(senders, 0) == 0 && OneClient(senders[..0]) && OneClient(senders[..1])
  {
  }

  lemma NonEmptySnoc(texts: seq<string>, t: string)
    ensures NonEmpty(texts + [t]) == NonEmpty(texts) + if t == "" then [] else [t]
  {
    assert (texts + [t])[..|texts|] == texts;
  }

  lemma SentInStep(v: View, m: Message, client: nat)
    requires InStep(v) && m.sequence == CountOf(v.senders, client) % SEQUENCES
    ensures InStep(ViewSent(v, m, client))
  {
    hide NonEmpty, OneClient, CountOf;
    var r, senders := |v.got|, v.senders + [client];
    assert (v.sent + [m.text])[..r] == v.sent[..r] && senders[..r] == v.senders[..r];
    forall i | 0 <= i < |v.senders| ensures NumberAt(senders, i) == NumberAt(v.senders, i) {
      assert senders[..i] == v.senders[..i];
    }
    assert senders[..|v.senders|] == v.senders;
  }

  /** Over every run that loses nothing, every pid stays in step. */
  lemma {:induction false} ReliableRunInStep(capacity: nat, events: seq<Event>, pid: nat)
    requires forall i :: 0 <= i < |events| ==> !events[i].Lose?
    ensures Good(Run(capacity, events).queue) && InStep(ViewOf(Run(capacity, events), pid))
  {
    if events == [] {
      assert InStep(ViewOf(START, pid));
    } else {
      hide InStep;
      var n := |events| - 1;
      var w := Run(capacity, events[..n]);
      ReliableRunInStep(capacity, events[..n], pid);
      match events[n] {
        case Send(from, client, text, time) =>
          SendViews(w, capacity, from, client, text, time, pid);
          SentInStep(ViewOf(w, pid), NextMessage(w, pid, client, text, time), client);
        case ReceiveNext(now) =>
          if w.queue != [] {
            ReceiveViews(w, capacity, now, pid);
            if w.queue[0].pid == pid {
              ReceivedInStep(ViewOf(w, pid));
            }
          }
        case UpdateServer(now) => UpdateViews(w, capacity, now, pid);
        case Lose(_) => assert false;
      }
    }
  }

  lemma {:induction false} NonEmptyPrefix(texts: seq<string>, n: nat)
    requires n <= |texts|
    ensures NonEmpty(texts[..n]) <= NonEmpty(texts)
  {
    if n < |texts| {
      NonEmptyPrefix(texts[..|texts| - 1], n);
      assert texts[..|texts| - 1][..n] == texts[..n];
    } else {
      assert texts[..n] == texts;
    }
  }

  /** The protocol without loss: the commands run are, in order, the non-empty sends received, a
      prefix of all; no sequence report is logged exactly until the server has received a second
      client under the pid, or 2^32 messages, when the client's counter wraps; and with one
      client and no more than 2^32 sends the server's number plus one plus what is queued is the
      client's next number. */
  lemma ReliableProtocol(capacity: nat, events: seq<Event>, pid: nat)
    requires forall i :: 0 <= i < |events| ==> !events[i].Lose?
    ensures var v := ViewOf(Run(capacity, events), pid);
            && |v.got| <= |v.sent| == |v.senders|
            && v.commands == NonEmpty(v.sent[..|v.got|]) <= NonEmpty(v.sent)
            && (v.reports == [] <==> OneClient(v.senders[..|v.got|]) && |v.got| <= 0x1_0000_0000)
            && (v.last.Some? && OneClient(v.senders) && |v.sent| <= SEQUENCES ==>
                  v.last.value + 1 + |v.messages| == |v.sent| == CountOf(v.senders, v.senders[0]))
  {
    hide Run, ViewOf, NonEmpty, OneClient;
    ReliableRunInStep(capacity, events, pid);
    var v := ViewOf(Run(capacity, events), pid);
    NonEmptyPrefix(v.sent, |v.got|);
    if v.last.Some? && OneClient(v.senders) && |v.sent| <= SEQUENCES {
      AloneNumber(v.senders, |v.got| - 1);
    }
  }

  lemma AloneNumber(senders: seq<nat>, i: nat)
    requires OneClient(senders) && i < |senders|
    ensures NumberAt(senders, i) == i && CountOf(senders, senders[0]) == |senders|
  {
    CountOfOne(senders[..i], senders[0]);
    CountOfOne(senders, senders[0]);
  }

  /** Messages from these clients of one process, in this order, each received before the next
      is sent. */
  function OneEach(pid: nat, clients: seq<nat>): (r: seq<Event>)
    ensures forall i :: 0 <= i < |r| ==> !r[i].Lose?
  {
    if clients == [] then []
    else var n := |clients| - 1; OneEach(pid, clients[..n]) + [Send(pid, clients[n], "", 0), ReceiveNext(0)]
  }

  lemma RunTwo(capacity: nat, events: seq<Event>, e: Event, f: Event)
    ensures Run(capacity, events + [e, f]) == Step(Step(Run(capacity, events), capacity, e), capacity, f)
  {
    hide Step;
    assert (events + [e, f])[..|events| + 1] == events + [e] && (events + [e])[..|events|] == events;
  }

  lemma SendThenReceive(w: World, capacity: nat, pid: nat, client: nat, text: string)
    requires w.queue == [] && capacity >= 1
    ensures var u := Step(Step(w, capacity, Send(pid, client, text, 0)), capacity, ReceiveNext(0));
            && u.queue == [] && |Of(u.got, pid)| == |Of(w.got, pid)| + 1
            && Of(u.senders, pid) == Of(w.senders, pid) + [client]
  {
    hide Receive, Payload, CountOf;
    var m, v := NextMessage(w, pid, client, text, 0), Step(w, capacity, Send(pid, client, text, 0));
    assert v.queue == [m] && v.got == w.got && m.pid == pid;
  }

  lemma {:induction false} OneEachReceived(capacity: nat, pid: nat, clients: seq<nat>)
    requires capacity >= 1
    ensures var w := Run(capacity, OneEach(pid, clients));
            w.queue == [] && |Of(w.got, pid)| == |clients| && Of(w.senders, pid) == clients
  {
    hide Step;
    if clients == [] {
    } else {
      hide Run, Of;
      var n := |clients| - 1;
      var events := OneEach(pid, clients[..n]);
      OneEachReceived(capacity, pid, clients[..n]);
      SendThenReceive(Run(capacity, events), capacity, pid, clients[n], "");
      RunTwo(capacity, events, Send(pid, clients[n], "", 0), ReceiveNext(0));
    }
  }

  /** Any queue with room and any list of clients of one process: a sequence report is logged
      exactly when two of them differ or there are more than 2^32 messages. */
  lemma OneEachReports(capacity: nat, pid: nat, clients: seq<nat>)
    requires capacity >= 1
    ensures ReportsOf(Run(capacity, OneEach(pid, clients)).server.log, pid) != []
            <==> !OneClient(clients) || |clients| > SEQUENCES
  {
    hide Run, OneEach, ReportsOf, InStep, OneClient;
    OneEachReceived(capacity, pid, clients);
    ReliableProtocol(capacity, OneEach(pid, clients), pid);
    assert clients[..|clients|] == clients;
  }

  // ---- A queue that may lose messages ----

  ghost predicate Increasing(ns: seq<nat>) {
    forall i, j :: 0 <= i < j < |ns| ==> ns[i] < ns[j]
  }

  function Numbers(messages: seq<Message>): (r: seq<nat>)
    ensures |r| == |messages| && forall i :: 0 <= i < |r| ==> r[i] == messages[i].sequence
  {
    seq(|messages|, i requires 0 <= i < |messages| => messages[i].sequence)
  }

  /** The numbers received and then those queued go up, all below the next to send; the
      server's number is that of the last received once two have arrived; and from then on a
      report, always of a missing number, exists exactly when a number below the last received
      was not received. */
  ghost predicate MayHaveLost(v: View) {
    var n := |v.got|;
    && Increasing(v.got + Numbers(v.messages))
    && (forall x :: x in v.got + Numbers(v.messages) ==> x < |v.sent|)
    && v.last == (if n == 0 then None else if n == 1 then Some(0) else Some(v.got[n - 1]))
    && (forall r :: r in v.reports ==> r.MissingSequence?)
    && (if n < 2 then v.reports == [] else v.reports != [] <==> v.got[n - 1] + 1 != n)
  }

  lemma {:induction false} IncreasingAtLeast(ns: seq<nat>, i: nat)
    requires Increasing(ns) && i < |ns|
    ensures ns[i] >= i && ns[|ns| - 1] - ns[i] >= |ns| - 1 - i
    decreases |ns|
  {
    if |ns| > 1 {
      if i > 0 {
        IncreasingAtLeast(ns[1..], i - 1);
        assert ns[0] < ns[1] && ns[1..][0] == ns[1];
        IncreasingAtLeast(ns[..|ns| - 1], if i < |ns| - 1 then i else 0);
        LowerBound(ns, i);
      } else {
        IncreasingAtLeast(ns[1..], 0);
        assert ns[0] < ns[1] && ns[1..][0] == ns[1];
      }
    }
  }

  lemma {:induction false} LowerBound(ns: seq<nat>, i: nat)
    requires Increasing(ns) && i < |ns|
    ensures ns[i] >= i
  {
    if i == 0 {
    } else {
      LowerBound(ns, i - 1);
    }
  }

  /** Numbers that go up leave no gap exactly when the last is one less than how many there
      are. */
  lemma NoGapIff(ns: seq<nat>)
    requires Increasing(ns) && ns != []
    ensures ns[|ns| - 1] + 1 != |ns| <==> exists x: nat :: x < ns[|ns| - 1] && x !in ns
  {
    var n := |ns|;
    if ns[n - 1] + 1 == n {
      forall x: nat | x < ns[n - 1] ensures x in ns {
        IncreasingAtLeast(ns, x);
        assert ns[x] == x;
      }
    } else {
      var i := FirstGap(ns);
      assert i < ns[n - 1] && i !in ns;
    }
  }

  lemma FirstGap(ns: seq<nat>) returns (i: nat)
    requires Increasing(ns) && ns != [] && ns[|ns| - 1] + 1 != |ns|
    ensures i < ns[|ns| - 1] && i !in ns
  {
    i := 0;
    while ns[i] == i
      invariant 0 <= i < |ns|
      invariant forall j :: 0 <= j < i ==> ns[j] == j
      decreases |ns| - i
    {
      i := i + 1;
    }
    LowerBound(ns, i);
  }

  lemma ReceivedMayHaveLost(v: View)
    requires MayHaveLost(v) && v.messages != [] && |v.sent| <= SEQUENCES
    ensures MayHaveLost(ViewReceived(v))
  {
    var w, m, n := ViewReceived(v), v.messages[0], |v.got|;
    assert w.got + Numbers(w.messages) == v.got + Numbers(v.messages);
    assert (v.got + Numbers(v.messages))[n] == m.sequence;
    if n > 0 {
      assert (v.got + Numbers(v.messages))[n - 1] == v.got[n - 1];
      assert Increasing(v.got) by {
        assert forall i :: 0 <= i < n ==> (v.got + Numbers(v.messages))[i] == v.got[i];
      }
      LowerBound(v.got, n - 1);
    }
  }

  lemma SentMayHaveLost(v: View, m: Message, client: nat)
    requires MayHaveLost(v) && m.sequence == |v.sent| < SEQUENCES
    ensures MayHaveLost(ViewSent(v, m, client))
  {
    assert v.got + Numbers(v.messages + [m]) == v.got + Numbers(v.messages) + [m.sequence];
    var all := v.got + Numbers(v.messages);
    assert forall i :: 0 <= i < |all| ==> all[i] in all;
  }

  lemma RemoveKeepsIncreasing(ns: seq<nat>, k: nat)
    requires Increasing(ns) && k < |ns|
    ensures Increasing(ns[..k] + ns[k + 1..])
    ensures forall x :: x in ns[..k] + ns[k + 1..] ==> x in ns
  {
  }

  lemma LostNumbers(v: View, j: nat)
    requires j < |v.messages| && Increasing(v.got + Numbers(v.messages))
    ensures var rest := v.got + Numbers(ViewLost(v, j).messages);
            Increasing(rest) && forall x :: x in rest ==> x in v.got + Numbers(v.messages)
  {
    var all, n, w := v.got + Numbers(v.messages), |v.got|, ViewLost(v, j);
    RemoveKeepsIncreasing(all, n + j);
    assert v.got + Numbers(w.messages) == all[..n + j] + all[n + j + 1..];
  }

  lemma LostMayHaveLost(v: View, j: nat)
    requires MayHaveLost(v) && j < |v.messages|
    ensures MayHaveLost(ViewLost(v, j))
  {
    hide Numbers;
    LostNumbers(v, j);
  }

  ghost predicate LossyOk(w: World, pid: nat) {
    && Good(w.queue) && |Of(w.sent, pid)| == |Of(w.senders, pid)|
    && (|Of(w.sent, pid)| <= SEQUENCES && OneClient(Of(w.senders, pid)) ==> MayHaveLost(ViewOf(w, pid)))
  }

  /** The next number of the only client under a pid. */
  lemma AloneNext(senders: seq<nat>, client: nat)
    requires OneClient(senders + [client])
    ensures OneClient(senders) && CountOf(senders, client) == |senders|
  {
    var all := senders + [client];
    assert forall i :: 0 <= i < |all| ==> all[i] == all[0];
    assert forall i :: 0 <= i < |senders| ==> senders[i] == all[i] == all[|senders|];
    CountOfOne(senders, client);
  }

  lemma LossySend(w: World, capacity: nat, from: nat, client: nat, text: string, time: nat, pid: nat)
    requires LossyOk(w, pid)
    ensures LossyOk(Step(w, capacity, Send(from, client, text, time)), pid)
  {
    hide MayHaveLost, Payload, MessagesOf, ReportsOf, CommandsOf, Good, CountOf, OneClient;
    SendViews(w, capacity, from, client, text, time, pid);
    if from == pid && |w.queue| < capacity && |Of(w.sent, pid)| < SEQUENCES
       && OneClient(Of(w.senders, pid) + [client]) {
      AloneNext(Of(w.senders, pid), client);
      SentMayHaveLost(ViewOf(w, pid), NextMessage(w, pid, client, text, time), client);
    }
  }

  lemma LossyReceive(w: World, capacity: nat, now: nat, pid: nat)
    requires LossyOk(w, pid)
    ensures LossyOk(Step(w, capacity, ReceiveNext(now)), pid)
  {
    hide MayHaveLost, Receive, MessagesOf, ReportsOf, CommandsOf, Good;
    if w.queue != [] {
      ReceiveViews(w, capacity, now, pid);
      if w.queue[0].pid == pid && |Of(w.sent, pid)| <= SEQUENCES && OneClient(Of(w.senders, pid)) {
        ReceivedMayHaveLost(ViewOf(w, pid));
      }
    }
  }

  lemma LossyUpdate(w: World, capacity: nat, now: nat, pid: nat)
    requires LossyOk(w, pid)
    ensures LossyOk(Step(w, capacity, UpdateServer(now)), pid)
  {
    hide MayHaveLost, MessagesOf, ReportsOf, CommandsOf, Good, Update;
    UpdateViews(w, capacity, now, pid);
  }

  lemma LossyLose(w: World, capacity: nat, k: nat, pid: nat)
    requires LossyOk(w, pid)
    ensures LossyOk(Step(w, capacity, Lose(k)), pid)
  {
    hide MayHaveLost, MessagesOf, ReportsOf, CommandsOf, Good;
    if k < |w.queue| {
      var j := LoseViews(w, capacity, k, pid);
      if w.queue[k].pid == pid && |Of(w.sent, pid)| <= SEQUENCES && OneClient(Of(w.senders, pid)) {
        LostMayHaveLost(ViewOf(w, pid), j);
      }
    }
  }

  lemma {:induction false} LossyRun(capacity: nat, events: seq<Event>, pid: nat)
    ensures LossyOk(Run(capacity, events), pid)
  {
    if events == [] {
      assert MayHaveLost(ViewOf(START, pid));
    } else {
      hide LossyOk, Step;
      var n := |events| - 1;
      var w := Run(capacity, events[..n]);
      LossyRun(capacity, events[..n], pid);
      match events[n]
      case Send(from, client, text, time) => LossySend(w, capacity, from, client, text, time, pid);
      case ReceiveNext(now) => LossyReceive(w, capacity, now, pid);
      case UpdateServer(now) => LossyUpdate(w, capacity, now, pid);
      case Lose(k) => LossyLose(w, capacity, k, pid);
    }
  }

  /** The protocol over a queue that may lose any message, with one client under the pid: up to
      2^32 sends, nothing is ever reported out of order or twice, and once two messages have
      arrived a missing number is reported if and only if some message before the last received
      was lost. */
  lemma LossyProtocol(capacity: nat, events: seq<Event>, pid: nat)
    requires OneClient(Of(Run(capacity, events).senders, pid)) && |Of(Run(capacity, events).sent, pid)| <= SEQUENCES
    ensures var v := ViewOf(Run(capacity, events), pid);
            && (forall r :: r in v.reports ==> r.MissingSequence?)
            && (|v.got| >= 2 ==>
                  (v.reports != [] <==> exists x: nat :: x < v.got[|v.got| - 1] && x !in v.got))
  {
    hide Run, ViewOf;
    LossyRun(capacity, events, pid);
    var v := ViewOf(Run(capacity, events), pid);
    if |v.got| >= 2 {
      assert Increasing(v.got) by {
        assert forall i :: 0 <= i < |v.got| ==> (v.got + Numbers(v.messages))[i] == v.got[i];
      }
      NoGapIff(v.got);
    }
  }

  // ---- The drain loop ----

  /** `ConsoleCommandReceiver::execute`: receives until a receive returns false, which is the
      end of the queue or a message with a bad magic or version.  The commands run, and what is
      left in the queue. */
  function Drain(s: Server, queue: seq<Message>, now: nat): (Server, seq<Message>, seq<string>)
    decreases |queue|
  {
    if queue == [] then (s, [], [])
    else
      var (t, line) := Receive(s, queue[0], now);
      if line.None? then (t, queue[1..], [])
      else
        var (u, left, commands) := Drain(t, queue[1..], now);
        (u, left, (if line.value != "" then [line.value] else []) + commands)
  }

  function Texts(queue: seq<Message>): seq<string> {
    if queue == [] then [] else (if queue[0].text != "" then [queue[0].text] else []) + Texts(queue[1..])
  }

  /** A queue of good messages is drained to the end, and every command line in it is run, in
      order. */
  lemma {:induction false} DrainsGoodQueue(s: Server, queue: seq<Message>, now: nat)
    requires Good(queue)
    ensures Drain(s, queue, now).1 == [] && Drain(s, queue, now).2 == Texts(queue)
    decreases |queue|
  {
    if queue == [] {
    } else {
      assert queue[0] in queue;
      DrainsGoodQueue(Receive(s, queue[0], now).0, queue[1..], now);
    }
  }

  /** A bad message is dropped and stops the drain; what follows it waits for the next one. */
  lemma {:induction false} DrainStopsAtBad(s: Server, front: seq<Message>, bad: Message, back: seq<Message>, now: nat)
    requires Good(front) && (bad.magic != MAGIC || bad.version != VERSION)
    ensures Drain(s, front + [bad] + back, now).1 == back
    ensures Drain(s, front + [bad] + back, now).2 == Texts(front)
    decreases |front|
  {
    var queue := front + [bad] + back;
    if front == [] {
      assert queue[1..] == back;
    } else {
      assert front[0] in front;
      assert queue[1..] == front[1..] + [bad] + back;
      DrainStopsAtBad(Receive(s, front[0], now).0, front[1..], bad, back, now);
    }
  }

  // ---- The connected flag ----

  /** What happens to a server: a message it takes from the queue, an update. */
  datatype ServerEvent = Got(m: Message, now: nat) | Updated(now: nat)

  function ServerStep(s: Server, e: ServerEvent): Server {
    match e
    case Got(m, now) => Receive(s, m, now).0
    case Updated(now) => Update(s, now)
  }

  function ServerRun(history: seq<ServerEvent>): Server {
    if history == [] then NEW_SERVER
    else var n := |history| - 1; ServerStep(ServerRun(history[..n]), history[n])
  }

  lemma ServerRunSnoc(history: seq<ServerEvent>, e: ServerEvent)
    ensures ServerRun(history + [e]) == ServerStep(ServerRun(history), e)
    ensures !ServerRun(history[..0]).connected
  {
    hide ServerStep;
    assert (history + [e])[..|history|] == history;
  }

  /** What an event of a run is to its server. */
  function Happens(w: World, e: Event): seq<ServerEvent> {
    match e
    case ReceiveNext(now) => if w.queue == [] then [] else [Got(w.queue[0], now)]
    case UpdateServer(now) => [Updated(now)]
    case _ => []
  }

  function HistoryOf(capacity: nat, events: seq<Event>): seq<ServerEvent> {
    if events == [] then []
    else var n := |events| - 1; HistoryOf(capacity, events[..n]) + Happens(Run(capacity, events[..n]), events[n])
  }

  lemma StepServer(w: World, capacity: nat, e: Event, history: seq<ServerEvent>)
    requires w.server == ServerRun(history)
    ensures Step(w, capacity, e).server == ServerRun(history + Happens(w, e))
  {
    hide ServerRun, Receive, Update, NextMessage;
    if Happens(w, e) == [] {
      assert history + [] == history;
    } else {
      ServerRunSnoc(history, Happens(w, e)[0]);
    }
  }

  lemma {:induction false} ServerOfRun(capacity: nat, events: seq<Event>)
    ensures Run(capacity, events).server == ServerRun(HistoryOf(capacity, events))
  {
    if events == [] {
    } else {
      hide Step, Happens, ServerRun;
      var n := |events| - 1;
      ServerOfRun(capacity, events[..n]);
      StepServer(Run(capacity, events[..n]), capacity, events[n], HistoryOf(capacity, events[..n]));
    }
  }

  predicate Heard(e: ServerEvent) {
    e.Got? && e.m.magic == 0xBADF00D5 && e.m.version == 2
  }

  /** The first message under its pid. */
  ghost predicate FirstHeard(history: seq<ServerEvent>, i: nat)
    requires i < |history|
  {
    Heard(history[i]) && forall j :: 0 <= j < i && Heard(history[j]) ==> history[j].m.pid != history[i].m.pid
  }

  /** When a message was last heard, from any client; 0 for never. */
  function LastHeard(history: seq<ServerEvent>): nat {
    if history == [] then 0
    else var n := |history| - 1; if Heard(history[n]) then history[n].now else LastHeard(history[..n])
  }

  /** An update that finds the last message too old. */
  predicate FoundSilent(history: seq<ServerEvent>, k: nat)
    requires k < |history|
  {
    && history[k].Updated?
    && var last := LastHeard(history[..k]);
       last != 0 && history[k].now > last + 5_000_000_000
  }

  /** Some pid's first message was heard, and no update since has found silence. */
  ghost predicate ConnectedSince(history: seq<ServerEvent>, from: nat) {
    exists i :: from <= i < |history| && FirstHeard(history, i)
                && forall k :: i < k < |history| ==> !FoundSilent(history, k)
  }

  lemma {:induction false} ServerHeartbeat(history: seq<ServerEvent>)
    ensures ServerRun(history).lastHeartbeatTime == LastHeard(history)
  {
    if history == [] {
    } else {
      hide ClientAfter, CheckLog, TimeLog, CommandLog;
      ServerHeartbeat(history[..|history| - 1]);
    }
  }

  ghost predicate HeardFrom(history: seq<ServerEvent>, pid: nat) {
    exists i :: 0 <= i < |history| && Heard(history[i]) && history[i].m.pid == pid
  }

  lemma HeardFromStep(history: seq<ServerEvent>, pid: nat)
    requires history != []
    ensures var n := |history| - 1;
            HeardFrom(history, pid)
            <==> HeardFrom(history[..n], pid) || (Heard(history[n]) && history[n].m.pid == pid)
  {
    hide Heard;
    var front := history[..|history| - 1];
    assert forall i :: 0 <= i < |front| ==> front[i] == history[i];
  }

  lemma {:induction false} ServerKnows(history: seq<ServerEvent>, pid: nat)
    ensures pid in ServerRun(history).states <==> HeardFrom(history, pid)
  {
    if history == [] {
    } else {
      hide HeardFrom, ClientAfter, CheckLog, TimeLog, CommandLog;
      ServerKnows(history[..|history| - 1], pid);
      HeardFromStep(history, pid);
    }
  }

  /** When a pid was last heard, and when it last sent a command; 0 for never. */
  function LastHeardFrom(history: seq<ServerEvent>, pid: nat): nat {
    if history == [] then 0
    else
      var n := |history| - 1;
      if Heard(history[n]) && history[n].m.pid == pid then history[n].now else LastHeardFrom(history[..n], pid)
  }

  function LastCommandFrom(history: seq<ServerEvent>, pid: nat): nat {
    if history == [] then 0
    else
      var n := |history| - 1;
      if Heard(history[n]) && history[n].m.pid == pid && history[n].m.text != "" then history[n].now
      else LastCommandFrom(history[..n], pid)
  }

  /** When any pid last sent a command. */
  function LastCommand(history: seq<ServerEvent>): nat {
    if history == [] then 0
    else
      var n := |history| - 1;
      if Heard(history[n]) && history[n].m.text != "" then history[n].now else LastCommand(history[..n])
  }

  /** The times the server keeps are those. */
  lemma {:induction false} ServerTimes(history: seq<ServerEvent>, pid: nat)
    ensures var s := ServerRun(history);
            && s.lastCommandTime == LastCommand(history)
            && (pid in s.states ==>
                  && s.states[pid].lastHeartbeatTime == LastHeardFrom(history, pid)
                  && s.states[pid].lastCommandTime == LastCommandFrom(history, pid))
            && (pid !in s.states ==> LastHeardFrom(history, pid) == LastCommandFrom(history, pid) == 0)
  {
    if history == [] {
    } else {
      hide CheckLog, TimeLog, CommandLog;
      ServerTimes(history[..|history| - 1], pid);
    }
  }

  function AllGot(queue: seq<Message>, now: nat): seq<ServerEvent> {
    if queue == [] then [] else [Got(queue[0], now)] + AllGot(queue[1..], now)
  }

  /** A drain is the run of the server over what it takes from the queue, in order. */
  lemma {:induction false} DrainIsRun(history: seq<ServerEvent>, queue: seq<Message>, now: nat)
    ensures var (t, left, _) := Drain(ServerRun(history), queue, now);
            && |left| <= |queue| && left == queue[|queue| - |left|..]
            && t == ServerRun(history + AllGot(queue[..|queue| - |left|], now))
    decreases |queue|
  {
    hide Receive, ServerRun;
    if queue == [] {
      assert history + [] == history;
    } else {
      var first, rest := Got(queue[0], now), queue[1..];
      ServerRunSnoc(history, first);
      DrainIsRun(history + [first], rest, now);
      var left := Drain(ServerRun(history), queue, now).1;
      var taken := queue[..|queue| - |left|];
      if |taken| == 1 {
        assert AllGot(taken, now) == [first] + AllGot(taken[1..], now) && AllGot(taken[1..], now) == [];
      }
      if taken != [] {
        assert taken[1..] == rest[..|rest| - |left|];
        assert history + AllGot(taken, now) == history + [first] + AllGot(taken[1..], now);
        assert history + [first] + [] == history + [first];
      }
    }
  }

  /** What the last event does to being connected. */
  lemma ConnectedStep(history: seq<ServerEvent>, from: nat)
    requires from < |history|
    ensures var n := |history| - 1;
            ConnectedSince(history, from)
            <==> FirstHeard(history, n) || (ConnectedSince(history[..n], from) && !FoundSilent(history, n))
  {
    hide LastHeard, Heard;
    var n := |history| - 1;
    var front := history[..n];
    forall i | 0 <= i < n
      ensures FirstHeard(front, i) == FirstHeard(history, i) && FoundSilent(front, i) == FoundSilent(history, i)
    {
      assert front[..i] == history[..i];
    }
    if ConnectedSince(front, from) && !FoundSilent(history, n) {
      var i :| from <= i < n && FirstHeard(front, i) && forall k :: i < k < n ==> !FoundSilent(front, k);
      assert FirstHeard(history, i) && forall k :: i < k < |history| ==> !FoundSilent(history, k);
    }
    if ConnectedSince(history, from) && !FirstHeard(history, n) {
      var i :| from <= i < |history| && FirstHeard(history, i)
               && forall k :: i < k < |history| ==> !FoundSilent(history, k);
      assert FirstHeard(front, i) && forall k :: i < k < n ==> !FoundSilent(front, k);
    }
  }

  /** A server not connected after history is connected later exactly when the first message of
      some pid has come since, and no update since then has found silence: the pids already
      known cannot bring the flag back, however many messages they send. */
  lemma {:induction false} ConnectedIff(history: seq<ServerEvent>, from: nat)
    requires from <= |history| && !ServerRun(history[..from]).connected
    ensures ServerRun(history).connected <==> ConnectedSince(history, from)
    decreases |history|
  {
    if from == |history| {
      assert history[..from] == history;
    } else {
      hide ConnectedSince, LastHeard;
      var n := |history| - 1;
      assert history[..n][..from] == history[..from];
      ConnectedIff(history[..n], from);
      ConnectedStep(history, from);
      ServerHeartbeat(history[..n]);
      FirstHeardIsUnknown(history);
    }
  }

  lemma FirstHeardIsUnknown(history: seq<ServerEvent>)
    requires history != []
    ensures var n := |history| - 1;
            FirstHeard(history, n) <==> Heard(history[n]) && history[n].m.pid !in ServerRun(history[..n]).states
  {
    hide ServerRun;
    var n := |history| - 1;
    assert forall i :: 0 <= i < n ==> history[..n][i] == history[i];
    if Heard(history[n]) {
      ServerKnows(history[..n], history[n].m.pid);
    }
  }

  /** A client that falls silent and sends again has been heard, and the flag stays down. */
  lemma HeardButNotConnected(m: Message, first: nat, update: nat, again: nat)
    requires m.magic == MAGIC && m.version == VERSION && first > 0 && update > first + SILENT_AFTER
    ensures var s := ServerRun([Got(m, first), Updated(update), Got(m, again)]);
            !s.connected && s.lastHeartbeatTime == again && m.pid in s.states
  {
    hide ClientAfter, CheckLog, TimeLog, CommandLog;
    var history := [Got(m, first), Updated(update), Got(m, again)];
    assert history[..2] == [Got(m, first), Updated(update)] && history[..2][..1] == [Got(m, first)];
    assert history[..2][..1][..0] == [];
    assert ServerRun(history[..2][..1]) == ServerStep(NEW_SERVER, Got(m, first));
  }
}
