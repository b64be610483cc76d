/** The console's objects: clients that share one bounded queue with a server, and the receiver
    that drains it. */
module ConsoleObjects {
  import opened Console
  import opened Options

  class MessageQueue {
    const capacity: nat
    var messages: seq<Message>

    constructor (capacity: nat)
      ensures messages == [] && this.capacity == capacity
    {
      this.capacity, messages := capacity, [];
    }

    method TrySend(m: Message) returns (sent: bool)
      modifies this
      ensures sent == (|old(messages)| < capacity)
      ensures messages == if sent then old(messages) + [m] else old(messages)
    {
      sent := |messages| < capacity;
      if sent {
        messages := messages + [m];
      }
    }

    method TryReceive() returns (m: Option<Message>)
      modifies this
      ensures m == if old(messages) == [] then None else Some(old(messages)[0])
      ensures messages == if old(messages) == [] then [] else old(messages)[1..]
    {
      if messages == [] {
        return None;
      }
      m := Some(messages[0]);
      messages := messages[1..];
    }
  }

  class IpcConsoleClient {
    const queue: MessageQueue
    const pid: nat
    var nextSequenceNumber: nat
    /** The payloads sent so far. */
    ghost var sent: seq<string>

    ghost predicate Valid()
      reads this
    {
      nextSequenceNumber == |sent| % SEQUENCES
    }

    /** Sends a first heartbeat, whose failure is ignored. */
    constructor (queue: MessageQueue, pid: nat, time: nat)
      modifies queue
      ensures Valid() && this.queue == queue && this.pid == pid
      ensures if |old(queue.messages)| < queue.capacity
              then sent == [""] && queue.messages == old(queue.messages) + [Message(MAGIC, VERSION, pid, time, 0, "")]
              else sent == [] && queue.messages == old(queue.messages)
    {
      this.queue, this.pid := queue, pid;
      nextSequenceNumber, sent := 0, [];
      new;
      var _ := Send("", time);
    }

    /** The sequence number advances only on success. */
    method Send(text: string, time: nat) returns (ok: bool)
      requires Valid()
      modifies this, queue
      ensures Valid() && ok == (|old(queue.messages)| < queue.capacity)
      ensures sent == if ok then old(sent) + [Payload(text)] else old(sent)
      ensures '\0' !in text && |text| < MESSAGE_SIZE ==> Payload(text) == text
      ensures queue.messages == old(queue.messages)
                + if ok then [Message(MAGIC, VERSION, pid, time, |old(sent)| % SEQUENCES, Payload(text))] else []
    {
      PayloadIs(text);
      ok := queue.TrySend(Message(MAGIC, VERSION, pid, time, nextSequenceNumber, Payload(text)));
      if !ok {
        return false;
      }
      nextSequenceNumber := (nextSequenceNumber + 1) % SEQUENCES;
      sent := sent + [Payload(text)];
      return true;
    }
  }

  class IpcConsoleServer {
    const queue: MessageQueue
    var log: seq<Report>
    var clientConnected: bool
    var lastCommandTime: nat
    var lastHeartbeatTime: nat
    var clientStates: map<nat, ClientState>
    /** What happened to the server so far. */
    ghost var history: seq<ServerEvent>

    function State(): Server
      reads this
    {
      Server(clientStates, clientConnected, lastCommandTime, lastHeartbeatTime, log)
    }

    ghost predicate Valid()
      reads this
    {
      State() == ServerRun(history)
    }

    constructor (queue: MessageQueue)
      ensures Valid() && history == [] && State() == NEW_SERVER && this.queue == queue
    {
      this.queue, history := queue, [];
      log, clientConnected, lastCommandTime, lastHeartbeatTime, clientStates := [], false, 0, 0, map[];
    }

    /** The message, or None where the C++ returns false. */
    method Receive(time: nat) returns (message: Option<string>)
      requires Valid()
      modifies this, queue
      ensures Valid()
      ensures history == old(history) + if old(queue.messages) == [] then [] else [Got(old(queue.messages)[0], time)]
      ensures if old(queue.messages) == [] then State() == old(State()) && message == None && queue.messages == []
              else (State(), message) == Console.Receive(old(State()), old(queue.messages)[0], time)
                   && queue.messages == old(queue.messages)[1..]
    {
      var received := queue.TryReceive();
      if received.None? {
        return None;
      }
      var m := received.value;
      ServerRunSnoc(history, Got(m, time));
      history := history + [Got(m, time)];
      if m.magic != MAGIC {
        log := log + [BadMagic];
        return None;
      }
      if m.version != VERSION {
        log := log + [MismatchedVersion];
        return None;
      }
      var state := ClientState(0, 0, 0);
      if m.pid !in clientStates {
        clientConnected := true;
        log := log + [ClientConnected(m.pid)];
      } else {
        state := clientStates[m.pid];
        log := log + SequenceReport(m.pid, m.sequence, state.lastSequenceNumber);
        state := state.(lastSequenceNumber := m.sequence);
      }
      ghost var check := CheckLog(old(State()), m);
      assert log == old(log) + check;
      if time > m.time + STALE_AFTER {
        log := log + [Stale(m.pid)];
      }
      assert log == old(log) + check + TimeLog(m, time);
      lastHeartbeatTime := time;
      state := state.(lastHeartbeatTime := time);
      if m.text != "" {
        lastCommandTime := time;
        state := state.(lastCommandTime := time);
        log := log + [Received(m.pid, m.text)];
      }
      assert log == old(log) + check + TimeLog(m, time) + CommandLog(m);
      assert state == ClientAfter(old(State()), m, time);
      clientStates := clientStates[m.pid := state];
      return Some(m.text);
    }

    /** Drops the flag when the last message heard is too old.  From then on the flag is up again
        exactly when the first message of some pid has come and no update has found silence. */
    method Update(time: nat)
      requires Valid()
      modifies this
      ensures Valid() && history == old(history) + [Updated(time)]
      ensures clientConnected <==> ConnectedSince(history, 0)
      ensures FoundSilent(history, |history| - 1) ==> !clientConnected
      ensures log == old(log) + if old(clientConnected) && !clientConnected then [NoHeartbeats] else []
      ensures (clientStates, lastCommandTime, lastHeartbeatTime)
              == old((clientStates, lastCommandTime, lastHeartbeatTime))
    {
      hide ConnectedSince, LastHeard;
      ServerRunSnoc(history, Updated(time));
      ServerHeartbeat(history);
      if clientConnected {
        if lastHeartbeatTime != 0 && time > lastHeartbeatTime + SILENT_AFTER {
          clientConnected := false;
          log := log + [NoHeartbeats];
        }
      }
      history := history + [Updated(time)];
      assert history[..|history| - 1] == old(history);
      ConnectedIff(history, 0);
    }
  }

  class ConsoleCommandReceiver {
    const server: IpcConsoleServer
    /** The command lines handed to the command manager so far. */
    var executed: seq<string>

    constructor (server: IpcConsoleServer)
      ensures this.server == server && executed == []
    {
      this.server, executed := server, [];
    }

    method Execute(time: nat)
      requires server.Valid()
      modifies this, server, server.queue
      ensures server.Valid()
      ensures (server.State(), server.queue.messages)
              == (Drain(old(server.State()), old(server.queue.messages), time).0,
                  Drain(old(server.State()), old(server.queue.messages), time).1)
      ensures executed == old(executed) + Drain(old(server.State()), old(server.queue.messages), time).2
    {
      hide Console.Receive, IpcConsoleServer.Valid;
      ghost var whole := Drain(server.State(), server.queue.messages, time);
      ghost var before := server.State();
      ghost var queue := server.queue.messages;
      var message := server.Receive(time);
      while message.Some?
        invariant server.Valid()
        invariant queue == [] ==> server.State() == before && message == None && server.queue.messages == []
        invariant queue != [] ==> (server.State(), message) == Console.Receive(before, queue[0], time)
                                  && server.queue.messages == queue[1..]
        invariant var rest := Drain(before, queue, time);
                  whole.0 == rest.0 && whole.1 == rest.1 && old(executed) + whole.2 == executed + rest.2
        decreases |queue|
      {
        ghost var executed0, line := executed, message.value;
        ghost var rest := Drain(server.State(), server.queue.messages, time).2;
        if message.value != "" {
          executed := executed + [message.value];
        }
        assert executed + rest == executed0 + ((if line != "" then [line] else []) + rest);
        before := server.State();
        queue := server.queue.messages;
        message := server.Receive(time);
      }
    }
  }
}
