/**
 Resumable delivery: clients that read a job's log over any number of connections, each resumed
 with the number of the last event they saw, while the job emits, drops slow readers and ends.
 */
module Delivery {
  import opened TurnLog
  import opened Wrappers

  /** A connection still owes its replay; then it follows its channel, if it has one. */
  datatype Connection = Offline | Online(replay: seq<StreamEvent>, updates: Option<nat>)

  /** `got` is everything written to the client, over all its connections. */
  datatype Client = Client(got: seq<StreamEvent>, connection: Connection)

  datatype Net = Net(log: Log, clients: seq<Client>)

  datatype Action =
    | EmitOne(payload: Payload)
    | EmitLast(payload: Payload)
    | FinishJob
    | AbortJob
    | NewClient
    | Connect(k: nat)
    | Deliver(k: nat)
    | Disconnect(k: nat)
    | WriteInVain(c: nat)
    | Leave(c: nat)

  const EMPTY_NET := Net(EMPTY_LOG, [])

  /** The `Last-Event-ID` a client sends: that of the last event it was given, or none. */
  function LastSeen(client: Client): nat {
    if client.got == [] then 0 else client.got[|client.got| - 1].id
  }

  /** One turn of the delivery loop: first the replay, then the channel until it is closed and empty. */
  function DeliverTo(log: Log, client: Client): (Log, Client) {
    match client.connection
    case Offline => (log, client)
    case Online(replay, updates) =>
      if replay != [] then (log, Client(client.got + [replay[0]], Online(replay[1..], updates)))
      else if updates == None then (log, client.(connection := Offline))
      else if updates.value >= |log.channels| then (log, client)
      else
        var channel := log.channels[updates.value];
        if channel.queue != [] then (Receive(log, updates.value), client.(got := client.got + [channel.queue[0]]))
        else if channel.closed then (log, client.(connection := Offline))
        else (log, client)
  }

  /**
   Every action is one atomic section; an action that cannot happen changes nothing. `Disconnect` is the
   client's end of a connection. The server's loop may learn of it much later: until then its channel stays
   subscribed and what it takes from it is written in vain, and only then does it unsubscribe, even if
   the client has connected again meanwhile.
   */
  function Step(net: Net, action: Action): Net {
    match action
    case EmitOne(payload) => net.(log := Emit(net.log, payload))
    case EmitLast(payload) => net.(log := EmitTerminal(net.log, payload))
    case FinishJob => net.(log := Finish(net.log))
    case AbortJob => net.(log := RequestAbort(net.log))
    case NewClient => net.(clients := net.clients + [Client([], Offline)])
    case Connect(k) =>
      if k >= |net.clients| || net.clients[k].connection != Offline then net
      else
        var (log, subscription) := Subscribe(net.log, LastSeen(net.clients[k]));
        Net(log, net.clients[k := net.clients[k].(connection := Online(subscription.replay, subscription.updates))])
    case Deliver(k) =>
      if k >= |net.clients| then net
      else
        var (log, client) := DeliverTo(net.log, net.clients[k]);
        Net(log, net.clients[k := client])
    case Disconnect(k) =>
      if k >= |net.clients| then net else net.(clients := net.clients[k := net.clients[k].(connection := Offline)])
    case WriteInVain(c) =>
      if Owned(net.clients, c) || c >= |net.log.channels| || net.log.channels[c].queue == [] then net
      else net.(log := Receive(net.log, c))
    case Leave(c) =>
      if Owned(net.clients, c) then net else net.(log := Unsubscribe(net.log, c))
  }

  predicate OwnsChannel(client: Client, c: nat) {
    client.connection.Online? && client.connection.updates == Some(c)
  }

  /** Some client still reads what is written from this channel. */
  predicate Owned(clients: seq<Client>, c: nat) {
    exists k | 0 <= k < |clients| :: OwnsChannel(clients[k], c)
  }

  function Run(net: Net, actions: seq<Action>): Net {
    if actions == [] then net else Step(Run(net, actions[..|actions| - 1]), actions[|actions| - 1])
  }

  // ---------- the invariant ----------

  /** What a client got, is owed as replay and has queued is one stretch of the log from its start. */
  ghost predicate InOrder(log: Log, client: Client) {
    match client.connection
    case Offline => client.got <= log.events
    case Online(replay, None) => log.terminal && client.got + replay == log.events
    case Online(replay, Some(c)) =>
      && c < |log.channels|
      && client.got + replay + log.channels[c].queue <= log.events
      && (c in log.subscribers ==> client.got + replay + log.channels[c].queue == log.events)
  }

  ghost predicate Separate(clients: seq<Client>) {
    forall j, k, c | 0 <= j < k < |clients| && OwnsChannel(clients[j], c) :: !OwnsChannel(clients[k], c)
  }

  ghost predicate Sound(net: Net) {
    && WellFormed(net.log)
    && (forall k | 0 <= k < |net.clients| :: InOrder(net.log, net.clients[k]))
    && Separate(net.clients)
  }

  lemma EmitInOrder(log: Log, payload: Payload, client: Client)
    requires WellFormed(log) && InOrder(log, client)
    ensures InOrder(Emit(log, payload), client)
    ensures InOrder(EmitTerminal(log, payload), client)
  {
    if client.connection.Online? && client.connection.updates.Some? && !log.terminal {
      var c := client.connection.updates.value;
      var event := StreamEvent(log.nextEventId + 1, payload);
      var held := client.got + client.connection.replay;
      assert held + (log.channels[c].queue + [event]) == held + log.channels[c].queue + [event];
      assert log.events <= log.events + [event];
    }
  }

  lemma FinishInOrder(log: Log, client: Client)
    requires WellFormed(log) && InOrder(log, client)
    ensures InOrder(Finish(log), client) && InOrder(RequestAbort(log), client)
  {
  }

  lemma UnsubscribeInOrder(log: Log, client: Client, c: nat)
    requires WellFormed(log) && InOrder(log, client)
    ensures InOrder(Unsubscribe(log, c), client)
  {
  }

  lemma OfflineInOrder(log: Log, client: Client)
    requires WellFormed(log) && InOrder(log, client)
    ensures InOrder(log, client.(connection := Offline))
  {
    if client.connection.Online? {
      assert client.got <= client.got + client.connection.replay;
    }
  }

  lemma ReceiveInOrder(log: Log, client: Client, c: nat)
    requires WellFormed(log) && InOrder(log, client) && !OwnsChannel(client, c) && c < |log.channels| && log.channels[c].queue != []
    ensures InOrder(Receive(log, c), client)
  {
  }

  lemma ConnectInOrder(log: Log, client: Client)
    requires WellFormed(log) && InOrder(log, client) && client.connection == Offline
    ensures var (next, subscription) := Subscribe(log, LastSeen(client));
            InOrder(next, client.(connection := Online(subscription.replay, subscription.updates)))
  {
    var n := |client.got|;
    assert client.got == log.events[..n];
    assert LastSeen(client) == n;
    MissedIsSuffix(log.events, 0, n);
    assert Missed(log.events, n) == log.events[n..];
    assert client.got + log.events[n..] == log.events;
    assert client.got + log.events[n..] + [] == log.events;
  }

  lemma SubscribeLeavesOthers(log: Log, lastSeen: nat, client: Client)
    requires WellFormed(log) && InOrder(log, client)
    ensures InOrder(Subscribe(log, lastSeen).0, client)
  {
  }

  lemma DeliverInOrder(log: Log, client: Client)
    requires WellFormed(log) && InOrder(log, client)
    ensures var (next, after) := DeliverTo(log, client);
            WellFormed(next) && InOrder(next, after) && client.got <= after.got && next.events == log.events
  {
    if client.connection.Online? {
      var replay, updates := client.connection.replay, client.connection.updates;
      if replay != [] {
        assert client.got + [replay[0]] + replay[1..] == client.got + replay;
      } else if updates.Some? {
        var c := updates.value;
        var queue := log.channels[c].queue;
        assert client.got + replay == client.got;
        if queue != [] {
          UnsubscribeWellFormed(log, c);
          assert client.got + [queue[0]] + [] + queue[1..] == client.got + queue;
        }
      }
    }
  }

  lemma DeliverLeavesOthers(log: Log, client: Client, other: Client)
    requires WellFormed(log) && InOrder(log, client) && InOrder(log, other)
    requires forall c :: OwnsChannel(client, c) ==> !OwnsChannel(other, c)
    ensures InOrder(DeliverTo(log, client).0, other)
  {
    if client.connection.Online? && client.connection.updates.Some? {
      assert OwnsChannel(client, client.connection.updates.value);
    }
  }

  lemma StepOwns(net: Net, action: Action)
    requires Sound(net)
    ensures Separate(Step(net, action).clients)
  {
    var next := Step(net, action);
    forall j: nat, k: nat, c: nat | j < k < |next.clients| && OwnsChannel(next.clients[j], c)
      ensures !OwnsChannel(next.clients[k], c)
    {
      assert j < |net.clients| && !action.Connect? ==> OwnsChannel(net.clients[j], c);
      assert forall i | 0 <= i < |net.clients| && OwnsChannel(net.clients[i], c) :: InOrder(net.log, net.clients[i]) && c < |net.log.channels|;
    }
  }

  /** Every section keeps the invariant, for every client at once. */
  lemma StepSound(net: Net, action: Action)
    requires Sound(net)
    ensures Sound(Step(net, action))
  {
    var next := Step(net, action);
    StepOwns(net, action);
    match action
    case EmitOne(payload) =>
      EmitWellFormed(net.log, payload);
      forall k | 0 <= k < |net.clients| ensures InOrder(next.log, next.clients[k]) { EmitInOrder(net.log, payload, net.clients[k]); }
    case EmitLast(payload) =>
      EmitWellFormed(net.log, payload);
      forall k | 0 <= k < |net.clients| ensures InOrder(next.log, next.clients[k]) { EmitInOrder(net.log, payload, net.clients[k]); }
    case FinishJob =>
      FinishWellFormed(net.log);
      forall k | 0 <= k < |net.clients| ensures InOrder(next.log, next.clients[k]) { FinishInOrder(net.log, net.clients[k]); }
    case AbortJob =>
      FinishWellFormed(net.log);
      forall k | 0 <= k < |net.clients| ensures InOrder(next.log, next.clients[k]) { FinishInOrder(net.log, net.clients[k]); }
    case NewClient =>
    case Connect(i) => ConnectSound(net, i);
    case Deliver(i) => DeliverSound(net, i);
    case Disconnect(i) => DisconnectSound(net, i);
    case WriteInVain(c) => AbandonedSound(net, c);
    case Leave(c) => AbandonedSound(net, c);
  }

  lemma ConnectSound(net: Net, i: nat)
    requires Sound(net)
    ensures WellFormed(Step(net, Connect(i)).log)
    ensures forall k | 0 <= k < |net.clients| :: InOrder(Step(net, Connect(i)).log, Step(net, Connect(i)).clients[k])
  {
    if i < |net.clients| && net.clients[i].connection == Offline {
      var lastSeen := LastSeen(net.clients[i]);
      SubscribeWellFormed(net.log, lastSeen);
      ConnectInOrder(net.log, net.clients[i]);
      forall k | 0 <= k < |net.clients|
        ensures InOrder(Step(net, Connect(i)).log, Step(net, Connect(i)).clients[k])
      {
        SubscribeLeavesOthers(net.log, lastSeen, net.clients[k]);
      }
    }
  }

  lemma DeliverSound(net: Net, i: nat)
    requires Sound(net)
    ensures WellFormed(Step(net, Deliver(i)).log)
    ensures forall k | 0 <= k < |net.clients| :: InOrder(Step(net, Deliver(i)).log, Step(net, Deliver(i)).clients[k])
  {
    if i < |net.clients| {
      DeliverInOrder(net.log, net.clients[i]);
      forall k | 0 <= k < |net.clients|
        ensures InOrder(Step(net, Deliver(i)).log, Step(net, Deliver(i)).clients[k])
      {
        if k != i {
          assert forall c :: OwnsChannel(net.clients[i], c) ==> !OwnsChannel(net.clients[k], c);
          DeliverLeavesOthers(net.log, net.clients[i], net.clients[k]);
        }
      }
    }
  }

  lemma DisconnectSound(net: Net, i: nat)
    requires Sound(net)
    ensures WellFormed(Step(net, Disconnect(i)).log)
    ensures forall k | 0 <= k < |net.clients| :: InOrder(Step(net, Disconnect(i)).log, Step(net, Disconnect(i)).clients[k])
  {
    if i < |net.clients| {
      OfflineInOrder(net.log, net.clients[i]);
    }
  }

  lemma AbandonedSound(net: Net, c: nat)
    requires Sound(net)
    ensures WellFormed(Step(net, WriteInVain(c)).log) && WellFormed(Step(net, Leave(c)).log)
    ensures forall k | 0 <= k < |net.clients| :: InOrder(Step(net, WriteInVain(c)).log, net.clients[k]) && InOrder(Step(net, Leave(c)).log, net.clients[k])
  {
    hide InOrder;
    UnsubscribeWellFormed(net.log, c);
    forall k | 0 <= k < |net.clients|
      ensures InOrder(Step(net, WriteInVain(c)).log, net.clients[k]) && InOrder(Step(net, Leave(c)).log, net.clients[k])
    {
      assert !Owned(net.clients, c) ==> !OwnsChannel(net.clients[k], c);
      UnsubscribeInOrder(net.log, net.clients[k], c);
      if !OwnsChannel(net.clients[k], c) && c < |net.log.channels| && net.log.channels[c].queue != [] {
        ReceiveInOrder(net.log, net.clients[k], c);
      }
    }
  }

  /** Nothing a client was given or the log has recorded is ever taken back. */
  lemma StepGrows(net: Net, action: Action)
    requires Sound(net)
    ensures net.log.events <= Step(net, action).log.events
    ensures net.log.terminal ==> Step(net, action).log.terminal && Step(net, action).log.events == net.log.events
    ensures |net.clients| <= |Step(net, action).clients|
    ensures forall k | 0 <= k < |net.clients| :: net.clients[k].got <= Step(net, action).clients[k].got
  {
    if action.Deliver? && action.k < |net.clients| {
      DeliverInOrder(net.log, net.clients[action.k]);
    }
  }

  // ---------- the theorems ----------

  lemma {:induction false} RunSound(net: Net, actions: seq<Action>)
    requires Sound(net)
    ensures Sound(Run(net, actions))
  {
    if actions != [] {
      RunSound(net, actions[..|actions| - 1]);
      StepSound(Run(net, actions[..|actions| - 1]), actions[|actions| - 1]);
    }
  }

  /**
   Exact resumable delivery. Whatever the interleaving of emissions, subscriptions, drops, disconnects,
   late unsubscribes and reconnects, what each client was given over all its connections is a prefix of the log, numbered
   1, 2, 3, ... without gap or repetition.
   */
  lemma ExactDelivery(actions: seq<Action>, k: nat)
    requires k < |Run(EMPTY_NET, actions).clients|
    ensures var net := Run(EMPTY_NET, actions);
            && net.clients[k].got <= net.log.events
            && forall i | 0 <= i < |net.clients[k].got| :: net.clients[k].got[i].id == i + 1
  {
    RunSound(EMPTY_NET, actions);
    var net := Run(EMPTY_NET, actions);
    assert InOrder(net.log, net.clients[k]);
    var connection := net.clients[k].connection;
    if connection.Online? {
      assert net.clients[k].got <= net.clients[k].got + connection.replay;
    }
  }

  /** Between its connection to a finished job and the end of that connection. */
  ghost predicate CatchingUp(net: Net, k: nat) {
    && k < |net.clients| && net.log.terminal
    && match net.clients[k].connection
       case Offline => net.clients[k].got == net.log.events
       case Online(replay, updates) => updates == None && net.clients[k].got + replay == net.log.events
  }

  lemma CatchingUpStep(net: Net, action: Action, k: nat)
    requires Sound(net) && CatchingUp(net, k) && action != Disconnect(k)
    ensures CatchingUp(Step(net, action), k)
  {
    StepGrows(net, action);
    StepSound(net, action);
    if action == Connect(k) && net.clients[k].connection == Offline {
      ConnectInOrder(net.log, net.clients[k]);
    } else if action == Deliver(k) {
      DeliverInOrder(net.log, net.clients[k]);
      var connection := net.clients[k].connection;
      if connection.Online? && connection.replay != [] {
        assert net.clients[k].got + [connection.replay[0]] + connection.replay[1..] == net.clients[k].got + connection.replay;
      }
    }
  }

  lemma {:induction false} CatchingUpRun(net: Net, actions: seq<Action>, k: nat)
    requires Sound(net) && CatchingUp(net, k)
    requires forall i | 0 <= i < |actions| :: actions[i] != Disconnect(k)
    ensures CatchingUp(Run(net, actions), k)
  {
    if actions != [] {
      var init := actions[..|actions| - 1];
      CatchingUpRun(net, init, k);
      RunSound(net, init);
      CatchingUpStep(Run(net, init), actions[|actions| - 1], k);
    }
  }

  /**
   A client that connects once the job is terminal and is not cut off holds the whole log when that
   connection ends, whatever it had missed or been dropped from before and whatever happens meanwhile.
   */
  lemma TerminalConnectionCompletes(net: Net, actions: seq<Action>, k: nat)
    requires Sound(net) && k < |net.clients| && net.log.terminal && net.clients[k].connection == Offline
    requires forall i | 0 <= i < |actions| :: actions[i] != Disconnect(k)
    ensures var end := Run(Step(net, Connect(k)), actions);
            && end.log.events == net.log.events
            && k < |end.clients|
            && (end.clients[k].connection == Offline ==> end.clients[k].got == net.log.events)
  {
    var start := Step(net, Connect(k));
    StepSound(net, Connect(k));
    ConnectInOrder(net.log, net.clients[k]);
    assert CatchingUp(start, k);
    CatchingUpRun(start, actions, k);
    TerminalLogFrozen(start, actions);
  }

  lemma {:induction false} TerminalLogFrozen(net: Net, actions: seq<Action>)
    requires Sound(net) && net.log.terminal
    ensures Run(net, actions).log.terminal && Run(net, actions).log.events == net.log.events
  {
    if actions != [] {
      var init := actions[..|actions| - 1];
      TerminalLogFrozen(net, init);
      RunSound(net, init);
      StepGrows(Run(net, init), actions[|actions| - 1]);
    }
  }

  /** And such a connection does end: one delivery for each missed event and one more close it. */
  lemma {:induction false} TerminalConnectionEnds(net: Net, k: nat)
    requires Sound(net) && CatchingUp(net, k) && net.clients[k].connection.Online?
    ensures var deliveries := seq(|net.clients[k].connection.replay| + 1, _ => Deliver(k));
            var end := Run(net, deliveries);
            k < |end.clients| && end.clients[k] == Client(net.log.events, Offline)
    decreases |net.clients[k].connection.replay|
  {
    var replay := net.clients[k].connection.replay;
    var deliveries := seq(|replay| + 1, _ => Deliver(k));
    var next := Step(net, Deliver(k));
    StepSound(net, Deliver(k));
    CatchingUpStep(net, Deliver(k), k);
    StepGrows(net, Deliver(k));
    RunFirst(net, deliveries);
    if replay == [] {
      assert deliveries[1..] == [];
    } else {
      assert deliveries[1..] == seq(|replay|, _ => Deliver(k));
      assert next.clients[k].connection.replay == replay[1..];
      TerminalConnectionEnds(next, k);
    }
  }

  lemma {:induction false} RunFirst(net: Net, actions: seq<Action>)
    requires actions != []
    ensures Run(net, actions) == Run(Step(net, actions[0]), actions[1..])
  {
    var last := |actions| - 1;
    if last > 0 {
      RunFirst(net, actions[..last]);
      assert actions[1..][..last - 1] == actions[..last][1..];
    }
  }
}
