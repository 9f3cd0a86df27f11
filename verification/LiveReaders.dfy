/** What a live connection is promised: a reader that keeps up is never dropped, and one connection brings it the whole log. */
module LiveReaders {
  import opened TurnLog
  import opened Wrappers
  import opened Delivery

  predicate IsEmission(action: Action) {
    action.EmitOne? || action.EmitLast?
  }

  /** The reader was given, or is owed as the replay of its connection, all but at most 127 of the events so far. */
  predicate KeepsUp(log: Log, client: Client) {
    |log.events| < |client.got| + (if client.connection.Online? then |client.connection.replay| else 0) + 128
  }

  /** The client stays, and at every emission it keeps up. */
  predicate Attentive(net: Net, action: Action, k: nat) {
    action != Disconnect(k) && (IsEmission(action) && k < |net.clients| ==> KeepsUp(net.log, net.clients[k]))
  }

  /** What the client was given, is owed and has queued is the whole log, and it loses its connection only with the whole log in hand. */
  ghost predicate Following(log: Log, client: Client) {
    match client.connection
    case Offline => log.terminal && client.got == log.events
    case Online(replay, None) => log.terminal && client.got + replay == log.events
    case Online(replay, Some(c)) =>
      && c < |log.channels| && (c in log.subscribers || log.terminal)
      && client.got + replay + log.channels[c].queue == log.events
  }

  /** At an emission a live connection is dropped exactly when its reader does not keep up. */
  lemma DroppedExactly(log: Log, client: Client, payload: Payload)
    requires WellFormed(log) && Following(log, client) && !log.terminal
    ensures Following(Emit(log, payload), client) <==> KeepsUp(log, client)
    ensures Following(EmitTerminal(log, payload), client) <==> KeepsUp(log, client)
    ensures !KeepsUp(log, client) ==> client.connection.updates.value !in Emit(log, payload).subscribers
  {
    var c := client.connection.updates.value;
    var held, queue := client.got + client.connection.replay, log.channels[c].queue;
    var event := StreamEvent(log.nextEventId + 1, payload);
    assert |held + queue| == |log.events|;
    assert held + (queue + [event]) == held + queue + [event];
    assert |log.events + [event]| == |log.events| + 1;
    if KeepsUp(log, client) {
      assert Emit(log, payload).channels[c].queue == queue + [event];
      assert EmitTerminal(log, payload).channels[c].queue == queue + [event];
    } else {
      assert Emit(log, payload).channels[c].queue == queue;
      assert EmitTerminal(log, payload).channels[c].queue == queue;
      assert |held + queue| != |log.events + [event]|;
    }
  }

  lemma DeliveredFollows(log: Log, client: Client)
    requires WellFormed(log) && Following(log, client)
    ensures Following(DeliverTo(log, client).0, DeliverTo(log, client).1)
  {
    if client.connection.Online? {
      var replay, updates := client.connection.replay, client.connection.updates;
      if replay != [] {
        assert client.got + [replay[0]] + replay[1..] == client.got + replay;
      } else if updates.Some? {
        var queue := log.channels[updates.value].queue;
        assert client.got + replay == client.got;
        if queue != [] {
          assert client.got + [queue[0]] + [] + queue[1..] == client.got + queue;
        }
      }
    }
  }

  lemma ConnectedFollows(log: Log, client: Client)
    requires WellFormed(log) && InOrder(log, client) && client.connection == Offline
    ensures var (next, subscription) := Subscribe(log, LastSeen(client));
            Following(next, client.(connection := Online(subscription.replay, subscription.updates)))
  {
    ConnectInOrder(log, client);
  }

  /** What the other clients do does not matter. */
  lemma OthersFollow(log: Log, client: Client, other: Client, lastSeen: nat, c: nat)
    requires WellFormed(log) && InOrder(log, client) && InOrder(log, other) && Following(log, client)
    ensures (forall c :: OwnsChannel(other, c) ==> !OwnsChannel(client, c)) ==> Following(DeliverTo(log, other).0, client)
    ensures Following(Subscribe(log, lastSeen).0, client)
    ensures !OwnsChannel(client, c) ==> Following(Unsubscribe(log, c), client)
    ensures !OwnsChannel(client, c) && c < |log.channels| && log.channels[c].queue != [] ==> Following(Receive(log, c), client)
    ensures Following(Finish(log), client) && Following(RequestAbort(log), client)
  {
    if other.connection.Online? && other.connection.updates.Some? {
      assert OwnsChannel(other, other.connection.updates.value);
    }
  }

  lemma FollowingStep(net: Net, action: Action, k: nat)
    requires Sound(net) && k < |net.clients| && Following(net.log, net.clients[k]) && Attentive(net, action, k)
    ensures k < |Step(net, action).clients| && Following(Step(net, action).log, Step(net, action).clients[k])
  {
    hide Following, InOrder, DeliverTo, Emit, EmitTerminal, Subscribe, Unsubscribe, Receive, Finish, RequestAbort, KeepsUp, WellFormed;
    var log, client := net.log, net.clients[k];
    OthersFollow(log, client, client, 0, 0);
    match action
    case EmitOne(payload) => EmittedFollows(log, client, payload);
    case EmitLast(payload) => EmittedFollows(log, client, payload);
    case FinishJob =>
    case AbortJob =>
    case NewClient =>
    case Connect(i) =>
      if i < |net.clients| {
        OthersFollow(log, client, client, LastSeen(net.clients[i]), 0);
        if i == k && client.connection == Offline {
          ConnectedFollows(log, client);
        }
      }
    case Deliver(i) =>
      DeliveredFollows(log, client);
      if i < |net.clients| && i != k {
        OthersFollow(log, client, net.clients[i], 0, 0);
        assert forall c :: OwnsChannel(net.clients[i], c) ==> !OwnsChannel(client, c);
      }
    case Disconnect(i) =>
    case WriteInVain(c) => OthersFollow(log, client, client, 0, c);
    case Leave(c) => OthersFollow(log, client, client, 0, c);
  }

  lemma EmittedFollows(log: Log, client: Client, payload: Payload)
    requires WellFormed(log) && Following(log, client) && KeepsUp(log, client)
    ensures Following(Emit(log, payload), client) && Following(EmitTerminal(log, payload), client)
  {
    if !log.terminal {
      DroppedExactly(log, client, payload);
    }
  }

  lemma {:induction false} FollowingRun(net: Net, actions: seq<Action>, k: nat)
    requires Sound(net) && k < |net.clients| && Following(net.log, net.clients[k])
    requires forall i: nat | i < |actions| :: Attentive(Run(net, actions[..i]), actions[i], k)
    ensures var end := Run(net, actions); k < |end.clients| && Following(end.log, end.clients[k])
  {
    hide Following, Attentive, Step;
    if actions != [] {
      var n := |actions| - 1;
      var init := actions[..n];
      forall i: nat | i < n
        ensures Attentive(Run(net, init[..i]), init[i], k)
      {
        assert init[..i] == actions[..i];
      }
      FollowingRun(net, init, k);
      RunSound(net, init);
      FollowingStep(Run(net, init), actions[n], k);
    }
  }

  /**
   One live connection is enough. A client that connects at any time, stays, and at every emission keeps up, is
   never dropped, whatever the job and the other clients do: at every moment what it was given, is owed and has
   queued is the whole log, and its connection ends only when the log is complete and it holds all of it.
   */
  lemma LiveConnectionCompletes(net: Net, actions: seq<Action>, k: nat)
    requires Sound(net) && k < |net.clients| && net.clients[k].connection == Offline
    requires forall i: nat | i < |actions| :: Attentive(Run(Step(net, Connect(k)), actions[..i]), actions[i], k)
    ensures var end := Run(Step(net, Connect(k)), actions);
            && k < |end.clients|
            && (end.clients[k].connection == Offline ==> end.log.terminal && end.clients[k].got == end.log.events)
            && Following(end.log, end.clients[k])
  {
    hide Following, Attentive, KeepsUp;
    var start := Step(net, Connect(k));
    StepSound(net, Connect(k));
    ConnectedFollows(net.log, net.clients[k]);
    FollowingRun(start, actions, k);
    var end := Run(start, actions);
    if end.clients[k].connection == Offline {
      OfflineHasAll(end.log, end.clients[k]);
    }
  }

  lemma OfflineHasAll(log: Log, client: Client)
    requires Following(log, client) && client.connection == Offline
    ensures log.terminal && client.got == log.events
  {
  }

  /** And when the log is complete the connection does end: one delivery for each event still missing and one more. */
  lemma {:induction false} LiveConnectionEnds(net: Net, k: nat)
    requires Sound(net) && k < |net.clients| && Following(net.log, net.clients[k]) && net.log.terminal && net.clients[k].connection.Online?
    ensures |net.clients[k].got| <= |net.log.events|
    ensures var deliveries := seq(|net.log.events| - |net.clients[k].got| + 1, _ => Deliver(k));
            var end := Run(net, deliveries);
            k < |end.clients| && end.clients[k] == Client(net.log.events, Offline)
    decreases |net.log.events| - |net.clients[k].got|
  {
    hide Following, DeliverTo, WellFormed;
    var log, client := net.log, net.clients[k];
    Held(log, client);
    var missing := |log.events| - |client.got|;
    var deliveries := seq(missing + 1, _ => Deliver(k));
    var next := Step(net, Deliver(k));
    assert WellFormed(log);
    StepSound(net, Deliver(k));
    DeliveredFollows(log, client);
    OneDelivery(log, client);
    StepGrows(net, Deliver(k));
    RunFirst(net, deliveries);
    if missing == 0 {
      assert deliveries[1..] == [];
    } else {
      assert deliveries[1..] == seq(missing, _ => Deliver(k));
      LiveConnectionEnds(next, k);
    }
  }

  lemma Held(log: Log, client: Client)
    requires Following(log, client)
    ensures |client.got| <= |log.events|
  {
  }

  /** A delivery brings one missing event, or, when none is missing, ends the connection. */
  lemma OneDelivery(log: Log, client: Client)
    requires WellFormed(log) && Following(log, client) && log.terminal && client.connection.Online?
    ensures var (next, after) := DeliverTo(log, client);
            && next.events == log.events && next.terminal
            && if |client.got| == |log.events| then after == Client(log.events, Offline)
               else after.connection.Online? && |after.got| == |client.got| + 1
  {
    var replay, updates := client.connection.replay, client.connection.updates;
    if replay == [] {
      assert client.got + replay == client.got;
      if updates.Some? {
        var channel := log.channels[updates.value];
        assert channel.closed;
        if channel.queue == [] {
          assert client.got + replay + channel.queue == client.got;
        }
      }
    }
  }
}
