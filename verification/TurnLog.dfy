/**
 The event log of a turn job: an append-only list of numbered events, bounded channels to live
 subscribers, and one terminal flag. Every mutex section of the job is one method here.
 */
module TurnLog {
  import opened Llm
  import opened Wrappers

  datatype Payload =
    | Preview(markdown: string)
    | ReasoningDelta(delta: string)
    | Done(parts: seq<Part>, responseId: string, completedAt: Option<nat>)
    | Aborted
    | StreamError

  predicate IsTerminal(payload: Payload) {
    payload.Done? || payload.Aborted? || payload.StreamError?
  }

  datatype StreamEvent = StreamEvent(id: nat, payload: Payload)

  const CAPACITY: nat := 128

  datatype Channel = Channel(queue: seq<StreamEvent>, closed: bool)

  /** A job's log as a value. Channels are numbered in the order they were made. */
  datatype Log = Log(
    events: seq<StreamEvent>, nextEventId: nat, channels: seq<Channel>, subscribers: set<nat>,
    terminal: bool, abortRequested: bool, doneClosed: bool)

  const EMPTY_LOG := Log([], 0, [], {}, false, false, false)

  /** Event numbers are positions, live channels are open and dropped ones closed. */
  predicate WellFormed(log: Log) {
    && log.nextEventId == |log.events|
    && (forall i | 0 <= i < |log.events| :: log.events[i].id == i + 1)
    && (forall c | c in log.subscribers :: c < |log.channels|)
    && (forall c | 0 <= c < |log.channels| :: log.channels[c].closed <==> c !in log.subscribers)
    && (forall c | 0 <= c < |log.channels| :: |log.channels[c].queue| <= CAPACITY)
    && (log.terminal ==> log.subscribers == {})
  }

  /** A channel after one attempt to send: full channels refuse the event and are dropped. */
  function Offer(channel: Channel, event: StreamEvent): Channel {
    if |channel.queue| < CAPACITY then channel.(queue := channel.queue + [event]) else channel.(closed := true)
  }

  function Emit(log: Log, payload: Payload): Log {
    if log.terminal then log
    else
      var event := StreamEvent(log.nextEventId + 1, payload);
      log.(
      nextEventId := log.nextEventId + 1,
      events := log.events + [event],
      channels := seq(|log.channels|, c requires 0 <= c < |log.channels| =>
        if c in log.subscribers then Offer(log.channels[c], event) else log.channels[c]),
      subscribers := set c | c in log.subscribers && c < |log.channels| && |log.channels[c].queue| < CAPACITY)
  }

  function EmitTerminal(log: Log, payload: Payload): Log {
    if log.terminal then log
    else
      var event := StreamEvent(log.nextEventId + 1, payload);
      log.(
      nextEventId := log.nextEventId + 1,
      events := log.events + [event],
      terminal := true,
      channels := seq(|log.channels|, c requires 0 <= c < |log.channels| =>
        if c in log.subscribers then Offer(log.channels[c], event).(closed := true) else log.channels[c]),
      subscribers := {})
  }

  /** The events a subscriber that last saw `lastSeen` is owed: those from the first larger number on. */
  function Missed(events: seq<StreamEvent>, lastSeen: nat): seq<StreamEvent> {
    if events != [] && events[0].id <= lastSeen then Missed(events[1..], lastSeen) else events
  }

  datatype Subscription = Subscription(replay: seq<StreamEvent>, updates: Option<nat>)

  function Subscribe(log: Log, lastSeen: nat): (Log, Subscription) {
    var replay := Missed(log.events, lastSeen);
    if log.terminal then (log, Subscription(replay, None))
    else
      var c := |log.channels|;
      (log.(channels := log.channels + [Channel([], false)], subscribers := log.subscribers + {c}),
       Subscription(replay, Some(c)))
  }

  function Unsubscribe(log: Log, c: nat): Log {
    if c !in log.subscribers || c >= |log.channels| then log
    else log.(subscribers := log.subscribers - {c}, channels := log.channels[c := log.channels[c].(closed := true)])
  }

  function Finish(log: Log): Log {
    var stopped :=
      if log.terminal then log
      else log.(
           terminal := true,
           channels := seq(|log.channels|, c requires 0 <= c < |log.channels| =>
             if c in log.subscribers then log.channels[c].(closed := true) else log.channels[c]),
           subscribers := {});
    stopped.(doneClosed := true)
  }

  function RequestAbort(log: Log): Log {
    if log.terminal then log else log.(abortRequested := true)
  }

  /** A subscriber takes the oldest queued event. */
  function Receive(log: Log, c: nat): Log
    requires c < |log.channels| && log.channels[c].queue != []
  {
    log.(channels := log.channels[c := log.channels[c].(queue := log.channels[c].queue[1..])])
  }

  // ---------- what every section keeps ----------

  lemma EmitWellFormed(log: Log, payload: Payload)
    requires WellFormed(log)
    ensures WellFormed(Emit(log, payload)) && WellFormed(EmitTerminal(log, payload))
  {
  }

  lemma SubscribeWellFormed(log: Log, lastSeen: nat)
    requires WellFormed(log)
    ensures WellFormed(Subscribe(log, lastSeen).0)
  {
  }

  lemma UnsubscribeWellFormed(log: Log, c: nat)
    requires WellFormed(log)
    ensures WellFormed(Unsubscribe(log, c))
    ensures c < |log.channels| && log.channels[c].queue != [] ==> WellFormed(Receive(log, c))
  {
  }

  lemma FinishWellFormed(log: Log)
    requires WellFormed(log)
    ensures WellFormed(Finish(log)) && WellFormed(RequestAbort(log))
  {
  }

  /** With positions for numbers, a subscriber that saw the first `lastSeen` events is owed exactly the rest. */
  lemma {:induction false} MissedIsSuffix(events: seq<StreamEvent>, first: nat, lastSeen: nat)
    requires forall i | 0 <= i < |events| :: events[i].id == first + i + 1
    ensures Missed(events, lastSeen) == if lastSeen <= first then events
                                        else if lastSeen - first <= |events| then events[lastSeen - first..] else []
  {
    if events != [] && events[0].id <= lastSeen {
      MissedIsSuffix(events[1..], first + 1, lastSeen);
    }
  }

  // ---------- one subscriber after another ----------

  /** The log when all subscribers but the pending ones were offered an event. */
  function OfferedButTo(log: Log, event: StreamEvent, pending: set<nat>): Log {
    log.(
    channels := seq(|log.channels|, c requires 0 <= c < |log.channels| =>
      if c in log.subscribers && c !in pending then Offer(log.channels[c], event) else log.channels[c]),
    subscribers := set c | c in log.subscribers && (c in pending || (c < |log.channels| && |log.channels[c].queue| < CAPACITY)))
  }

  lemma OfferedToNone(log: Log, event: StreamEvent)
    ensures OfferedButTo(log, event, log.subscribers) == log
  {
    assert OfferedButTo(log, event, log.subscribers).channels == log.channels;
    assert OfferedButTo(log, event, log.subscribers).subscribers == log.subscribers;
  }

  /** One more subscriber: its channel is still open, and a full one is dropped. */
  lemma OfferedToOne(log: Log, event: StreamEvent, pending: set<nat>, c: nat)
    requires WellFormed(log.(events := [], nextEventId := 0)) && c in pending && pending <= log.subscribers
    ensures var now := OfferedButTo(log, event, pending);
            && c < |now.channels| && !now.channels[c].closed
            && OfferedButTo(log, event, pending - {c})
               == now.(channels := now.channels[c := Offer(now.channels[c], event)],
                       subscribers := if |now.channels[c].queue| < CAPACITY then now.subscribers else now.subscribers - {c})
  {
    hide Offer;
    var now, next := OfferedButTo(log, event, pending), OfferedButTo(log, event, pending - {c});
    assert next.channels == now.channels[c := Offer(log.channels[c], event)];
    assert next.subscribers == if |log.channels[c].queue| < CAPACITY then now.subscribers else now.subscribers - {c};
  }

  lemma OfferedToAll(log: Log, payload: Payload)
    requires WellFormed(log) && !log.terminal
    ensures var event := StreamEvent(log.nextEventId + 1, payload);
            OfferedButTo(log.(events := log.events + [event], nextEventId := log.nextEventId + 1), event, {}) == Emit(log, payload)
    ensures WellFormed(Emit(log, payload)) && WellFormed(log.(events := [], nextEventId := 0))
  {
    EmitWellFormed(log, payload);
    hide Offer;
    var event := StreamEvent(log.nextEventId + 1, payload);
    var after := OfferedButTo(log.(events := log.events + [event], nextEventId := log.nextEventId + 1), event, {});
    assert after.channels == Emit(log, payload).channels;
    assert after.subscribers == Emit(log, payload).subscribers;
  }

  /** The log when all subscribers but the pending ones were offered a last event and let go. */
  function LetGoBut(log: Log, event: StreamEvent, pending: set<nat>): Log {
    log.(
    channels := seq(|log.channels|, c requires 0 <= c < |log.channels| =>
      if c in log.subscribers && c !in pending then Offer(log.channels[c], event).(closed := true) else log.channels[c]),
    subscribers := pending)
  }

  lemma LetGoNone(log: Log, event: StreamEvent)
    ensures LetGoBut(log, event, log.subscribers) == log
  {
    assert LetGoBut(log, event, log.subscribers).channels == log.channels;
  }

  lemma LetGoOne(log: Log, event: StreamEvent, pending: set<nat>, c: nat)
    requires WellFormed(log.(events := [], nextEventId := 0, terminal := false)) && c in pending && pending <= log.subscribers
    ensures var now := LetGoBut(log, event, pending);
            && c < |now.channels| && !now.channels[c].closed
            && LetGoBut(log, event, pending - {c})
               == now.(channels := now.channels[c := Offer(now.channels[c], event).(closed := true)], subscribers := pending - {c})
  {
    hide Offer;
    var now, next := LetGoBut(log, event, pending), LetGoBut(log, event, pending - {c});
    assert next.channels == now.channels[c := Offer(log.channels[c], event).(closed := true)];
  }

  lemma LetGoAll(log: Log, payload: Payload)
    requires WellFormed(log) && !log.terminal
    ensures var event := StreamEvent(log.nextEventId + 1, payload);
            LetGoBut(log.(events := log.events + [event], nextEventId := log.nextEventId + 1, terminal := true), event, {})
            == EmitTerminal(log, payload)
    ensures WellFormed(EmitTerminal(log, payload)) && WellFormed(log.(events := [], nextEventId := 0))
  {
    EmitWellFormed(log, payload);
    hide Offer;
    var event := StreamEvent(log.nextEventId + 1, payload);
    var after := LetGoBut(log.(events := log.events + [event], nextEventId := log.nextEventId + 1, terminal := true), event, {});
    assert after.channels == EmitTerminal(log, payload).channels;
  }

  /** The log when all channels but those of the pending subscribers were closed. */
  function ClosedBut(log: Log, pending: set<nat>): Log {
    log.(
    channels := seq(|log.channels|, c requires 0 <= c < |log.channels| =>
      if c in log.subscribers && c !in pending then log.channels[c].(closed := true) else log.channels[c]),
    subscribers := pending)
  }

  lemma ClosedNone(log: Log)
    ensures ClosedBut(log, log.subscribers) == log
  {
    assert ClosedBut(log, log.subscribers).channels == log.channels;
  }

  lemma ClosedOne(log: Log, pending: set<nat>, c: nat)
    requires WellFormed(log.(terminal := false)) && c in pending && pending <= log.subscribers
    ensures var now := ClosedBut(log, pending);
            && c < |now.channels| && !now.channels[c].closed
            && ClosedBut(log, pending - {c})
               == now.(channels := now.channels[c := now.channels[c].(closed := true)], subscribers := pending - {c})
  {
    var now, next := ClosedBut(log, pending), ClosedBut(log, pending - {c});
    assert next.channels == now.channels[c := log.channels[c].(closed := true)];
  }

  lemma ClosedAll(log: Log)
    requires WellFormed(log)
    ensures Finish(log) == (if log.terminal then log else ClosedBut(log.(terminal := true), {})).(doneClosed := true)
    ensures !log.terminal ==> WellFormed(log.(terminal := false))
  {
    assert !log.terminal ==> ClosedBut(log.(terminal := true), {}).channels == Finish(log).channels;
  }

  class TurnJob {
    var events: seq<StreamEvent>
    var nextEventId: nat
    var channels: seq<Channel>
    var subscribers: set<nat>
    var terminal: bool
    var abortRequested: bool
    var doneClosed: bool

    ghost function View(): Log
      reads this
    {
      Log(events, nextEventId, channels, subscribers, terminal, abortRequested, doneClosed)
    }

    constructor ()
      ensures View() == EMPTY_LOG
    {
      events, nextEventId, channels, subscribers := [], 0, [], {};
      terminal, abortRequested, doneClosed := false, false, false;
    }

    /** Sending on a closed channel panics. */
    method Send(c: nat, event: StreamEvent) returns (sent: bool)
      requires c < |channels| && !channels[c].closed
      modifies this`channels
      ensures sent <==> |old(channels)[c].queue| < CAPACITY
      ensures channels == if sent then old(channels)[c := old(channels)[c].(queue := old(channels)[c].queue + [event])] else old(channels)
    {
      if |channels[c].queue| < CAPACITY {
        channels := channels[c := channels[c].(queue := channels[c].queue + [event])];
        return true;
      }
      return false;
    }

    /** Closing a closed channel panics. */
    method CloseChannel(c: nat)
      requires c < |channels| && !channels[c].closed
      modifies this`channels
      ensures channels == old(channels)[c := old(channels)[c].(closed := true)]
    {
      channels := channels[c := channels[c].(closed := true)];
    }

    /** One attempt to send without waiting: a full channel is closed. */
    method OfferTo(c: nat, event: StreamEvent) returns (sent: bool)
      requires c < |channels| && !channels[c].closed
      modifies this`channels
      ensures sent <==> |old(channels)[c].queue| < CAPACITY
      ensures channels == old(channels)[c := Offer(old(channels)[c], event)]
    {
      sent := Send(c, event);
      if !sent {
        CloseChannel(c);
      }
    }

    /** One attempt to send a last event, and the end of the channel. */
    method OfferLast(c: nat, event: StreamEvent)
      requires c < |channels| && !channels[c].closed
      modifies this`channels
      ensures channels == old(channels)[c := Offer(old(channels)[c], event).(closed := true)]
    {
      var _ := Send(c, event);
      CloseChannel(c);
    }

    method EmitEvent(payload: Payload)
      requires WellFormed(View())
      modifies this
      ensures View() == Emit(old(View()), payload) && WellFormed(View())
    {
      if terminal {
        return;
      }
      OfferedToAll(View(), payload);
      hide Emit, OfferedButTo, Offer, WellFormed;
      nextEventId := nextEventId + 1;
      var event := StreamEvent(nextEventId, payload);
      events := events + [event];
      ghost var log := View();
      OfferedToNone(log, event);
      var pending := subscribers;
      while pending != {}
        invariant pending <= log.subscribers
        invariant View() == OfferedButTo(log, event, pending)
        decreases |pending|
      {
        var c :| c in pending;
        OfferedToOne(log, event, pending, c);
        var sent := OfferTo(c, event);
        if !sent {
          subscribers := subscribers - {c};
        }
        pending := pending - {c};
      }
    }

    method EmitTerminalEvent(payload: Payload)
      requires WellFormed(View())
      modifies this
      ensures View() == EmitTerminal(old(View()), payload) && WellFormed(View())
    {
      if terminal {
        return;
      }
      LetGoAll(View(), payload);
      hide EmitTerminal, LetGoBut, Offer, WellFormed;
      nextEventId := nextEventId + 1;
      var event := StreamEvent(nextEventId, payload);
      events := events + [event];
      terminal := true;
      ghost var log := View();
      LetGoNone(log, event);
      while subscribers != {}
        invariant subscribers <= log.subscribers
        invariant View() == LetGoBut(log, event, subscribers)
        decreases |subscribers|
      {
        var c :| c in subscribers;
        LetGoOne(log, event, subscribers, c);
        OfferLast(c, event);
        subscribers := subscribers - {c};
      }
    }

    method SubscribeFrom(lastSeen: nat) returns (subscription: Subscription)
      requires WellFormed(View())
      modifies this
      ensures (View(), subscription) == Subscribe(old(View()), lastSeen) && WellFormed(View())
    {
      SubscribeWellFormed(View(), lastSeen);
      var start := 0;
      while start < |events| && events[start].id <= lastSeen
        invariant 0 <= start <= |events|
        invariant Missed(events, lastSeen) == Missed(events[start..], lastSeen)
      {
        start := start + 1;
      }
      var replay := events[start..];
      if terminal {
        return Subscription(replay, None);
      }
      var updates := |channels|;
      channels := channels + [Channel([], false)];
      subscribers := subscribers + {updates};
      return Subscription(replay, Some(updates));
    }

    /** A reader takes the oldest event from its channel. */
    method ReceiveFrom(updates: nat) returns (event: StreamEvent)
      requires WellFormed(View()) && updates < |channels| && channels[updates].queue != []
      modifies this
      ensures View() == Receive(old(View()), updates) && WellFormed(View())
      ensures event == old(channels)[updates].queue[0]
    {
      UnsubscribeWellFormed(View(), updates);
      event := channels[updates].queue[0];
      channels := channels[updates := channels[updates].(queue := channels[updates].queue[1..])];
    }

    method UnsubscribeFrom(updates: nat)
      requires WellFormed(View())
      modifies this
      ensures View() == Unsubscribe(old(View()), updates) && WellFormed(View())
    {
      UnsubscribeWellFormed(View(), updates);
      if updates !in subscribers {
        return;
      }
      subscribers := subscribers - {updates};
      CloseChannel(updates);
    }

    method FinishJob()
      requires WellFormed(View())
      modifies this
      ensures View() == Finish(old(View())) && WellFormed(View())
    {
      FinishWellFormed(View());
      ClosedAll(View());
      hide Finish, ClosedBut, WellFormed;
      if !terminal {
        terminal := true;
        ghost var log := View();
        ClosedNone(log);
        while subscribers != {}
          invariant subscribers <= log.subscribers
          invariant View() == ClosedBut(log, subscribers)
          decreases |subscribers|
        {
          var c :| c in subscribers;
          ClosedOne(log, subscribers, c);
          CloseChannel(c);
          subscribers := subscribers - {c};
        }
      }
      if doneClosed {
        return;
      }
      doneClosed := true;
    }

    /** The first section of `abort`; the caller cancels the context and waits only when it returns true. */
    method BeginAbort() returns (accepted: bool)
      requires WellFormed(View())
      modifies this
      ensures View() == RequestAbort(old(View())) && WellFormed(View())
      ensures accepted <==> !old(terminal)
    {
      if terminal {
        return false;
      }
      abortRequested := true;
      return true;
    }
  }
}
