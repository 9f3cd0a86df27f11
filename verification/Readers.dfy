/** The readers of a job's events: the delivery loops of all connections, run against the job itself. */
module Readers {
  import opened TurnLog
  import opened Wrappers
  import opened Delivery
  import M = Turns

  /** What readers and aborts leave alone. */
  lemma OutsideKeeps(net: Net, action: Action)
    requires Sound(net) && M.FromOutside(action)
    ensures Sound(Step(net, action))
    ensures var log := Step(net, action).log;
            && log.events == net.log.events && log.terminal == net.log.terminal && log.doneClosed == net.log.doneClosed
            && log.abortRequested == (net.log.abortRequested || (action.AbortJob? && !net.log.terminal))
  {
    StepSound(net, action);
    if action.Deliver? && action.k < |net.clients| {
      DeliverInOrder(net.log, net.clients[action.k]);
    }
  }

  class Audience {
    const job: TurnJob
    var clients: seq<Client>

    constructor (job: TurnJob)
      ensures this.job == job && clients == []
    {
      this.job, clients := job, [];
    }

    ghost function View(): Net
      reads this, job
    {
      Net(job.View(), clients)
    }

    /** The start of a connection: `handleTurnEvents` subscribes from the last number the client saw. */
    method Join(k: nat)
      requires Sound(View())
      modifies this, job
      ensures View() == Step(old(View()), Connect(k))
    {
      if k < |clients| && clients[k].connection == Offline {
        var subscription := job.SubscribeFrom(LastSeen(clients[k]));
        clients := clients[k := clients[k].(connection := Online(subscription.replay, subscription.updates))];
      }
    }

    /** One round of the delivery loop: first the replay, then the channel until it is closed and empty. */
    method ReadNext(k: nat)
      requires Sound(View())
      modifies this, job
      ensures View() == Step(old(View()), Deliver(k))
    {
      if k >= |clients| || clients[k].connection == Offline {
        Unheard(View(), k);
        return;
      }
      assert InOrder(job.View(), clients[k]);
      var connection, got := clients[k].connection, clients[k].got;
      if connection.replay != [] {
        clients := clients[k := Client(got + [connection.replay[0]], Online(connection.replay[1..], connection.updates))];
      } else if connection.updates == None {
        clients := clients[k := Client(got, Offline)];
      } else {
        var channel := job.channels[connection.updates.value];
        if channel.queue != [] {
          var event := job.ReceiveFrom(connection.updates.value);
          clients := clients[k := Client(got + [event], connection)];
        } else if channel.closed {
          clients := clients[k := Client(got, Offline)];
        } else {
          assert clients == clients[k := clients[k]];
        }
      }
    }

    /** Anything a reader, an abandoned loop or an abort can do. */
    method Act(action: Action)
      requires Sound(View()) && M.FromOutside(action)
      modifies this, job
      ensures View() == Step(old(View()), action)
    {
      hide Sound;
      SoundIsWellFormed(View());
      match action {
        case AbortJob => var _ := job.BeginAbort();
        case NewClient => clients := clients + [Client([], Offline)];
        case Connect(k) => Join(k);
        case Deliver(k) => ReadNext(k);
        case Disconnect(k) =>
          if k < |clients| {
            clients := clients[k := clients[k].(connection := Offline)];
          }
        case WriteInVain(c) =>
          if !Owned(clients, c) && c < |job.channels| && job.channels[c].queue != [] {
            var _ := job.ReceiveFrom(c);
          }
        case Leave(c) =>
          if !Owned(clients, c) {
            job.UnsubscribeFrom(c);
          }
      }
    }
  }

  lemma SoundIsWellFormed(net: Net)
    requires Sound(net)
    ensures WellFormed(net.log)
  {
  }

  lemma Unheard(net: Net, k: nat)
    requires k >= |net.clients| || net.clients[k].connection == Offline
    ensures Step(net, Deliver(k)) == net
  {
    assert k < |net.clients| ==> net.clients[k := net.clients[k]] == net.clients;
  }
}
