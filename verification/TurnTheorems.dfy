/**
 Every run of a browser session: any sequence of admissions, sections, faults, aborts and reader actions.
 */
module TurnTheorems {
  import opened Chat
  import opened Llm
  import opened Storage
  import opened Strings
  import opened TurnInvariants
  import opened TurnLog
  import opened Turns
  import opened Wrappers
  import Delivery

  // ---------- the world's invariant ----------

  /** No partial commit has failed to be written. */
  predicate Clean(jobs: seq<Job>) {
    forall i | 0 <= i < |jobs| :: !jobs[i].partialFailed
  }

  /** All writes of the transcript, in the order of the jobs. */
  function Written(jobs: seq<Job>): seq<Commit> {
    if jobs == [] then [] else Written(jobs[..|jobs| - 1]) + jobs[|jobs| - 1].commits
  }

  /** Each write starts from what the one before it left, and together they lead from the history to the present. */
  ghost predicate Linked(history: seq<Message>, commits: seq<Commit>, messages: seq<Message>) {
    if commits == [] then messages == history
    else
      && commits[0].before == history
      && commits[|commits| - 1].after == messages
      && forall k | 1 <= k < |commits| :: commits[k].before == commits[k - 1].after
  }

  function OpenTurns(jobs: seq<Job>): set<nat> {
    set i | 0 <= i < |jobs| && Counted(jobs[i])
  }

  /** Who can own the session: somebody does whenever a turn is in flight, and, unless a write was lost, only then. */
  ghost predicate OwnershipOk(w: World) {
    && (w.shared.inFlight ==> exists i | 0 <= i < |w.jobs| :: Owner(w.jobs[i]))
    && (Clean(w.jobs) ==> forall i | 0 <= i < |w.jobs| :: Owner(w.jobs[i]) ==> w.shared.inFlight)
    && (Clean(w.jobs) ==> forall i | 0 <= i < |w.jobs| :: !w.jobs[i].refused)
  }

  ghost predicate JobsOk(w: World) {
    && (forall i | 0 <= i < |w.jobs| :: JobOk(w.jobs[i]))
    && (forall i | 0 <= i < |w.jobs| :: Bound(w.shared, w.jobs[i]))
    && (forall i | 0 <= i < |w.jobs| - 1 :: Ended(w.jobs[i].pc))
  }

  ghost predicate WorldOk(w: World, history: seq<Message>) {
    && SharedOk(w.shared)
    && JobsOk(w)
    && OwnershipOk(w)
    && Linked(history, Written(w.jobs), w.shared.messages)
    && Balance(w.shared) == |OpenTurns(w.jobs)|
  }

  /** A session just opened on a conversation: the history is what the table holds, and no job has run. */
  ghost predicate Initial(w: World, history: seq<Message>) {
    && w.jobs == [] && w.shared.messages == history && !w.shared.inFlight && Balance(w.shared) == 0
    && SharedOk(w.shared)
  }

  // ---------- bookkeeping ----------

  lemma {:induction false} WrittenSame(jobs: seq<Job>, i: nat, job: Job)
    requires i < |jobs| && job.commits == jobs[i].commits
    ensures Written(jobs[i := job]) == Written(jobs)
  {
    var n := |jobs| - 1;
    if i < n {
      assert jobs[i := job][..n] == jobs[..n][i := job];
      WrittenSame(jobs[..n], i, job);
    } else {
      assert jobs[i := job][..n] == jobs[..n];
    }
  }

  lemma WrittenByLast(jobs: seq<Job>, job: Job)
    requires jobs != [] && jobs[|jobs| - 1].commits == []
    ensures Written(jobs[|jobs| - 1 := job]) == Written(jobs) + job.commits
  {
    var n := |jobs| - 1;
    assert jobs[n := job][..n] == jobs[..n];
  }

  lemma OpenTurnsUpdate(jobs: seq<Job>, i: nat, job: Job)
    requires i < |jobs|
    ensures |OpenTurns(jobs[i := job])| == |OpenTurns(jobs)| + (if Counted(job) then 1 else 0) - (if Counted(jobs[i]) then 1 else 0)
  {
    var before, after := OpenTurns(jobs), OpenTurns(jobs[i := job]);
    assert before - {i} == after - {i};
    assert Counted(job) <==> i in after;
    assert Counted(jobs[i]) <==> i in before;
    assert |before - {i}| == |before| - if i in before then 1 else 0;
    assert |after - {i}| == |after| - if i in after then 1 else 0;
  }

  // ---------- one job moves ----------

  /** A section, or an action from outside, takes one job and the shared state to new ones. */
  ghost predicate Moves(w: World, i: nat, s': Shared, job': Job) {
    && i < |w.jobs|
    && JobOk(job') && Bound(s', job') && SharedOk(s')
    && Effect(w.shared, w.jobs[i], s', job')
    && (Ended(w.jobs[i].pc) ==> Ended(job'.pc))
    && Balance(s') - Balance(w.shared) == (if Counted(job') then 1 else 0) - (if Counted(w.jobs[i]) then 1 else 0)
  }

  function Moved(w: World, i: nat, s': Shared, job': Job): World
    requires i < |w.jobs|
  {
    World(s', w.jobs[i := job'])
  }

  lemma MovedJobs(w: World, i: nat, s': Shared, job': Job)
    requires JobsOk(w) && Moves(w, i, s', job')
    ensures JobsOk(Moved(w, i, s', job'))
  {
    var jobs' := w.jobs[i := job'];
    forall k | 0 <= k < |jobs'|
      ensures Bound(s', jobs'[k])
    {
      assert Bound(w.shared, w.jobs[k]);
      if k != i && !Ended(w.jobs[k].pc) {
        assert Ended(w.jobs[i].pc);
      }
    }
  }

  lemma MovedOwner(w: World, i: nat, s': Shared, job': Job, jobs': seq<Job>)
    requires OwnershipOk(w) && Moves(w, i, s', job') && s'.inFlight && jobs' == w.jobs[i := job']
    ensures exists k | 0 <= k < |jobs'| :: Owner(jobs'[k])
  {
    if w.shared.inFlight {
      var k :| 0 <= k < |w.jobs| && Owner(w.jobs[k]);
      assert Owner(jobs'[k]);
    } else {
      assert Owner(jobs'[i]);
    }
  }

  /** When no write was lost, only the running job can own the session. */
  lemma CleanOwner(w: World, k: nat)
    requires JobsOk(w) && Clean(w.jobs) && k < |w.jobs| && Owner(w.jobs[k])
    ensures !Ended(w.jobs[k].pc) && k == |w.jobs| - 1
  {
    assert JobOk(w.jobs[k]) && !w.jobs[k].partialFailed;
  }

  lemma MovedCleanly(w: World, i: nat, s': Shared, job': Job, k: nat)
    requires JobsOk(w) && OwnershipOk(w) && Moves(w, i, s', job') && Clean(w.jobs) && k < |w.jobs|
    ensures k == i ==> (Owner(job') ==> s'.inFlight) && !job'.refused
    ensures k != i ==> (Owner(w.jobs[k]) ==> s'.inFlight) && !w.jobs[k].refused
  {
    assert Owner(w.jobs[k]) ==> w.shared.inFlight;
    assert !w.jobs[k].refused && JobOk(w.jobs[i]);
    if w.shared.inFlight {
      var o :| 0 <= o < |w.jobs| && Owner(w.jobs[o]);
      CleanOwner(w, o);
      assert o != i ==> Ended(w.jobs[i].pc);
    }
    if k != i && Owner(w.jobs[k]) {
      CleanOwner(w, k);
      assert Ended(w.jobs[i].pc);
    }
  }

  lemma MovedOwnership(w: World, i: nat, s': Shared, job': Job)
    requires JobsOk(w) && OwnershipOk(w) && Moves(w, i, s', job')
    ensures OwnershipOk(Moved(w, i, s', job'))
  {
    var jobs' := w.jobs[i := job'];
    if s'.inFlight {
      MovedOwner(w, i, s', job', jobs');
    }
    if Clean(jobs') {
      assert !jobs'[i].partialFailed;
      assert forall k | 0 <= k < |w.jobs| && k != i :: jobs'[k] == w.jobs[k];
      assert Clean(w.jobs);
      forall k | 0 <= k < |jobs'|
        ensures Owner(jobs'[k]) ==> s'.inFlight
        ensures !jobs'[k].refused
      {
        MovedCleanly(w, i, s', job', k);
      }
    }
  }

  lemma LinkedSnoc(history: seq<Message>, commits: seq<Commit>, messages: seq<Message>, commit: Commit)
    requires Linked(history, commits, messages) && commit.before == messages
    ensures Linked(history, commits + [commit], commit.after)
  {
  }

  lemma MovedWrites(w: World, history: seq<Message>, i: nat, s': Shared, job': Job)
    requires JobsOk(w) && Moves(w, i, s', job') && Linked(history, Written(w.jobs), w.shared.messages)
    ensures Linked(history, Written(w.jobs[i := job']), s'.messages)
  {
    if job'.commits == w.jobs[i].commits {
      WrittenSame(w.jobs, i, job');
    } else {
      assert i == |w.jobs| - 1;
      WrittenByLast(w.jobs, job');
      assert job'.commits == [job'.commits[0]];
      LinkedSnoc(history, Written(w.jobs), w.shared.messages, job'.commits[0]);
    }
  }

  lemma MovedOk(w: World, history: seq<Message>, i: nat, s': Shared, job': Job)
    requires WorldOk(w, history) && Moves(w, i, s', job')
    ensures WorldOk(Moved(w, i, s', job'), history)
  {
    MovedJobs(w, i, s', job');
    MovedOwnership(w, i, s', job');
    MovedWrites(w, history, i, s', job');
    OpenTurnsUpdate(w.jobs, i, job');
  }

  // ---------- one action ----------

  lemma NewJobOk(s: Shared, prompt: string, replaceFrom: Option<int>)
    requires prompt != ""
    ensures var job := NewJob(prompt, replaceFrom);
            JobOk(job) && Bound(s, job) && !Owner(job) && !Counted(job) && !job.refused && job.commits == []
  {
  }

  lemma AdmitOwnership(w: World, job: Job)
    requires OwnershipOk(w) && !Owner(job) && !job.refused
    ensures OwnershipOk(w.(jobs := w.jobs + [job]))
  {
    var jobs' := w.jobs + [job];
    if Clean(jobs') {
      forall k | 0 <= k < |w.jobs|
        ensures !w.jobs[k].partialFailed && jobs'[k] == w.jobs[k]
      {
        assert !jobs'[k].partialFailed;
      }
      assert Clean(w.jobs);
    }
    if w.shared.inFlight {
      var k :| 0 <= k < |w.jobs| && Owner(w.jobs[k]);
      assert Owner(jobs'[k]);
    }
  }

  lemma AdmitJobs(w: World, job: Job)
    requires JobsOk(w) && JobOk(job) && Bound(w.shared, job) && forall i | 0 <= i < |w.jobs| :: Terminal(w.jobs[i])
    ensures JobsOk(w.(jobs := w.jobs + [job]))
  {
    var jobs' := w.jobs + [job];
    forall i | 0 <= i < |w.jobs|
      ensures Ended(jobs'[i].pc)
    {
      assert JobOk(w.jobs[i]);
    }
  }

  lemma AdmitCounts(jobs: seq<Job>, job: Job)
    requires !Counted(job) && job.commits == []
    ensures OpenTurns(jobs + [job]) == OpenTurns(jobs) && Written(jobs + [job]) == Written(jobs)
  {
    hide Counted;
    assert (jobs + [job])[..|jobs|] == jobs;
  }

  lemma AdmitKeeps(w: World, history: seq<Message>, job: Job, prompt: string, replaceFrom: Option<int>)
    requires WorldOk(w, history) && job == NewJob(prompt, replaceFrom) && prompt != ""
    requires forall i | 0 <= i < |w.jobs| :: Terminal(w.jobs[i])
    ensures WorldOk(w.(jobs := w.jobs + [job]), history)
  {
    hide JobOk, JobsOk, OwnershipOk, SharedOk, Linked, OpenTurns, Written;
    NewJobOk(w.shared, prompt, replaceFrom);
    AdmitJobs(w, job);
    AdmitOwnership(w, job);
    AdmitCounts(w.jobs, job);
  }

  /** Readers and aborts only ever touch a job's channels and its abort flag. */
  lemma OutsideLog(net: Delivery.Net, action: Delivery.Action)
    requires Delivery.Sound(net) && FromOutside(action)
    ensures Delivery.Sound(Delivery.Step(net, action))
    ensures Delivery.Step(net, action).log.events == net.log.events
    ensures Delivery.Step(net, action).log.terminal == net.log.terminal
  {
    Delivery.StepSound(net, action);
    if action.Deliver? && action.k < |net.clients| {
      Delivery.DeliverInOrder(net.log, net.clients[action.k]);
    }
  }

  lemma OutsideMoves(w: World, i: nat, action: Delivery.Action)
    requires SharedOk(w.shared) && JobsOk(w) && i < |w.jobs| && FromOutside(action)
    ensures Moves(w, i, w.shared, w.jobs[i].(net := Delivery.Step(w.jobs[i].net, action)))
  {
    var job := w.jobs[i];
    var job' := job.(net := Delivery.Step(job.net, action));
    assert JobOk(job) && Bound(w.shared, job);
    OutsideLog(job.net, action);
    CommitsCarry(job, job');
  }

  lemma SectionMoves(w: World, i: nat, choice: Choice)
    requires SharedOk(w.shared) && JobsOk(w) && i < |w.jobs|
    ensures CanStep(w.shared, w.jobs[i])
    ensures var (s', job') := JobStep(w.shared, w.jobs[i], choice); Moves(w, i, s', job')
  {
    var s, job := w.shared, w.jobs[i];
    assert JobOk(job) && Bound(s, job);
    SectionsEnabled(s, job);
    var (s', job'', said) := Section(s, job, choice);
    var job' := JobStep(s, job, choice).1;
    SectionStage(s, job, choice);
    SectionTurn(s, job, choice);
    SectionEffect(s, job, choice);
    SectionEnds(s, job, choice);
    SectionBound(s, job, choice);
    SectionMeter(s, job, choice);
    JobStepLogOk(s, job, choice);
    SameButLog(s, job, s', job'', job');
  }

  lemma SameButLog(s: Shared, job: Job, s': Shared, job'': Job, job': Job)
    requires job' == job''.(net := job'.net)
    requires StageOk(job'') && TurnOk(job'') && Bound(s', job'') && Effect(s, job, s', job'')
    ensures StageOk(job') && TurnOk(job') && Bound(s', job') && Effect(s, job, s', job')
    ensures Counted(job') == Counted(job'') && Ended(job'.pc) == Ended(job''.pc)
  {
    CommitsCarry(job'', job');
  }

  lemma StepKeeps(w: World, history: seq<Message>, action: Action)
    requires WorldOk(w, history)
    ensures WorldOk(Step(w, action), history)
  {
    match action
    case Admit(prompt, replaceFrom) =>
      if Step(w, action) != w {
        AdmitKeeps(w, history, NewJob(TrimSpace(prompt), replaceFrom), TrimSpace(prompt), replaceFrom);
      }
    case Reader(i, act) =>
      if i < |w.jobs| && FromOutside(act) {
        OutsideMoves(w, i, act);
        MovedOk(w, history, i, w.shared, w.jobs[i].(net := Delivery.Step(w.jobs[i].net, act)));
      }
    case Advance(i, choice) =>
      if i < |w.jobs| {
        SectionMoves(w, i, choice);
        var (s', job') := JobStep(w.shared, w.jobs[i], choice);
        MovedOk(w, history, i, s', job');
      }
  }

  // ---------- every run ----------

  /** The invariant of every run from every conversation history. */
  lemma {:induction false} EveryRunKeeps(start: World, history: seq<Message>, actions: seq<Action>)
    requires Initial(start, history)
    ensures WorldOk(Run(start, actions), history)
  {
    if actions == [] {
      assert OpenTurns(start.jobs) == {};
    } else {
      EveryRunKeeps(start, history, actions[..|actions| - 1]);
      StepKeeps(Run(start, actions[..|actions| - 1]), history, actions[|actions| - 1]);
    }
  }

  /**
   A job's log never holds more than one terminal event, and that one is last and true: `done` exactly
   when a completed turn was committed, `stream-error` only when nothing was, `aborted` when nothing or
   one partial or stopped turn was. A running job has announced nothing yet.
   */
  lemma OneTrueTerminalEvent(start: World, history: seq<Message>, actions: seq<Action>, i: nat)
    requires Initial(start, history) && i < |Run(start, actions).jobs|
    ensures var job := Run(start, actions).jobs[i];
            var events := job.net.log.events;
            && (forall k | 0 <= k < |events| - 1 :: !IsTerminal(events[k].payload))
            && (Terminal(job) <==> events != [] && IsTerminal(events[|events| - 1].payload))
            && (job.pc.Finished? ==> Terminal(job))
            && |job.commits| <= 1
            && (Terminal(job) ==>
                  var payload := events[|events| - 1].payload;
                  && (payload.Done? <==> job.commits != [] && job.commits[0].kind == Whole)
                  && (payload.StreamError? ==> job.commits == [])
                  && (payload.Aborted? ==> job.commits == [] || job.commits[0].kind == Partial || job.commits[0].kind == Stopped))
  {
    hide Run, JobOk;
    EveryRunKeeps(start, history, actions);
    assert JobOk(Run(start, actions).jobs[i]);
    LogTells(Run(start, actions).jobs[i]);
  }

  lemma LogTells(job: Job)
    requires JobOk(job)
    ensures var events := job.net.log.events;
            && (forall k | 0 <= k < |events| - 1 :: !IsTerminal(events[k].payload))
            && (Terminal(job) <==> events != [] && IsTerminal(events[|events| - 1].payload))
            && (job.pc.Finished? ==> Terminal(job))
            && |job.commits| <= 1
            && (Terminal(job) ==>
                  var payload := events[|events| - 1].payload;
                  && (payload.Done? <==> job.commits != [] && job.commits[0].kind == Whole)
                  && (payload.StreamError? ==> job.commits == [])
                  && (payload.Aborted? ==> job.commits == [] || job.commits[0].kind == Partial || job.commits[0].kind == Stopped))
  {
    hide TurnOk, StageOk, Delivery.Sound;
    var events := job.net.log.events;
    if !Terminal(job) && events != [] {
      assert !IsTerminal(events[|events| - 1].payload);
    }
  }

  /**
   What a reader is told is what the conversation holds. Whatever a client of a job has been given, over
   all its connections, is an exact prefix of the log; and if it was given `done`, the parts and the time
   in it are those of the assistant message that was committed, at the end of the transcript of that moment.
   */
  lemma ReadersAreToldTheTruth(start: World, history: seq<Message>, actions: seq<Action>, i: nat, k: nat)
    requires Initial(start, history) && i < |Run(start, actions).jobs| && k < |Run(start, actions).jobs[i].net.clients|
    ensures var job := Run(start, actions).jobs[i];
            var got := job.net.clients[k].got;
            && got <= job.net.log.events
            && (forall m | 0 <= m < |got| :: got[m].id == m + 1)
            && forall m | 0 <= m < |got| && got[m].payload.Done? ::
                 && m == |job.net.log.events| - 1
                 && |job.commits| == 1 && job.commits[0].after != []
                 && job.commits[0].after[|job.commits[0].after| - 1]
                    == Message(Assistant, got[m].payload.parts, got[m].payload.completedAt)
  {
    hide Run;
    EveryRunKeeps(start, history, actions);
    var job := Run(start, actions).jobs[i];
    assert JobOk(job);
    var client := job.net.clients[k];
    assert Delivery.InOrder(job.net.log, client);
    if client.connection.Online? {
      assert client.got <= client.got + client.connection.replay;
    }
    forall m | 0 <= m < |client.got| && client.got[m].payload.Done?
      ensures m == |job.net.log.events| - 1 && |job.commits| == 1 && job.commits[0].after != []
      ensures job.commits[0].after[|job.commits[0].after| - 1]
              == Message(Assistant, client.got[m].payload.parts, client.got[m].payload.completedAt)
    {
      assert client.got[m] == job.net.log.events[m];
      DoneIsCommitted(job, m);
    }
  }

  lemma DoneIsCommitted(job: Job, m: nat)
    requires LogOk(job) && TurnOk(job) && m < |job.net.log.events| && job.net.log.events[m].payload.Done?
    ensures m == |job.net.log.events| - 1 && |job.commits| == 1 && job.commits[0].after != []
    ensures job.commits[0].after[|job.commits[0].after| - 1]
         == Message(Assistant, job.net.log.events[m].payload.parts, job.net.log.events[m].payload.completedAt)
  {
    assert CommitOk(job, job.commits[0]);
  }

  /** The transcript is the history carried through every job's write, in order, and nothing else. */
  lemma TranscriptIsItsWrites(start: World, history: seq<Message>, actions: seq<Action>)
    requires Initial(start, history)
    ensures var w := Run(start, actions); Linked(history, Written(w.jobs), w.shared.messages)
  {
    EveryRunKeeps(start, history, actions);
  }

  /** After every step, failed writes included, the table reads back as the transcript in memory, numbered 1..n. */
  lemma MemoryRefinesStorage(start: World, history: seq<Message>, actions: seq<Action>)
    requires Initial(start, history) && Run(start, actions).shared.table.Some?
    ensures var s := Run(start, actions).shared;
            && ReadBack(s.table.value, s.conversation) == s.messages
            && Sequences(s.table.value, s.conversation) == UpTo(|s.messages|)
  {
    EveryRunKeeps(start, history, actions);
    var s := Run(start, actions).shared;
    HoldsReadsBack(s.table.value, s.conversation, s.messages);
  }

  /** A failing write changes neither the transcript nor the table. */
  lemma FailedWriteChangesNothing(start: World, history: seq<Message>, actions: seq<Action>, i: nat, choice: Choice)
    requires Initial(start, history) && Run(start, actions).shared.table.Some? && choice.fault
    ensures var w := Run(start, actions);
            var next := Step(w, Advance(i, choice));
            next.shared.messages == w.shared.messages && next.shared.table == w.shared.table
  {
    EveryRunKeeps(start, history, actions);
    var w := Run(start, actions);
    if i < |w.jobs| {
      SectionMoves(w, i, choice);
      NoWriteUnderFault(w.shared, w.jobs[i], choice);
    }
  }

  lemma NoWriteUnderFault(s: Shared, job: Job, choice: Choice)
    requires CanStep(s, job) && s.table.Some? && choice.fault
    ensures Section(s, job, choice).0.messages == s.messages && Section(s, job, choice).0.table == s.table
  {
  }

  /**
   Context equals history: a turn that was committed, whole or partial, left exactly the messages that
   were sent upstream followed by the answer; and its index still meant what it had meant at `Send`.
   */
  lemma ContextEqualsHistory(start: World, history: seq<Message>, actions: seq<Action>, i: nat)
    requires Initial(start, history) && i < |Run(start, actions).jobs|
    requires Run(start, actions).jobs[i].commits != [] && Run(start, actions).jobs[i].commits[0].kind != Stopped
    ensures var job := Run(start, actions).jobs[i];
            && job.turn.Some?
            && job.commits[0].after == job.turn.value.request + [job.commits[0].answer]
            && ReplaceFromIndex(job.commits[0].before, job.replaceFrom).Success?
            && job.turn.value.request
               == job.commits[0].before[..ReplaceFromIndex(job.commits[0].before, job.replaceFrom).value] + [TextMessage(User, job.prompt)]
  {
    hide Run;
    EveryRunKeeps(start, history, actions);
    var job := Run(start, actions).jobs[i];
    assert JobOk(job);
    CommitContext(job, job.commits[0]);
  }

  lemma CommitContext(job: Job, commit: Commit)
    requires CommitOk(job, commit) && commit.kind != Stopped && TurnOk(job)
    ensures job.turn.Some?
    ensures commit.after == job.turn.value.request + [commit.answer]
    ensures ReplaceFromIndex(commit.before, job.replaceFrom).Success?
    ensures job.turn.value.request == commit.before[..ReplaceFromIndex(commit.before, job.replaceFrom).value] + [TextMessage(User, job.prompt)]
  {
    var request := job.turn.value.request;
    assert request == commit.after[..|request|];
  }

  /** The transcript alternates in whole turns, so exactly the even indexes in range can be replaced from. */
  lemma ReplaceableAreTheEvenIndexes(start: World, history: seq<Message>, actions: seq<Action>, keep: int)
    requires Initial(start, history)
    ensures var messages := Run(start, actions).shared.messages;
            && Alternates(messages) && |messages| % 2 == 0
            && (ReplaceFromIndex(messages, Some(keep)).Success? <==> 0 <= keep <= |messages| && keep % 2 == 0)
  {
    EveryRunKeeps(start, history, actions);
    ReplaceFromAlternating(Run(start, actions).shared.messages, keep);
  }

  /** Every started turn is counted once: as completed, cancelled, failed, or still open; a finished job's is not open. */
  lemma TurnAccounting(start: World, history: seq<Message>, actions: seq<Action>)
    requires Initial(start, history)
    ensures var w := Run(start, actions);
            && w.shared.started == w.shared.completed + w.shared.cancelled + w.shared.failed + |OpenTurns(w.jobs)|
            && forall i | i in OpenTurns(w.jobs) :: i == |w.jobs| - 1 && !Terminal(w.jobs[i])
  {
    EveryRunKeeps(start, history, actions);
    var w := Run(start, actions);
    forall i | i in OpenTurns(w.jobs)
      ensures i == |w.jobs| - 1 && !Terminal(w.jobs[i])
    {
      assert JobOk(w.jobs[i]);
    }
  }

  // ---------- release before announce ----------

  /**
   Unless a partial commit failed to be written, no admitted job ever finds the session taken: a turn is in
   flight exactly when the last job admitted owns it, and a job without a stream never commits beside an open turn.
   */
  lemma ReleaseBeforeAnnounce(start: World, history: seq<Message>, actions: seq<Action>)
    requires Initial(start, history) && Clean(Run(start, actions).jobs)
    ensures var w := Run(start, actions);
            && (forall i | 0 <= i < |w.jobs| :: !w.jobs[i].refused)
            && (w.shared.inFlight <==> w.jobs != [] && Owner(w.jobs[|w.jobs| - 1]))
            && (forall i | 0 <= i < |w.jobs| && w.jobs[i].pc.StoppingCommit? :: !w.shared.inFlight)
  {
    hide Run, JobsOk, OwnershipOk;
    EveryRunKeeps(start, history, actions);
    OwnedByLast(Run(start, actions));
  }

  lemma OwnedByLast(w: World)
    requires JobsOk(w) && OwnershipOk(w) && Clean(w.jobs)
    ensures (forall i | 0 <= i < |w.jobs| :: !w.jobs[i].refused)
    ensures w.shared.inFlight <==> w.jobs != [] && Owner(w.jobs[|w.jobs| - 1])
    ensures (forall i | 0 <= i < |w.jobs| && w.jobs[i].pc.StoppingCommit? :: !w.shared.inFlight)
  {
    hide LogOk, TurnOk, Bound;
    if w.shared.inFlight {
      var o :| 0 <= o < |w.jobs| && Owner(w.jobs[o]);
      CleanOwner(w, o);
    }
    forall i | 0 <= i < |w.jobs| && w.jobs[i].pc.StoppingCommit?
      ensures !w.shared.inFlight
    {
      assert JobOk(w.jobs[i]);
    }
  }

  /** Nor does a finished job's late `Close` touch the session, whoever owns it by then. */
  lemma LateCloseIsHarmless(start: World, history: seq<Message>, actions: seq<Action>, i: nat, choice: Choice)
    requires Initial(start, history) && Clean(Run(start, actions).jobs)
    requires i < |Run(start, actions).jobs| && Run(start, actions).jobs[i].pc.Closing?
    ensures var w := Run(start, actions);
            var next := Step(w, Advance(i, choice));
            next.shared.messages == w.shared.messages && next.shared.inFlight == w.shared.inFlight && next.shared.table == w.shared.table
  {
    hide Run, LogOk, TurnOk, Linked, Written, OpenTurns, Bound, SharedOk;
    EveryRunKeeps(start, history, actions);
    var w := Run(start, actions);
    SectionMoves(w, i, choice);
    if Owner(w.jobs[i]) {
      CleanOwner(w, i);
    }
  }

  /** A job whose partial commit failed, and whose `Close` is still to come. */
  predicate LostWrite(job: Job) {
    job.partialFailed && job.pc.Closing? && Owner(job)
  }

  lemma BehindLostWrite(w: World, i: nat)
    requires JobsOk(w) && OwnershipOk(w) && i < |w.jobs| && w.jobs[i].pc.Spawned? && w.shared.inFlight
    ensures exists k | 0 <= k < i :: LostWrite(w.jobs[k])
  {
    hide LogOk, TurnOk;
    var o :| 0 <= o < |w.jobs| && Owner(w.jobs[o]);
    assert StageOk(w.jobs[i]) by { assert JobOk(w.jobs[i]); }
    assert StageOk(w.jobs[o]) by { assert JobOk(w.jobs[o]); }
    assert i == |w.jobs| - 1 && o != i;
    assert Ended(w.jobs[o].pc);
    assert LostWrite(w.jobs[o]);
  }

  /** In any run at all, a job is refused only while an earlier job with a lost write has yet to close. */
  lemma RefusedOnlyBehindLostWrite(start: World, history: seq<Message>, actions: seq<Action>, i: nat, choice: Choice)
    requires Initial(start, history) && i < |Run(start, actions).jobs| && Run(start, actions).jobs[i].pc.Spawned?
    ensures var w := Run(start, actions);
            && (Step(w, Advance(i, choice)).jobs[i].refused <==> w.shared.inFlight)
            && (w.shared.inFlight ==> exists k | 0 <= k < i :: LostWrite(w.jobs[k]))
  {
    EveryRunKeeps(start, history, actions);
    var w := Run(start, actions);
    SectionMoves(w, i, choice);
    assert !w.jobs[i].refused by { assert JobOk(w.jobs[i]); }
    if w.shared.inFlight {
      BehindLostWrite(w, i);
    }
  }

  /** In any run at all, a late `Close` clears the session's flag exactly when its own write was lost. */
  lemma LateCloseExactly(start: World, history: seq<Message>, actions: seq<Action>, i: nat, choice: Choice)
    requires Initial(start, history) && i < |Run(start, actions).jobs| && Run(start, actions).jobs[i].pc.Closing?
    ensures var w := Run(start, actions);
            Step(w, Advance(i, choice)).shared.inFlight <==> w.shared.inFlight && !LostWrite(w.jobs[i])
  {
    EveryRunKeeps(start, history, actions);
    var w := Run(start, actions);
    SectionMoves(w, i, choice);
    assert JobOk(w.jobs[i]);
  }

  // ---------- a run that loses a write ----------

  const UNWRITTEN := Choice(Broken(Canceled), None, true, 0)

  ghost predicate Reachable(start: World, w: World) {
    exists actions :: w == Run(start, actions)
  }

  lemma ReachableStep(start: World, w: World, action: Action)
    requires Reachable(start, w)
    ensures Reachable(start, Step(w, action))
  {
    var actions :| w == Run(start, actions);
    assert (actions + [action])[..|actions|] == actions;
    assert Step(w, action) == Run(start, actions + [action]);
  }

  lemma SpawnedSection(s: Shared, job: Job, choice: Choice)
    requires job.pc.Spawned? && job.prompt != "" && job.replaceFrom == None && !s.inFlight
    ensures CanStep(s, job)
    ensures Section(s, job, choice) ==
            (s.(inFlight := true),
             job.(pc := Opening, turn := Some(Turn(PromptOf(job), |s.messages|, false, s.messages[..|s.messages|] + [PromptOf(job)], [], None, false, false, false))),
             None)
  {
  }

  lemma OpeningSection(s: Shared, job: Job)
    requires job.pc.Opening?
    ensures CanStep(s, job)
    ensures Section(s, job, CANCELLED) == (s.(started := s.started + 1), job.(pc := Streaming, streamOpen := true), None)
  {
  }

  lemma CancelledSection(s: Shared, job: Job)
    requires job.pc.Streaming? && job.turn.Some? && !job.turn.value.recorded
    ensures CanStep(s, job)
    ensures Section(s, job, CANCELLED)
         == (s.(cancelled := s.cancelled + 1), job.(turn := Some(job.turn.value.(recorded := true)), pc := NextFailed(Canceled)), None)
  {
  }

  lemma AnnounceSection(s: Shared, job: Job)
    requires job.pc.Announce?
    ensures CanStep(s, job)
    ensures Section(s, job, CANCELLED)
         == (s, job.(pc := if job.streamOpen then Closing else Finishing), Some(Delivery.EmitLast(job.pc.payload)))
  {
  }

  lemma LastEvent(net: Delivery.Net, payload: Payload)
    requires !net.log.terminal
    ensures Delivery.Step(net, Delivery.EmitLast(payload)).log.terminal
  {
  }

  /** A section that says nothing, in its world. */
  lemma Silent(start: World, w: World, i: nat, choice: Choice, s': Shared, job': Job) returns (next: World)
    requires Reachable(start, w) && i < |w.jobs| && CanStep(w.shared, w.jobs[i])
    requires Section(w.shared, w.jobs[i], choice) == (s', job', None)
    ensures next == World(s', w.jobs[i := job']) && Reachable(start, next)
  {
    hide Section, CanStep;
    next := Step(w, Advance(i, choice));
    ReachableStep(start, w, Advance(i, choice));
  }

  lemma Announces(start: World, w: World, i: nat) returns (next: World)
    requires Reachable(start, w) && i < |w.jobs| && w.jobs[i].pc.Announce? && !Terminal(w.jobs[i])
    ensures Reachable(start, next) && next.shared == w.shared && |next.jobs| == |w.jobs| && next.jobs == w.jobs[i := next.jobs[i]]
    ensures Terminal(next.jobs[i])
    ensures next.jobs[i] == w.jobs[i].(net := next.jobs[i].net, pc := if w.jobs[i].streamOpen then Closing else Finishing)
  {
    hide Section, CanStep, Delivery.Step;
    AnnounceSection(w.shared, w.jobs[i]);
    LastEvent(w.jobs[i].net, w.jobs[i].pc.payload);
    next := Step(w, Advance(i, CANCELLED));
    ReachableStep(start, w, Advance(i, CANCELLED));
  }

  lemma Admits(start: World, w: World, prompt: string) returns (next: World)
    requires Reachable(start, w) && TrimSpace(prompt) == prompt != "" && forall i | 0 <= i < |w.jobs| :: Terminal(w.jobs[i])
    ensures Reachable(start, next) && next == w.(jobs := w.jobs + [NewJob(prompt, None)])
  {
    next := Step(w, Admit(prompt, None));
    ReachableStep(start, w, Admit(prompt, None));
  }

  lemma IsAborted(start: World, w: World, i: nat) returns (next: World)
    requires Reachable(start, w) && i < |w.jobs| && !Terminal(w.jobs[i])
    ensures Reachable(start, next) && next.shared == w.shared && |next.jobs| == |w.jobs| && next.jobs == w.jobs[i := next.jobs[i]]
    ensures next.jobs[i] == w.jobs[i].(net := next.jobs[i].net) && AbortRequested(next.jobs[i]) && !Terminal(next.jobs[i])
  {
    next := Step(w, Reader(i, Delivery.AbortJob));
    ReachableStep(start, w, Reader(i, Delivery.AbortJob));
  }

  /** A job takes the free turn and is cancelled upstream. */
  lemma IsCancelled(start: World, w0: World, i: nat) returns (w: World)
    requires Reachable(start, w0) && i < |w0.jobs| && w0.jobs[i] == NewJob(w0.jobs[i].prompt, None) && w0.jobs[i].prompt != "" && !w0.shared.inFlight
    ensures Reachable(start, w) && |w.jobs| == |w0.jobs| && w.jobs == w0.jobs[i := w.jobs[i]] && w.jobs[i].net == w0.jobs[i].net
    ensures w.jobs[i].pc == NextFailed(Canceled) && w.jobs[i].streamOpen && Owner(w.jobs[i]) && !w.jobs[i].turn.value.replaceTail
    ensures w.shared.inFlight && w.shared.table == w0.shared.table
  {
    hide Section, CanStep, Reachable;
    SpawnedSection(w0.shared, w0.jobs[i], CANCELLED);
    var taken := Section(w0.shared, w0.jobs[i], CANCELLED);
    w := Silent(start, w0, i, CANCELLED, taken.0, taken.1);
    OpeningSection(w.shared, w.jobs[i]);
    var streaming := Section(w.shared, w.jobs[i], CANCELLED);
    w := Silent(start, w, i, CANCELLED, streaming.0, streaming.1);
    CancelledSection(w.shared, w.jobs[i]);
    var pulled := Section(w.shared, w.jobs[i], CANCELLED);
    w := Silent(start, w, i, CANCELLED, pulled.0, pulled.1);
  }

  lemma Unwritten(s: Shared, job: Job)
    requires job.pc == PartialCommit && Owner(job) && !job.turn.value.replaceTail && s.table.Some?
    ensures CanStep(s, job)
    ensures Section(s, job, UNWRITTEN) == (s, job.(pc := Announce(StreamError), partialFailed := true), None)
  {
  }

  /** Its partial answer is not written; it announces the error and has yet to close. */
  lemma LosesItsWrite(start: World, w0: World, i: nat) returns (w: World)
    requires Reachable(start, w0) && i < |w0.jobs| && !Terminal(w0.jobs[i]) && w0.shared.table.Some?
    requires w0.jobs[i].pc == NextFailed(Canceled) && w0.jobs[i].streamOpen && Owner(w0.jobs[i]) && !w0.jobs[i].turn.value.replaceTail
    ensures Reachable(start, w) && |w.jobs| == |w0.jobs| && w.jobs == w0.jobs[i := w.jobs[i]] && w.shared == w0.shared
    ensures LostWrite(w.jobs[i]) && Terminal(w.jobs[i])
  {
    w := Silent(start, w0, i, CANCELLED, w0.shared, w0.jobs[i].(pc := PartialCommit));
    Unwritten(w.shared, w.jobs[i]);
    w := Silent(start, w, i, UNWRITTEN, w.shared, w.jobs[i].(pc := Announce(StreamError), partialFailed := true));
    w := Announces(start, w, i);
  }

  /** A job that finds the turn taken and is aborted is committed as stopped, beside the open turn. */
  lemma RefusedThenStopped(start: World, w0: World, i: nat) returns (w: World)
    requires Reachable(start, w0) && i < |w0.jobs| && w0.jobs[i] == NewJob(w0.jobs[i].prompt, None) && w0.jobs[i].prompt != "" && w0.shared.inFlight
    ensures Reachable(start, w) && |w.jobs| == |w0.jobs| && w.jobs == w0.jobs[i := w.jobs[i]]
    ensures w.jobs[i].refused && Terminal(w.jobs[i]) && !w.shared.inFlight
  {
    w := IsAborted(start, w0, i);
    w := Silent(start, w, i, CANCELLED, w.shared, w.jobs[i].(pc := SendFailed(TurnInProgress), refused := true));
    w := Silent(start, w, i, CANCELLED, w.shared, w.jobs[i].(pc := StoppingCommit));
    var stopped := CommitStopped(w.shared, w.jobs[i], CANCELLED);
    w := Silent(start, w, i, CANCELLED, stopped.0, stopped.1);
    w := Announces(start, w, i);
  }

  /**
   Release before announce does fail once a partial commit is lost. From any stored conversation there is a
   run in which the second job is refused although the first has announced its end, and in which the first
   job's late `Close` then clears the flag of the third job's open turn.
   */
  lemma LostWriteBreaksRelease(start: World, prompt: string) returns (w: World)
    requires Initial(start, start.shared.messages) && start.shared.table.Some? && TrimSpace(prompt) == prompt != ""
    ensures Reachable(start, w) && |w.jobs| == 3
    ensures w.jobs[1].refused
    ensures w.jobs[0].pc.Closing? && w.jobs[2].pc.Opening? && Owner(w.jobs[2]) && w.shared.inFlight
    ensures !Step(w, Advance(0, CANCELLED)).shared.inFlight
  {
    hide Section, CanStep, Step, TrimSpace, Holds;
    assert Run(start, []) == start;
    w := Admits(start, start, prompt);
    w := IsCancelled(start, w, 0);
    w := LosesItsWrite(start, w, 0);
    var first := w.jobs[0];
    assert |w.jobs| == 1 && Terminal(first);
    w := Admits(start, w, prompt);
    assert w.jobs == [first, NewJob(prompt, None)];
    w := RefusedThenStopped(start, w, 1);
    var second := w.jobs[1];
    assert w.jobs == [first, second];
    w := Admits(start, w, prompt);
    assert w.jobs == [first, second, NewJob(prompt, None)];
    SpawnedSection(w.shared, w.jobs[2], CANCELLED);
    var taken := Section(w.shared, w.jobs[2], CANCELLED);
    w := Silent(start, w, 2, CANCELLED, taken.0, taken.1);
    assert w.jobs == [first, second, w.jobs[2]];
    CloseClears(w, 0);
  }

  lemma CloseClears(w: World, i: nat)
    requires i < |w.jobs| && LostWrite(w.jobs[i])
    ensures !Step(w, Advance(i, CANCELLED)).shared.inFlight
  {
  }
}
