/**
 What every section of every job keeps: one job's own invariant, what a section does to the shared
 state, and the invariant of the whole world.
 */
module TurnInvariants {
  import opened Accumulator
  import opened Chat
  import opened Llm
  import opened Storage
  import opened TurnLog
  import opened Turns
  import opened Wrappers
  import Delivery

  // ---------- one job ----------

  /** The job's turn still owns the session. */
  predicate Owner(job: Job) {
    job.turn.Some? && !job.turn.value.finalized
  }

  predicate Ended(pc: Pc) {
    pc.Closing? || pc.Finishing? || pc.Finished?
  }

  /** What a terminal event says about the job's writes of the transcript. */
  predicate Told(payload: Payload, commits: seq<Commit>) {
    match payload
    case Done(parts, _, completedAt) => |commits| == 1 && commits[0].kind == Whole && commits[0].answer == Message(Assistant, parts, completedAt)
    case Aborted => commits == [] || (|commits| == 1 && commits[0].kind != Whole)
    case StreamError => commits == []
    case _ => false
  }

  /** The log ends with the job's one terminal event, and that event is true. */
  ghost predicate LogOk(job: Job) {
    var events := job.net.log.events;
    && Delivery.Sound(job.net)
    && (Terminal(job) <==> Ended(job.pc))
    && (Terminal(job) ==> events != [] && Told(events[|events| - 1].payload, job.commits))
    && (forall i | 0 <= i < |events| - (if Terminal(job) then 1 else 0) :: !IsTerminal(events[i].payload))
    && VerdictOk(job)
  }

  /** What is about to be announced is true, and nothing is written before it is decided. */
  predicate VerdictOk(job: Job) {
    if job.pc.Announce? then Told(job.pc.payload, job.commits) else Ended(job.pc) || job.commits == []
  }

  /** Which flags a turn can have at each point of the goroutine. */
  predicate StageOk(job: Job) {
    var owner := Owner(job);
    && job.prompt != ""
    && (job.streamOpen ==> job.turn.Some? && job.turn.value.parts == job.parts)
    && (job.partialFailed ==> Ended(job.pc) || job.pc == Announce(StreamError))
    && (job.turn.Some? ==>
          || job.turn.value.recorded
          || job.pc.Opening? || job.pc.OpenFailed? || job.pc.Streaming? || job.pc.Finalizing?)
    && match job.pc
       case Spawned => job.turn == None && !job.streamOpen && job.parts == [] && !job.refused
       case Opening => owner && !job.streamOpen && job.parts == [] && job.turn.value.parts == [] && Untouched(job.turn.value)
       case OpenFailed(_) => owner && !job.streamOpen && Untouched(job.turn.value)
       case SendFailed(_) => !owner && !job.streamOpen
       case StoppingCommit => !owner && !job.streamOpen
       case Failing(_) => !owner
       case Streaming => owner && job.streamOpen && Untouched(job.turn.value)
       case Finalizing(_) => owner && job.streamOpen && !job.turn.value.recorded && job.turn.value.completed
       case Releasing(_) => owner && job.streamOpen
       case NextFailed(cause) => job.streamOpen && (owner ==> cause == Canceled && !job.turn.value.completed)
       case PartialCommit => job.streamOpen && (owner ==> !job.turn.value.completed)
       case Announce(payload) => owner ==> job.partialFailed && job.streamOpen
       case Closing => job.streamOpen && (owner ==> job.partialFailed)
       case Finishing => !owner
       case Finished => !owner
  }

  predicate Untouched(turn: Turn) {
    !turn.completed && !turn.recorded
  }

  /** Each write put the job's own turn at the place its `replace_from` names, after exactly what was sent upstream. */
  ghost predicate CommitOk(job: Job, commit: Commit) {
    && ReplaceFromIndex(commit.before, job.replaceFrom).Success?
    && commit.answer.role == Assistant
    && commit.after == Extended(commit.before, job.replaceFrom.Some?, ReplaceFromIndex(commit.before, job.replaceFrom).value,
                                PromptOf(job), commit.answer)
    && (commit.kind != Stopped ==>
          job.turn.Some? && commit.after == job.turn.value.request + [commit.answer] && commit.answer.parts == job.turn.value.parts)
    && (commit.kind == Stopped ==> commit.answer.parts == [])
    && (commit.kind == Whole <==> commit.answer.completedAt.Some?)
  }

  ghost predicate TurnOk(job: Job) {
    && (job.turn.Some? ==> job.turn.value.user == PromptOf(job) && job.turn.value.replaceTail == job.replaceFrom.Some?)
    && forall i | 0 <= i < |job.commits| :: CommitOk(job, job.commits[i])
  }

  ghost predicate JobOk(job: Job) {
    LogOk(job) && StageOk(job) && TurnOk(job)
  }

  /** The transcript is still the one the turn was opened on. */
  ghost predicate Bound(s: Shared, job: Job) {
    Owner(job) && !Ended(job.pc) ==>
      && ReplaceFromIndex(s.messages, job.replaceFrom) == Success(job.turn.value.keep)
      && job.turn.value.request == s.messages[..job.turn.value.keep] + [PromptOf(job)]
  }

  /** The transcript in memory alternates, and is the one in the table. */
  ghost predicate SharedOk(s: Shared) {
    && Alternates(s.messages) && |s.messages| % 2 == 0
    && (s.table.Some? ==> s.conversation > 0 && Holds(s.table.value, s.conversation, s.messages))
  }

  // ---------- one section ----------

  /** A turn that was counted as started and not yet as completed, cancelled or failed. */
  predicate Counted(job: Job) {
    job.turn.Some? && !job.turn.value.recorded && !job.pc.Opening?
  }

  function Balance(s: Shared): int {
    s.started - s.completed - s.cancelled - s.failed
  }

  lemma CommitToOk(s: Shared, replaceFrom: Option<int>, user: Message, answer: Message)
    requires SharedOk(s) && ReplaceFromIndex(s.messages, replaceFrom).Success?
    requires user.role == User && user.completedAt == None && answer.role == Assistant
    ensures SharedOk(CommitTo(s, replaceFrom.Some?, ReplaceFromIndex(s.messages, replaceFrom).value, user, answer))
  {
    var keep := ReplaceFromIndex(s.messages, replaceFrom).value;
    ExtendedAlternates(s.messages, replaceFrom, user, answer);
    if s.table.Some? {
      CommittedHolds(s.table.value, s.conversation, s.messages, if replaceFrom.Some? then Some(keep) else None, user, answer);
    }
  }

  /** No section of a reachable job is ever blocked or out of range: the index taken at `Send` is still valid at commit. */
  lemma SectionsEnabled(s: Shared, job: Job)
    requires JobOk(job) && Bound(s, job)
    ensures CanStep(s, job)
  {
  }

  /** One pull changes the parts and the log, may mark the turn, and never touches the session's transcript or ownership. */
  lemma PullQuiet(s: Shared, job: Job, choice: Choice)
    requires StageOk(job) && job.pc.Streaming?
    ensures var (s', job', _) := Pull(s, job, job.turn.value, choice);
            && StageOk(job')
            && Owner(job')
            && s' == s.(failed := s'.failed, cancelled := s'.cancelled)
            && job' == job.(turn := job'.turn, pc := job'.pc, parts := job'.parts, markdown := job'.markdown)
            && job'.turn.value == job.turn.value.(parts := job'.parts, completed := job'.turn.value.completed, recorded := job'.turn.value.recorded)
            && (job'.pc.Streaming? || job'.pc.Finalizing? || job'.pc.Releasing? || job'.pc.NextFailed?)
            && Balance(s') - Balance(s) == (if Counted(job') then 1 else 0) - (if Counted(job) then 1 else 0)
  {
    PullStage(s, job, choice);
    hide Absorb;
  }

  lemma PullStage(s: Shared, job: Job, choice: Choice)
    requires StageOk(job) && job.pc.Streaming?
    ensures StageOk(Pull(s, job, job.turn.value, choice).1)
  {
  }

  predicate BeforeStream(pc: Pc) {
    pc.Spawned? || pc.Opening? || pc.OpenFailed? || pc.SendFailed? || pc.StoppingCommit? || pc.Failing?
  }

  lemma EarlyStage(s: Shared, job: Job, choice: Choice)
    requires StageOk(job) && CanStep(s, job) && BeforeStream(job.pc)
    ensures StageOk(Section(s, job, choice).1)
  {
  }

  predicate Committing(pc: Pc) {
    pc.Finalizing? || pc.PartialCommit?
  }

  lemma CommitStage(s: Shared, job: Job, choice: Choice)
    requires StageOk(job) && CanStep(s, job) && Committing(job.pc)
    ensures StageOk(Section(s, job, choice).1)
  {
    hide CommitTo, Record, Pull, CommitStopped, Acquire, Open, Judge, GiveUp, Answer;
  }

  lemma LateStage(s: Shared, job: Job, choice: Choice)
    requires StageOk(job) && CanStep(s, job) && !BeforeStream(job.pc) && !job.pc.Streaming? && !Committing(job.pc)
    ensures StageOk(Section(s, job, choice).1)
  {
    hide CommitTo, Record, Pull, CommitStopped, Acquire, Open, FinalizeWhole, FinalizePartial;
  }

  lemma SectionStage(s: Shared, job: Job, choice: Choice)
    requires StageOk(job) && CanStep(s, job)
    ensures StageOk(Section(s, job, choice).1)
  {
    if job.pc.Streaming? {
      PullQuiet(s, job, choice);
    } else if BeforeStream(job.pc) {
      EarlyStage(s, job, choice);
    } else if Committing(job.pc) {
      CommitStage(s, job, choice);
    } else {
      LateStage(s, job, choice);
    }
  }

  lemma PullSays(s: Shared, job: Job, choice: Choice)
    requires job.pc.Streaming? && job.turn.Some?
    ensures var (_, job', said) := Pull(s, job, job.turn.value, choice);
            job'.net == job.net && (said.Some? ==> said.value.EmitOne? && !IsTerminal(said.value.payload))
  {
    hide Record, Absorb;
  }

  /** What a section may say: nothing, one ordinary event, or the terminal one. */
  lemma SectionSays(s: Shared, job: Job, choice: Choice)
    requires CanStep(s, job)
    ensures var (_, job', said) := Section(s, job, choice);
            && job'.net == job.net
            && (said.Some? <== job.pc.Announce? || job.pc.Finishing?)
            && (said.Some? ==>
                  || (job.pc.Streaming? && said.value.EmitOne? && !IsTerminal(said.value.payload))
                  || (job.pc.Announce? && said.value == Delivery.EmitLast(job.pc.payload))
                  || (job.pc.Finishing? && said.value == Delivery.FinishJob))
  {
    hide CommitTo, Record, ReplaceFromIndex, Judge, Pull, IsTerminal;
    if job.pc.Streaming? {
      PullSays(s, job, choice);
    }
  }

  /** Whatever a section makes the job about to announce is true of what the job has written. */
  lemma SectionVerdict(s: Shared, job: Job, choice: Choice)
    requires StageOk(job) && VerdictOk(job) && CanStep(s, job)
    ensures VerdictOk(Section(s, job, choice).1)
  {
    if job.pc.Streaming? {
      PullQuiet(s, job, choice);
    }
  }

  lemma SectionEnds(s: Shared, job: Job, choice: Choice)
    requires CanStep(s, job) && StageOk(job)
    ensures var job' := Section(s, job, choice).1;
            && (job.pc.Announce? || Ended(job.pc) ==> job'.commits == job.commits)
            && (Ended(job'.pc) <==> job.pc.Announce? || Ended(job.pc))
  {
    if job.pc.Streaming? {
      PullQuiet(s, job, choice);
    }
  }

  lemma JobStepLogOk(s: Shared, job: Job, choice: Choice)
    requires JobOk(job) && CanStep(s, job)
    ensures LogOk(JobStep(s, job, choice).1)
  {
    SectionSays(s, job, choice);
    SectionVerdict(s, job, choice);
    SectionEnds(s, job, choice);
    var said := Section(s, job, choice).2;
    if said.Some? {
      Delivery.StepSound(job.net, said.value);
    }
  }

  lemma StoppedTurn(s: Shared, job: Job, choice: Choice)
    requires job.pc.StoppingCommit? && TurnOk(job) && job.commits == [] && SharedOk(s)
    ensures TurnOk(CommitStopped(s, job, choice).1) && SharedOk(CommitStopped(s, job, choice).0)
  {
    hide SharedOk, Stored, ReplaceFromIndex;
    var answer := Message(Assistant, [], None);
    if ReplaceFromIndex(s.messages, job.replaceFrom).Success? {
      CommitToOk(s, job.replaceFrom, PromptOf(job), answer);
    }
  }

  lemma RequestThenAnswer(s: Shared, job: Job, answer: Message)
    requires Bound(s, job) && !Ended(job.pc) && TurnOk(job) && Owner(job) && SharedOk(s) && answer.role == Assistant
    ensures var turn := job.turn.value;
            && (turn.replaceTail ==> turn.keep <= |s.messages|)
            && SharedOk(CommitTo(s, turn.replaceTail, turn.keep, turn.user, answer))
            && Extended(s.messages, turn.replaceTail, turn.keep, turn.user, answer) == turn.request + [answer]
  {
    var turn := job.turn.value;
    assert turn.keep <= |s.messages|;
    assert turn.replaceTail || s.messages[..turn.keep] == s.messages;
    CommitToOk(s, job.replaceFrom, PromptOf(job), answer);
  }

  lemma WholeTurn(s: Shared, job: Job, responseId: string, choice: Choice)
    requires Owner(job) && !Ended(job.pc) && TurnOk(job) && job.commits == [] && SharedOk(s) && Bound(s, job)
    requires job.turn.value.completed && (job.turn.value.replaceTail ==> job.turn.value.keep <= |s.messages|)
    ensures var (s', job') := FinalizeWhole(s, job, job.turn.value, responseId, choice); TurnOk(job') && SharedOk(s')
  {
    hide SharedOk, Stored;
    var turn := job.turn.value;
    var answer := Answer(turn.(completedAt := if turn.completedAt == None then Some(choice.now) else turn.completedAt));
    RequestThenAnswer(s, job, answer);
    SameTranscript(s, FinalizeWhole(s, job, turn, responseId, choice).0);
    SameTranscript(CommitTo(s, turn.replaceTail, turn.keep, turn.user, answer), FinalizeWhole(s, job, turn, responseId, choice).0);
  }

  lemma PartialTurn(s: Shared, job: Job, choice: Choice)
    requires job.turn.Some? && !Ended(job.pc) && TurnOk(job) && job.commits == [] && SharedOk(s) && Bound(s, job)
    requires Owner(job) ==> !job.turn.value.completed && (job.turn.value.replaceTail ==> job.turn.value.keep <= |s.messages|)
    ensures var (s', job') := FinalizePartial(s, job, job.turn.value, choice); TurnOk(job') && SharedOk(s')
  {
    if Owner(job) {
      RequestThenAnswer(s, job, Answer(job.turn.value));
    }
  }

  lemma CommitsCarry(job: Job, job': Job)
    requires TurnOk(job) && job'.commits == job.commits && job'.prompt == job.prompt && job'.replaceFrom == job.replaceFrom
    requires job'.turn.Some? ==> job'.turn.value.user == PromptOf(job) && job'.turn.value.replaceTail == job.replaceFrom.Some?
    requires job.commits == [] || (job.turn.Some? <==> job'.turn.Some?)
    requires job.commits == [] || (job.turn.Some? ==> job'.turn.value.request == job.turn.value.request && job'.turn.value.parts == job.turn.value.parts)
    ensures TurnOk(job')
  {
    forall i | 0 <= i < |job.commits|
      ensures CommitOk(job', job.commits[i])
    {
      assert CommitOk(job, job.commits[i]);
    }
  }

  lemma QuietTurn(s: Shared, job: Job, choice: Choice)
    requires TurnOk(job) && StageOk(job) && VerdictOk(job) && CanStep(s, job) && SharedOk(s)
    requires !job.pc.StoppingCommit? && !job.pc.Finalizing? && !job.pc.PartialCommit?
    ensures TurnOk(Section(s, job, choice).1) && SharedOk(Section(s, job, choice).0)
  {
    hide SharedOk, TurnOk, Section, StageOk, VerdictOk, CanStep;
    var (s', job', _) := Section(s, job, choice);
    TurnBelongs(job);
    QuietJob(s, job, choice);
    SectionEffect(s, job, choice);
    SameTranscript(s, s');
    CommitsCarry(job, job');
  }

  /** The job's writes, and the turn they came from, are left alone. */
  predicate SameWrites(job: Job, job': Job) {
    && job'.commits == job.commits && job'.prompt == job.prompt && job'.replaceFrom == job.replaceFrom
    && (job'.turn.Some? ==> job'.turn.value.user == PromptOf(job) && job'.turn.value.replaceTail == job.replaceFrom.Some?)
    && (job.commits == [] || (job.turn.Some? <==> job'.turn.Some?))
    && (job.commits == [] || (job.turn.Some? ==> job'.turn.value.request == job.turn.value.request && job'.turn.value.parts == job.turn.value.parts))
  }

  lemma QuietEarly(s: Shared, job: Job, choice: Choice)
    requires StageOk(job) && VerdictOk(job) && CanStep(s, job) && BeforeStream(job.pc) && !job.pc.StoppingCommit?
    requires job.turn.Some? ==> job.turn.value.user == PromptOf(job) && job.turn.value.replaceTail == job.replaceFrom.Some?
    ensures SameWrites(job, Section(s, job, choice).1)
  {
    hide CommitStopped, FinalizeWhole, FinalizePartial, Judge, Record, Pull, GiveUp, ReplaceFromIndex;
  }

  lemma QuietLate(s: Shared, job: Job, choice: Choice)
    requires CanStep(s, job) && !BeforeStream(job.pc) && !job.pc.Streaming? && !Committing(job.pc)
    requires job.turn.Some? ==> job.turn.value.user == PromptOf(job) && job.turn.value.replaceTail == job.replaceFrom.Some?
    ensures SameWrites(job, Section(s, job, choice).1)
  {
    hide CommitStopped, FinalizeWhole, FinalizePartial, Judge, Record, Pull, Acquire, Open;
  }

  /** Sections that write nothing leave the job's writes, and the turn they came from, alone. */
  lemma QuietJob(s: Shared, job: Job, choice: Choice)
    requires StageOk(job) && VerdictOk(job) && CanStep(s, job) && !job.pc.StoppingCommit? && !Committing(job.pc)
    requires job.turn.Some? ==> job.turn.value.user == PromptOf(job) && job.turn.value.replaceTail == job.replaceFrom.Some?
    ensures SameWrites(job, Section(s, job, choice).1)
  {
    hide CommitStopped, FinalizeWhole, FinalizePartial, Judge, Record, Pull, Acquire, Open, GiveUp;
    if job.pc.Streaming? {
      PullQuiet(s, job, choice);
    } else if BeforeStream(job.pc) {
      QuietEarly(s, job, choice);
    } else {
      QuietLate(s, job, choice);
    }
  }

  lemma TurnBelongs(job: Job)
    requires TurnOk(job)
    ensures job.turn.Some? ==> job.turn.value.user == PromptOf(job) && job.turn.value.replaceTail == job.replaceFrom.Some?
  {
  }

  lemma SameTranscript(s: Shared, s': Shared)
    requires SharedOk(s)
    ensures s'.messages == s.messages && s'.table == s.table && s'.conversation == s.conversation ==> SharedOk(s')
  {
  }

  /** Every write is the job's own turn on top of what it sent; nothing else changes the transcript. */
  lemma SectionTurn(s: Shared, job: Job, choice: Choice)
    requires StageOk(job) && VerdictOk(job) && TurnOk(job) && Bound(s, job) && CanStep(s, job) && SharedOk(s)
    ensures TurnOk(Section(s, job, choice).1) && SharedOk(Section(s, job, choice).0)
  {
    match job.pc
    case StoppingCommit => StoppedTurn(s, job, choice);
    case Finalizing(responseId) => WholeTurn(s, job, responseId, choice);
    case PartialCommit => PartialTurn(s, job, choice);
    case _ => QuietTurn(s, job, choice);
  }

  /** What a section does to the transcript and to the ownership of the turn. */
  ghost predicate Effect(s: Shared, job: Job, s': Shared, job': Job) {
    && s'.conversation == s.conversation
    && (s'.table.Some? <==> s.table.Some?)
    && (if job'.commits == job.commits then s'.messages == s.messages && s'.table == s.table
        else !Ended(job.pc) && job.commits == [] && |job'.commits| == 1
             && job'.commits[0].before == s.messages && job'.commits[0].after == s'.messages)
    && (Owner(job) && !Owner(job') ==> !s'.inFlight)
    && (!Owner(job) && Owner(job') ==> job.pc.Spawned? && s'.inFlight && !s.inFlight)
    && (Owner(job) && Owner(job') ==> s'.inFlight == s.inFlight)
    && (s'.inFlight && !s.inFlight ==> Owner(job'))
    && (s.inFlight && !s'.inFlight ==> Owner(job) || job.pc.StoppingCommit?)
    && (job'.refused && !job.refused ==> job.pc.Spawned? && s.inFlight)
    && (job.partialFailed ==> job'.partialFailed)
    && (job.pc.Closing? && !Owner(job) ==> s'.messages == s.messages && s'.inFlight == s.inFlight && s'.table == s.table)
    && (Ended(job.pc) ==> s'.messages == s.messages && s'.table == s.table)
    && (s'.inFlight == s.inFlight || !Ended(job.pc) || Owner(job))
  }

  lemma EarlyEffect(s: Shared, job: Job, choice: Choice)
    requires StageOk(job) && VerdictOk(job) && CanStep(s, job) && BeforeStream(job.pc)
    ensures var (s', job', _) := Section(s, job, choice); Effect(s, job, s', job')
  {
  }

  lemma LateEffect(s: Shared, job: Job, choice: Choice)
    requires StageOk(job) && VerdictOk(job) && CanStep(s, job) && !BeforeStream(job.pc) && !job.pc.Streaming?
    ensures var (s', job', _) := Section(s, job, choice); Effect(s, job, s', job')
  {
    hide Extended, Committed, Pull, CommitStopped, Acquire, Open, Judge, Answer;
  }

  lemma SectionEffect(s: Shared, job: Job, choice: Choice)
    requires StageOk(job) && VerdictOk(job) && CanStep(s, job)
    ensures var (s', job', _) := Section(s, job, choice); Effect(s, job, s', job')
  {
    if job.pc.Streaming? {
      PullQuiet(s, job, choice);
    } else if BeforeStream(job.pc) {
      EarlyEffect(s, job, choice);
    } else {
      LateEffect(s, job, choice);
    }
  }

  lemma SectionBound(s: Shared, job: Job, choice: Choice)
    requires StageOk(job) && VerdictOk(job) && Bound(s, job) && CanStep(s, job)
    ensures var (s', job', _) := Section(s, job, choice); Bound(s', job')
  {
    hide Pull, CommitTo, ReplaceFromIndex, Extended, Answer, Judge;
    if job.pc.Streaming? {
      PullQuiet(s, job, choice);
    }
  }

  lemma SectionMeter(s: Shared, job: Job, choice: Choice)
    requires StageOk(job) && CanStep(s, job)
    ensures var (s', job', _) := Section(s, job, choice);
            Balance(s') - Balance(s) == (if Counted(job') then 1 else 0) - (if Counted(job) then 1 else 0)
  {
    if job.pc.Streaming? {
      PullQuiet(s, job, choice);
    }
  }
}
