/**
 Turns end to end: the goroutines of all jobs of one browser session, interleaved with each other, with
 aborts and with readers, over one chat session and its stored conversation.
 */
module Turns {
  import opened Accumulator
  import opened Chat
  import opened Llm
  import opened Storage
  import opened Strings
  import opened TurnLog
  import opened Wrappers
  import Delivery

  // ---------- state ----------

  /** What the jobs share: the chat session, the table behind it and the turn counters. */
  datatype Shared = Shared(
    messages: seq<Message>, inFlight: bool, table: Option<Table>, conversation: int,
    started: nat, completed: nat, cancelled: nat, failed: nat)

  /** A turn stream. A turn whose stream failed to open is kept as given up. `request` is what was sent upstream. */
  datatype Turn = Turn(
    user: Message, keep: nat, replaceTail: bool, request: seq<Message>,
    parts: seq<Part>, completedAt: Option<nat>, completed: bool, finalized: bool, recorded: bool)

  /** Where a job's goroutine is: each value names the section it runs next. */
  datatype Pc =
    | Spawned
    | Opening
    | OpenFailed(cause: Cause)
    | SendFailed(cause: Cause)
    | StoppingCommit
    | Failing(cause: Cause)
    | Streaming
    | Finalizing(responseId: string)
    | Releasing(cause: Cause)
    | NextFailed(cause: Cause)
    | PartialCommit
    | Announce(payload: Payload)
    | Closing
    | Finishing
    | Finished

  datatype CommitKind = Whole | Partial | Stopped

  /** One write of the transcript, recorded as it happens. */
  datatype Commit = Commit(kind: CommitKind, before: seq<Message>, after: seq<Message>, answer: Message)

  datatype Job = Job(
    prompt: string, replaceFrom: Option<int>, pc: Pc, turn: Option<Turn>, streamOpen: bool,
    parts: seq<Part>, markdown: string, net: Delivery.Net,
    commits: seq<Commit>, refused: bool, partialFailed: bool)

  datatype World = World(shared: Shared, jobs: seq<Job>)

  /** Everything the environment decides in one section. */
  datatype Choice = Choice(upstream: Upstream, openFailure: Option<Cause>, fault: bool, now: nat)

  /** Upstream cancels; nothing fails. */
  const CANCELLED := Choice(Broken(Canceled), None, false, 0)

  datatype Action =
    | Admit(prompt: string, replaceFrom: Option<int>)
    | Advance(i: nat, choice: Choice)
    | Reader(i: nat, action: Delivery.Action)

  function PromptOf(job: Job): Message {
    TextMessage(User, job.prompt)
  }

  function NewJob(prompt: string, replaceFrom: Option<int>): Job {
    Job(prompt, replaceFrom, Spawned, None, false, [], "", Delivery.EMPTY_NET, [], false, false)
  }

  // ---------- sections ----------

  /** A section changes the shared state and the job, and may have something to put in the job's log. */
  type Outcome = (Shared, Job, Option<Delivery.Action>)

  predicate WriteFails(s: Shared, fault: bool) {
    s.table.Some? && fault
  }

  function CommitTo(s: Shared, replaceTail: bool, keep: nat, user: Message, assistant: Message): Shared
    requires replaceTail ==> keep <= |s.messages|
  {
    s.(
    messages := Extended(s.messages, replaceTail, keep, user, assistant),
    inFlight := false,
    table := Stored(s.table, s.conversation, replaceTail, keep, user, assistant))
  }

  predicate AbortRequested(job: Job) {
    job.net.log.abortRequested
  }

  /** The section of `Send` that takes the turn. */
  function Acquire(s: Shared, job: Job): (Shared, Job) {
    if job.prompt == "" then (s, job.(pc := SendFailed(EmptyPrompt)))
    else if s.inFlight then (s, job.(pc := SendFailed(TurnInProgress), refused := true))
    else match ReplaceFromIndex(s.messages, job.replaceFrom)
         case Failure(cause) => (s, job.(pc := SendFailed(cause)))
         case Success(keep) =>
           (s.(inFlight := true),
            job.(pc := Opening,
                 turn := Some(Turn(PromptOf(job), keep, job.replaceFrom.Some?, s.messages[..keep] + [PromptOf(job)], [], None, false, false, false))))
  }

  function Open(s: Shared, job: Job, choice: Choice): (Shared, Job) {
    var s' := s.(started := s.started + 1);
    match choice.openFailure
    case None => (s', job.(pc := Streaming, streamOpen := true))
    case Some(cause) => (s', job.(pc := OpenFailed(cause)))
  }

  /** `CommitStopped`, for a job that was aborted before its stream opened. */
  function CommitStopped(s: Shared, job: Job, choice: Choice): (Shared, Job) {
    match ReplaceFromIndex(s.messages, job.replaceFrom)
    case Failure(_) => (s, job.(pc := Announce(StreamError)))
    case Success(keep) =>
      if job.prompt == "" || WriteFails(s, choice.fault) then (s, job.(pc := Announce(StreamError)))
      else
        var answer := Message(Assistant, [], None);
        var s' := CommitTo(s, job.replaceFrom.Some?, keep, PromptOf(job), answer);
        (s', job.(pc := Announce(Aborted), commits := job.commits + [Commit(Stopped, s.messages, s'.messages, answer)]))
  }

  /** One `Next` of the stream and what `run` does with its event. */
  function Pull(s: Shared, job: Job, turn: Turn, choice: Choice): Outcome {
    match choice.upstream
    case Broken(cause) =>
      var s' := Record(s, turn, cause);
      var job' := job.(turn := Some(turn.(recorded := true)));
      (s', job'.(pc := if cause == Canceled then NextFailed(cause) else Releasing(cause)), None)
    case Item(event) =>
      var job' := job.(turn := Some(turn.(parts := Absorb(turn.parts, event))), parts := Absorb(job.parts, event));
      match event
      case ReasoningDelta(delta) => (s, job', Some(Delivery.EmitOne(Payload.ReasoningDelta(delta))))
      case TextDelta(delta) =>
        if delta == "" then (s, job', None)
        else (s, job'.(markdown := job.markdown + delta), Some(Delivery.EmitOne(Preview(job.markdown + delta))))
      case OutputItemDone(_) => (s, job', None)
      case Completed(responseId) => (s, job'.(turn := Some(turn.(completed := true)), pc := Finalizing(responseId)), None)
      case ErrorEvent(cause) =>
        if cause == None then (s, job', None)
        else (Record(s, turn, Other), job'.(turn := Some(turn.(recorded := true)), pc := Releasing(cause.value)), None)
      case Unrecognized => (s, job', None)
  }

  /** The counter a failing stream goes to, once. */
  function Record(s: Shared, turn: Turn, cause: Cause): Shared {
    if turn.recorded then s
    else if cause == Canceled then s.(cancelled := s.cancelled + 1)
    else s.(failed := s.failed + 1)
  }

  function Answer(turn: Turn): Message {
    Message(Assistant, turn.parts, if turn.completed then turn.completedAt else None)
  }

  /** `finalize` on completion, a no-op on a stream that is already finalized. */
  function FinalizeWhole(s: Shared, job: Job, turn: Turn, responseId: string, choice: Choice): (Shared, Job)
    requires !turn.finalized && turn.replaceTail ==> turn.keep <= |s.messages|
  {
    var once := if turn.recorded then 0 else 1;
    var stamped := turn.(completedAt := if turn.completedAt == None then Some(choice.now) else turn.completedAt);
    if turn.finalized then
      (s.(completed := s.completed + once),
       job.(turn := Some(turn.(recorded := true)), pc := Announce(Done(job.parts, responseId, turn.completedAt))))
    else if WriteFails(s, choice.fault) then
      (Record(s, turn, WriteFailed), job.(turn := Some(stamped.(recorded := true)), pc := Releasing(WriteFailed)))
    else
      var s' := CommitTo(s, turn.replaceTail, turn.keep, turn.user, Answer(stamped));
      (s'.(completed := s.completed + once),
       job.(turn := Some(stamped.(finalized := true, recorded := true)),
            pc := Announce(Done(job.parts, responseId, stamped.completedAt)),
            commits := job.commits + [Commit(Whole, s.messages, s'.messages, Answer(stamped))]))
  }

  /** `CommitPartial`, a no-op on a stream that is already finalized. */
  function FinalizePartial(s: Shared, job: Job, turn: Turn, choice: Choice): (Shared, Job)
    requires !turn.finalized && turn.replaceTail ==> turn.keep <= |s.messages|
  {
    if turn.finalized then (s, job.(pc := Announce(Aborted)))
    else if WriteFails(s, choice.fault) then (s, job.(pc := Announce(StreamError), partialFailed := true))
    else
      var s' := CommitTo(s, turn.replaceTail, turn.keep, turn.user, Answer(turn));
      (s', job.(turn := Some(turn.(finalized := true)), pc := Announce(Aborted),
                commits := job.commits + [Commit(Partial, s.messages, s'.messages, Answer(turn))]))
  }

  /** `TurnStream.abort` */
  function GiveUp(s: Shared, turn: Turn): (Shared, Turn) {
    if turn.finalized then (s, turn) else (s.(inFlight := false), turn.(finalized := true))
  }

  /** `run` after `Next` failed: partial commit, or an error to announce. */
  function Judge(job: Job, cause: Cause): Pc {
    if cause == Eof then if AbortRequested(job) then PartialCommit else Failing(UnexpectedEof)
    else if AbortRequested(job) || cause == Canceled then PartialCommit
    else Failing(cause)
  }

  function Silently(result: (Shared, Job)): Outcome {
    (result.0, result.1, None)
  }

  /** The section a job's goroutine runs next. */
  function Section(s: Shared, job: Job, choice: Choice): Outcome
    requires CanStep(s, job)
  {
    match job.pc
    case Spawned => Silently(Acquire(s, job))
    case Opening => Silently(Open(s, job, choice))
    case OpenFailed(cause) =>
      (s.(inFlight := false, failed := s.failed + 1),
       job.(pc := SendFailed(cause), turn := Some(job.turn.value.(finalized := true, recorded := true))),
       None)
    case SendFailed(cause) =>
      (s, job.(pc := if AbortRequested(job) || cause == Canceled then StoppingCommit else Failing(cause)), None)
    case StoppingCommit => Silently(CommitStopped(s, job, choice))
    case Failing(cause) =>
      (s, job.(pc := Announce(if AbortRequested(job) || cause == Canceled then Aborted else StreamError)), None)
    case Streaming => Pull(s, job, job.turn.value, choice)
    case Finalizing(responseId) => Silently(FinalizeWhole(s, job, job.turn.value, responseId, choice))
    case Releasing(cause) =>
      var (s', turn') := GiveUp(s, job.turn.value);
      (s', job.(turn := Some(turn'), pc := NextFailed(cause)), None)
    case NextFailed(cause) => (s, job.(pc := Judge(job, cause)), None)
    case PartialCommit => Silently(FinalizePartial(s, job, job.turn.value, choice))
    case Announce(payload) =>
      (s, job.(pc := if job.streamOpen then Closing else Finishing), Some(Delivery.EmitLast(payload)))
    case Closing =>
      var turn := job.turn.value;
      var recorded := if turn.completed then s else Record(s, turn, Canceled);
      var (s', turn') := GiveUp(recorded, turn);
      (s', job.(turn := Some(turn'.(recorded := turn.recorded || !turn.completed)), pc := Finishing), None)
    case Finishing => (s, job.(pc := Finished), Some(Delivery.FinishJob))
    case Finished => (s, job, None)
  }

  /** A section and its entry in the log. */
  function JobStep(s: Shared, job: Job, choice: Choice): (Shared, Job)
    requires CanStep(s, job)
  {
    var (s', job', said) := Section(s, job, choice);
    (s', if said.Some? then job'.(net := Delivery.Step(job.net, said.value)) else job')
  }

  /** The turn a section works on exists and its index is within the transcript. */
  predicate CanStep(s: Shared, job: Job) {
    && (job.pc.OpenFailed? || job.pc.Streaming? || job.pc.Finalizing? || job.pc.Releasing? || job.pc.PartialCommit? || job.pc.Closing?
        ==> job.turn.Some?)
    && (job.turn.Some? && !job.turn.value.finalized && job.turn.value.replaceTail && (job.pc.Finalizing? || job.pc.PartialCommit?)
        ==> job.turn.value.keep <= |s.messages|)
  }

  /** Readers and aborts: what others do to a job's log. */
  predicate FromOutside(action: Delivery.Action) {
    action.AbortJob? || action.NewClient? || action.Connect? || action.Deliver? || action.Disconnect? || action.WriteInVain? || action.Leave?
  }

  predicate Terminal(job: Job) {
    job.net.log.terminal
  }

  /** `handleCreateTurn` admits a job when every earlier one is terminal; its index was checked against an earlier transcript. */
  function Step(w: World, action: Action): World {
    match action
    case Admit(prompt, replaceFrom) =>
      if TrimSpace(prompt) == "" || exists i | 0 <= i < |w.jobs| :: !Terminal(w.jobs[i]) then w
      else w.(jobs := w.jobs + [NewJob(TrimSpace(prompt), replaceFrom)])
    case Advance(i, choice) =>
      if i >= |w.jobs| || !CanStep(w.shared, w.jobs[i]) then w
      else
        var (s', job') := JobStep(w.shared, w.jobs[i], choice);
        World(s', w.jobs[i := job'])
    case Reader(i, act) =>
      if i >= |w.jobs| || !FromOutside(act) then w
      else w.(jobs := w.jobs[i := w.jobs[i].(net := Delivery.Step(w.jobs[i].net, act))])
  }

  function Run(w: World, actions: seq<Action>): World {
    if actions == [] then w else Step(Run(w, actions[..|actions| - 1]), actions[|actions| - 1])
  }
}
