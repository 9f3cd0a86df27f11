/**
 The chat session's methods are the sections of the turn machine: each call changes the session, its table
 and the counters exactly as the machine's sections change the shared state and the turn, so what is proved
 of every run of the machine is proved of the methods.
 */
module Refinement {
  import opened Accumulator
  import opened Chat
  import opened Llm
  import opened Storage
  import opened Strings
  import opened Wrappers
  import opened TurnLog
  import M = Turns

  // ---------- what the machine sees of the objects ----------

  ghost function SharedOf(session: Session, meter: Meter): M.Shared
    reads session, session.Footprint(), meter
  {
    M.Shared(session.messages, session.inFlight, session.TableView(), session.conversation,
             meter.started, meter.completed, meter.cancelled, meter.failed)
  }

  ghost function TurnOf(stream: TurnStream, request: seq<Message>): M.Turn
    reads stream
  {
    M.Turn(stream.userMessage, stream.keepMessages, stream.replaceTail, request, stream.assistantParts,
           stream.completedAt, stream.completed, stream.finalized, stream.recorded)
  }

  /** The choice behind a call: whether its transaction meets the failing statement. */
  function ChoiceOf(upstream: Upstream, openFailure: Option<Cause>, statements: nat, fault: Option<nat>, now: nat): M.Choice {
    M.Choice(upstream, openFailure, fault.Some? && fault.value < statements, now)
  }

  function Statements(replaceTail: bool): nat {
    if replaceTail then 6 else 5
  }

  const QUIET := Item(Unrecognized)

  // ---------- opening ----------

  /** Taking the turn, and then opening the stream or giving the turn back. */
  function Sent(s: M.Shared, job: M.Job, choice: M.Choice): (M.Shared, M.Job) {
    var (s1, j1) := M.Acquire(s, job);
    if !j1.pc.Opening? then (s1, j1)
    else
      var (s2, j2) := M.Open(s1, j1, choice);
      if j2.pc.OpenFailed? && j2.turn.Some? then
        var (s3, j3, _) := M.Section(s2, j2, choice);
        (s3, j3)
      else (s2, j2)
  }

  /** Why `Send` fails, if it does. */
  function SendError(prompt: string, inFlight: bool, messages: seq<Message>, replaceFrom: Option<int>, openFailure: Option<Cause>): Option<Cause> {
    if TrimSpace(prompt) == "" then Some(EmptyPrompt)
    else if inFlight then Some(TurnInProgress)
    else
      match ReplaceFromIndex(messages, replaceFrom)
      case Failure(cause) => Some(cause)
      case Success(_) => openFailure
  }

  /** `Send` is the machine's opening sections. */
  method SendRuns(session: Session, meter: Meter, ghost job: M.Job, replaceFrom: Option<int>, openFailure: Option<Cause>, prompt: string)
    returns (r: Result<TurnStream, Cause>, ghost request: seq<Message>)
    requires job.pc.Spawned? && job.prompt == TrimSpace(prompt) && job.replaceFrom == replaceFrom
    modifies session, meter
    ensures var (s', job') := Sent(old(SharedOf(session, meter)), job, ChoiceOf(QUIET, openFailure, 0, None, 0));
            && SharedOf(session, meter) == s'
            && (r.Success? <==> job'.pc.Streaming?)
            && (r.Success? ==> fresh(r.value) && r.value.session == session && r.value.meter == meter && job'.turn == Some(TurnOf(r.value, request)))
            && (r.Failure? ==> job'.pc == M.SendFailed(r.error) && job'.streamOpen == job.streamOpen)
            && job'.net == job.net && job'.prompt == job.prompt && job'.replaceFrom == job.replaceFrom && job'.parts == job.parts
            && job'.markdown == job.markdown && (r.Success? ==> job'.streamOpen)
    ensures session.messages == old(session.messages) && (old(session.Valid()) ==> session.Valid())
    ensures SendError(prompt, old(session.inFlight), session.messages, replaceFrom, openFailure) == if r.Failure? then Some(r.error) else None
    ensures r.Failure? ==> session.inFlight == old(session.inFlight)
    ensures r.Success? ==> session.inFlight && !old(session.inFlight) && r.value.Opened(TrimSpace(prompt), replaceFrom)
    ensures old(meter.started) <= meter.started <= old(meter.started) + 1
    ensures meter.failed - old(meter.failed) + (if r.Success? then 1 else 0) == meter.started - old(meter.started)
    ensures meter.completed == old(meter.completed) && meter.cancelled == old(meter.cancelled)
    ensures old(session.inFlight) ==> meter.started == old(meter.started)
  {
    hide TrimSpace, ReplaceFromIndex;
    var sent;
    r, sent := session.Send(meter, prompt, replaceFrom, openFailure);
    request := sent;
  }

  // ---------- the stream ----------

  /** The machine's job while a stream is open. */
  ghost predicate Streams(stream: TurnStream, job: M.Job)
    reads stream
  {
    job.turn.Some? && job.turn == Some(TurnOf(stream, job.turn.value.request))
  }

  /** One event, with the commit or the giving up that goes with it. */
  function Pulled(s: M.Shared, job: M.Job, choice: M.Choice): (M.Shared, M.Job)
    requires job.pc.Streaming? && job.turn.Some? && InRange(s, job.turn.value)
  {
    var (s1, j1, _) := M.Pull(s, job, job.turn.value, choice);
    if j1.pc.Finalizing? then
      var (s2, j2) := M.FinalizeWhole(s1, j1, j1.turn.value, j1.pc.responseId, choice);
      Released(s2, j2)
    else Released(s1, j1)
  }

  predicate InRange(s: M.Shared, turn: M.Turn) {
    !turn.finalized && turn.replaceTail ==> turn.keep <= |s.messages|
  }

  function Released(s: M.Shared, job: M.Job): (M.Shared, M.Job) {
    if job.pc.Releasing? && job.turn.Some? then
      var (s', turn) := M.GiveUp(s, job.turn.value);
      (s', job.(turn := Some(turn), pc := M.NextFailed(job.pc.cause)))
    else (s, job)
  }

  /** A failure: counted once, and, unless it is a cancellation, the turn is given up if it is still owned. */
  function Failed(s: M.Shared, turn: M.Turn, cancelled: bool): M.Shared {
    var once := if turn.recorded then 0 else 1;
    if cancelled then s.(cancelled := s.cancelled + once)
    else s.(failed := s.failed + once, inFlight := s.inFlight && turn.finalized)
  }

  lemma PulledBroken(s: M.Shared, job: M.Job, choice: M.Choice)
    requires job.pc.Streaming? && job.turn.Some? && InRange(s, job.turn.value)
    requires choice.upstream.Broken?
    ensures var (s', job') := Pulled(s, job, choice);
            var cause, turn := choice.upstream.cause, job.turn.value;
            && job'.turn == Some(turn.(recorded := true, finalized := turn.finalized || cause != Canceled))
            && job'.pc == M.NextFailed(cause)
            && s' == Failed(s, turn, cause == Canceled)
  {
    hide Absorb;
  }

  lemma PulledEvent(s: M.Shared, job: M.Job, choice: M.Choice)
    requires job.pc.Streaming? && job.turn.Some? && InRange(s, job.turn.value)
    requires choice.upstream.Item? && !choice.upstream.event.Completed?
    ensures var (s', job') := Pulled(s, job, choice);
            var event, turn := choice.upstream.event, job.turn.value.(parts := Absorb(job.turn.value.parts, choice.upstream.event));
            if event.ErrorEvent? && event.cause.Some? then
              && s' == Failed(s, turn, false)
              && job'.turn == Some(turn.(recorded := true, finalized := true)) && job'.pc == M.NextFailed(event.cause.value)
            else s' == s && job'.turn == Some(turn) && job'.pc.Streaming?
  {
    hide M.FinalizeWhole;
  }

  lemma PulledCompletion(s: M.Shared, job: M.Job, choice: M.Choice)
    requires job.pc.Streaming? && job.turn.Some? && InRange(s, job.turn.value) && choice.upstream.IsCompletion()
    ensures var (s', job') := Pulled(s, job, choice);
            var turn := job.turn.value.(parts := Absorb(job.turn.value.parts, choice.upstream.event), completed := true);
            var time := if turn.finalized || turn.completedAt.Some? then turn.completedAt else Some(choice.now);
            var counted := s.completed + if turn.recorded then 0 else 1;
            && job'.turn == Some(turn.(completedAt := time, recorded := true, finalized := true))
            && (if turn.finalized then s' == s.(completed := counted) && job'.pc.Announce?
                else if M.WriteFails(s, choice.fault) then s' == Failed(s, turn, false) && job'.pc == M.NextFailed(WriteFailed)
                else s' == M.CommitTo(s, turn.replaceTail, turn.keep, turn.user, Message(Assistant, turn.parts, time)).(completed := counted)
                     && job'.pc == M.Announce(Done(Absorb(job.parts, choice.upstream.event), choice.upstream.event.responseId, time)))
  {
    hide Extended, Stored;
  }

  function NextChoice(stream: TurnStream, upstream: Upstream, fault: Option<nat>, now: nat): M.Choice {
    ChoiceOf(upstream, None, Statements(stream.replaceTail), fault, now)
  }

  /** The objects are where the machine's pull leads from `s` and `job`, and the result is its verdict. */
  ghost predicate Follows(stream: TurnStream, s: M.Shared, job: M.Job, choice: M.Choice, r: Result<Event, Cause>)
    requires job.pc.Streaming? && job.turn.Some? && InRange(s, job.turn.value)
    reads stream, stream.Footprint(), stream.session
  {
    var (s', job') := Pulled(s, job, choice);
    && SharedOf(stream.session, stream.meter) == s'
    && Streams(stream, job')
    && (if r.Failure? then job'.pc == M.NextFailed(r.error) else !job'.pc.NextFailed?)
  }

  method BrokenRuns(stream: TurnStream, ghost job: M.Job, upstream: Upstream, fault: Option<nat>, now: nat) returns (r: Result<Event, Cause>)
    requires stream.Valid() && job.pc.Streaming? && Streams(stream, job) && upstream.Broken?
    modifies stream.Footprint()
    ensures r.Success? ==> upstream == Item(r.value)
    ensures stream.Valid() && Follows(stream, old(SharedOf(stream.session, stream.meter)), job, NextChoice(stream, upstream, fault, now), r)
  {
    hide Pulled, Extended, Stored, Holds;
    PulledBroken(SharedOf(stream.session, stream.meter), job, NextChoice(stream, upstream, fault, now));
    r := stream.Next(upstream, fault, now);
  }

  method EventRuns(stream: TurnStream, ghost job: M.Job, upstream: Upstream, fault: Option<nat>, now: nat) returns (r: Result<Event, Cause>)
    requires stream.Valid() && job.pc.Streaming? && Streams(stream, job) && upstream.Item? && !upstream.event.Completed?
    modifies stream.Footprint()
    ensures r.Success? ==> upstream == Item(r.value)
    ensures stream.Valid() && Follows(stream, old(SharedOf(stream.session, stream.meter)), job, NextChoice(stream, upstream, fault, now), r)
  {
    hide Pulled, Absorb, Extended, Stored, Holds;
    PulledEvent(SharedOf(stream.session, stream.meter), job, NextChoice(stream, upstream, fault, now));
    r := stream.Next(upstream, fault, now);
  }

  method CompletionRuns(stream: TurnStream, ghost job: M.Job, upstream: Upstream, fault: Option<nat>, now: nat) returns (r: Result<Event, Cause>)
    requires stream.Valid() && job.pc.Streaming? && Streams(stream, job) && upstream.IsCompletion()
    modifies stream.Footprint()
    ensures r.Success? ==> upstream == Item(r.value)
    ensures stream.Valid() && Follows(stream, old(SharedOf(stream.session, stream.meter)), job, NextChoice(stream, upstream, fault, now), r)
  {
    hide Pulled, Absorb, Extended, Stored, Holds;
    CompletedAbsorbs(stream.assistantParts, upstream.event.responseId);
    PulledCompletion(SharedOf(stream.session, stream.meter), job, NextChoice(stream, upstream, fault, now));
    r := stream.Next(upstream, fault, now);
  }

  /** `Next` is the machine's pull, and after it the whole commit or the release. */
  method NextRuns(stream: TurnStream, ghost job: M.Job, upstream: Upstream, fault: Option<nat>, now: nat) returns (r: Result<Event, Cause>)
    requires stream.Valid() && job.pc.Streaming? && Streams(stream, job)
    modifies stream.Footprint()
    ensures r.Success? ==> upstream == Item(r.value)
    ensures stream.Valid() && Follows(stream, old(SharedOf(stream.session, stream.meter)), job, NextChoice(stream, upstream, fault, now), r)
  {
    hide Follows, Streams, Holds;
    if upstream.Broken? {
      r := BrokenRuns(stream, job, upstream, fault, now);
    } else if upstream.IsCompletion() {
      r := CompletionRuns(stream, job, upstream, fault, now);
    } else {
      r := EventRuns(stream, job, upstream, fault, now);
    }
  }

  /** `CommitPartial` is the machine's partial commit. */
  method CommitPartialRuns(stream: TurnStream, ghost job: M.Job, fault: Option<nat>, now: nat) returns (err: Option<Cause>)
    requires stream.Valid() && (!stream.finalized ==> !stream.completed) && Streams(stream, job)
    modifies stream`completedAt, stream`finalized, stream.session.Footprint()
    ensures var (s', job') := M.FinalizePartial(old(SharedOf(stream.session, stream.meter)), job, job.turn.value,
                                                ChoiceOf(QUIET, None, Statements(stream.replaceTail), fault, now));
            && SharedOf(stream.session, stream.meter) == s'
            && Streams(stream, job')
            && job'.pc == M.Announce(if err.Some? then StreamError else Aborted)
    ensures stream.Valid()
  {
    hide Extended, Stored;
    err := stream.CommitPartial(fault, now);
  }

  /** `Close` is the machine's closing section. */
  method CloseRuns(stream: TurnStream, ghost job: M.Job)
    requires stream.Valid() && (stream.completed ==> stream.recorded) && job.pc.Closing? && Streams(stream, job)
    modifies stream.Footprint()
    ensures var s := old(SharedOf(stream.session, stream.meter));
            && M.CanStep(s, job)
            && SharedOf(stream.session, stream.meter) == M.Section(s, job, M.Choice(QUIET, None, false, 0)).0
            && Streams(stream, M.Section(s, job, M.Choice(QUIET, None, false, 0)).1)
    ensures stream.session.Valid() && stream.session.messages == old(stream.session.messages)
    ensures stream.session.inFlight == (old(stream.session.inFlight) && old(stream.finalized))
  {
    stream.Close();
  }

  /** `CommitStopped` is the machine's commit of a stopped prompt. */
  method CommitStoppedRuns(session: Session, meter: Meter, ghost job: M.Job, prompt: string, replaceFrom: Option<int>, fault: Option<nat>)
    returns (err: Option<Cause>)
    requires session.Valid()
    requires job.prompt == TrimSpace(prompt) && job.replaceFrom == replaceFrom
    modifies session.Footprint()
    ensures var (s', job') := M.CommitStopped(old(SharedOf(session, meter)), job, ChoiceOf(QUIET, None, Statements(replaceFrom.Some?), fault, 0));
            && SharedOf(session, meter) == s'
            && job'.pc == M.Announce(if err.Some? then StreamError else Aborted)
    ensures session.Valid()
  {
    hide TrimSpace, Extended, Stored;
    err := session.CommitStopped(prompt, replaceFrom, fault);
  }
}
