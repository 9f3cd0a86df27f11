/**
 The goroutine of one turn job, as it is written: send, read the stream to its end, announce, close,
 finish. Between its sections readers and aborts do whatever they like with the job. Every section is one of
 the turn machine's, and the contract of the whole says which terminal event is announced when.
 */
module JobRun {
  import opened Accumulator
  import opened Chat
  import opened Llm
  import opened MachineRuns
  import opened Readers
  import opened Sections
  import opened Storage
  import opened Strings
  import opened TurnLog
  import opened Wrappers
  import D = Delivery
  import M = Turns
  import R = Refinement

  // ---------- what the goroutine cannot foresee ----------

  /** What others do before each of its sections, the upstream's results, the failing statement, the clock. */
  datatype Scenario = Scenario(others: nat -> seq<D.Action>, upstream: seq<Upstream>, openFailure: Option<Cause>, fault: Option<nat>, now: nat)

  ghost predicate NoAborts(scenario: Scenario) {
    forall t: nat, i | 0 <= i < |scenario.others(t)| :: !scenario.others(t)[i].AbortJob?
  }

  /** A stream at its end keeps saying so. */
  function UpstreamAt(scenario: Scenario, i: nat): Upstream {
    if i < |scenario.upstream| then scenario.upstream[i] else Broken(Eof)
  }

  /** Results after which the stream is read no further. */
  predicate Ends(result: Upstream) {
    result.Broken? || result.event.Completed? || (result.event.ErrorEvent? && result.event.cause.Some?)
  }

  /** The first such result from the `i`-th on. */
  function FirstEnding(scenario: Scenario, i: nat): (e: nat)
    requires i <= |scenario.upstream|
    ensures i <= e <= |scenario.upstream| && Ends(UpstreamAt(scenario, e))
    ensures forall k | i <= k < e :: !Ends(UpstreamAt(scenario, k))
    decreases |scenario.upstream| - i
  {
    if Ends(UpstreamAt(scenario, i)) then i else FirstEnding(scenario, i + 1)
  }

  function EventAt(scenario: Scenario, i: nat): Event
    requires !Ends(UpstreamAt(scenario, i))
  {
    UpstreamAt(scenario, i).event
  }

  /** The events before the `n`-th result. */
  function Heard(scenario: Scenario, n: nat): seq<Event>
    requires n <= |scenario.upstream| && forall i | 0 <= i < n :: !Ends(UpstreamAt(scenario, i))
  {
    seq(n, i requires 0 <= i < n => EventAt(scenario, i))
  }

  // ---------- what a job tells ----------

  /** The live events of some upstream events: each preview shows all text so far. */
  function Live(events: seq<Event>): seq<Payload> {
    if events == [] then []
    else
      var last := events[|events| - 1];
      Live(events[..|events| - 1]) + LiveFor(last, DeltaText(events))
  }

  function LiveFor(event: Event, markdown: string): seq<Payload> {
    if event.TextDelta? && event.delta != "" then [Preview(markdown)]
    else if event.ReasoningDelta? then [Payload.ReasoningDelta(event.delta)]
    else []
  }

  function Payloads(events: seq<StreamEvent>): seq<Payload> {
    seq(|events|, i requires 0 <= i < |events| => events[i].payload)
  }

  lemma LiveSnoc(events: seq<Event>, event: Event)
    ensures Live(events + [event]) == Live(events) + LiveFor(event, DeltaText(events + [event]))
    ensures DeltaText(events + [event]) == DeltaText(events) + (if event.TextDelta? then event.delta else "")
  {
    assert (events + [event])[..|events|] == events;
  }

  lemma {:induction false} LiveIsLive(events: seq<Event>)
    ensures forall i | 0 <= i < |Live(events)| :: !IsTerminal(Live(events)[i])
  {
    if events != [] {
      LiveIsLive(events[..|events| - 1]);
    }
  }

  // ---------- what a reader sees of it ----------

  /** The events that tell a reader something: text deltas that are not empty, and reasoning deltas. */
  function Telling(events: seq<Event>): seq<Event> {
    if events == [] then []
    else
      var last := events[|events| - 1];
      Telling(events[..|events| - 1]) + if last.ReasoningDelta? || (last.TextDelta? && last.delta != "") then [last] else []
  }

  function TextDeltas(events: seq<Event>): seq<string> {
    if events == [] then []
    else
      var last := events[|events| - 1];
      TextDeltas(events[..|events| - 1]) + if last.TextDelta? then [last.delta] else []
  }

  /** The `i`-th thing told is a preview of all text up to and including its own, or its own piece of reasoning. */
  predicate ShownAt(payload: Payload, told: seq<Event>, i: nat)
    requires i < |told|
  {
    if told[i].TextDelta? then payload == Preview(Concat(TextDeltas(told[..i + 1])))
    else told[i].ReasoningDelta? && payload == Payload.ReasoningDelta(told[i].delta)
  }

  /** The log shows exactly what was told, in order. */
  ghost predicate Shows(payloads: seq<Payload>, events: seq<Event>) {
    var told := Telling(events);
    |payloads| == |told| && forall i | 0 <= i < |told| :: ShownAt(payloads[i], told, i)
  }

  lemma TextDeltasSnoc(events: seq<Event>, event: Event)
    ensures TextDeltas(events + [event]) == TextDeltas(events) + (if event.TextDelta? then [event.delta] else [])
    ensures Concat(TextDeltas(events + [event])) == Concat(TextDeltas(events)) + (if event.TextDelta? then event.delta else "")
  {
    assert (events + [event])[..|events|] == events;
    if event.TextDelta? {
      ConcatSnoc(TextDeltas(events), event.delta);
    } else {
      assert TextDeltas(events) + [] == TextDeltas(events);
    }
  }

  lemma {:induction false} ToldText(events: seq<Event>)
    ensures Concat(TextDeltas(Telling(events))) == DeltaText(events)
  {
    if events != [] {
      var init, last := events[..|events| - 1], events[|events| - 1];
      ToldText(init);
      TextDeltasSnoc(Telling(init), last);
      assert Telling(init) + [] == Telling(init) && DeltaText(init) + "" == DeltaText(init);
    }
  }

  lemma {:induction false} LiveShows(events: seq<Event>)
    ensures Shows(Live(events), events)
  {
    hide Concat, TextDeltas, DeltaText, ShownAt;
    if events != [] {
      var init, last := events[..|events| - 1], events[|events| - 1];
      LiveShows(init);
      ToldText(events);
      var told, before, live := Telling(events), Telling(init), Live(events);
      forall i | 0 <= i < |told|
        ensures ShownAt(live[i], told, i)
      {
        if i < |before| {
          ShownEarlier(live[i], before, told, i);
        } else {
          ShownLast(live[i], told, DeltaText(events));
        }
      }
    }
  }

  lemma ShownEarlier(payload: Payload, before: seq<Event>, told: seq<Event>, i: nat)
    requires i < |before| && before <= told && ShownAt(payload, before, i)
    ensures ShownAt(payload, told, i)
  {
    assert told[..i + 1] == before[..i + 1];
  }

  lemma ShownLast(payload: Payload, told: seq<Event>, markdown: string)
    requires told != [] && markdown == Concat(TextDeltas(told))
    requires [payload] == LiveFor(told[|told| - 1], markdown)
    ensures ShownAt(payload, told, |told| - 1)
  {
    hide Concat, TextDeltas;
    assert told[..|told|] == told;
  }

  /** Of two previews the later properly extends the earlier. */
  lemma {:induction false} PreviewsExtend(payloads: seq<Payload>, events: seq<Event>, i: nat, j: nat)
    requires Shows(payloads, events) && i < j < |payloads| && payloads[i].Preview? && payloads[j].Preview?
    ensures payloads[i].markdown < payloads[j].markdown
  {
    var told := Telling(events);
    assert ShownAt(payloads[i], told, i) && ShownAt(payloads[j], told, j);
    ToldGrows(told, i + 1, j);
    assert told[..j + 1] == told[..j] + [told[j]];
    TextDeltasSnoc(told[..j], told[j]);
    TellingSays(events, j);
  }

  lemma {:induction false} ToldGrows(told: seq<Event>, m: nat, n: nat)
    requires m <= n <= |told|
    ensures Concat(TextDeltas(told[..m])) <= Concat(TextDeltas(told[..n]))
  {
    if m < n {
      ToldGrows(told, m, n - 1);
      assert told[..n] == told[..n - 1] + [told[n - 1]];
      TextDeltasSnoc(told[..n - 1], told[n - 1]);
    }
  }

  lemma {:induction false} TellingSays(events: seq<Event>, k: nat)
    requires k < |Telling(events)|
    ensures var event := Telling(events)[k]; event.ReasoningDelta? || (event.TextDelta? && event.delta != "")
  {
    var init := events[..|events| - 1];
    if k < |Telling(init)| {
      TellingSays(init, k);
    }
  }

  /**
   Unless a completed text part arrived, the last preview, when there is one, is the text of the parts that
   are shown as done and stored.
   */
  lemma LastPreview(payloads: seq<Payload>, events: seq<Event>, i: nat)
    requires Shows(payloads, events) && i < |payloads| && payloads[i].Preview?
    requires forall k | i < k < |payloads| :: !payloads[k].Preview?
    requires forall k | 0 <= k < |events| :: events[k].OutputItemDone? ==> events[k].part.kind != Text
    ensures TextOf(AbsorbAll([], events)) == payloads[i].markdown
  {
    hide Concat, TextDeltas, DeltaText, AbsorbAll, Telling, TextOf, ShownAt;
    NoTextYet();
    AbsorbAllKeepsText([], events);
    ToldText(events);
    LastShown(payloads, Telling(events), i);
    assert "" + DeltaText(events) == DeltaText(events);
  }

  lemma LastShown(payloads: seq<Payload>, told: seq<Event>, i: nat)
    requires |payloads| == |told| && forall k | 0 <= k < |told| :: ShownAt(payloads[k], told, k)
    requires i < |payloads| && payloads[i].Preview? && forall k | i < k < |payloads| :: !payloads[k].Preview?
    ensures payloads[i].markdown == Concat(TextDeltas(told))
  {
    hide Concat, TextDeltas;
    assert ShownAt(payloads[i], told, i);
    forall k | i < k < |told|
      ensures !told[k].TextDelta?
    {
      assert ShownAt(payloads[k], told, k);
    }
    NoMoreText(told, i + 1, |told|);
    assert told[..|told|] == told;
  }

  lemma NoTextYet()
    ensures TextOf([]) == ""
  {
  }

  lemma {:induction false} NoMoreText(told: seq<Event>, m: nat, n: nat)
    requires m <= n <= |told| && forall k | m <= k < n :: !told[k].TextDelta?
    ensures Concat(TextDeltas(told[..m])) == Concat(TextDeltas(told[..n]))
  {
    if m < n {
      NoMoreText(told, m, n - 1);
      assert told[..n] == told[..n - 1] + [told[n - 1]];
      TextDeltasSnoc(told[..n - 1], told[n - 1]);
    }
  }

  // ---------- which terminal event ----------

  /** The error that `run` sees when a stream ends with this result and no turn was completed. */
  function EndingCause(result: Upstream): Cause {
    match result
    case Broken(cause) => cause
    case Item(event) => if event.ErrorEvent? && event.cause.Some? then event.cause.value else WriteFailed
  }

  /** After an error the goroutine looks once or twice whether an abort was requested. */
  predicate Looked(cause: Cause, looks: seq<bool>) {
    looks != [] && |looks| == if looks[0] || cause == Canceled then 1 else 2
  }

  /** At the first look, or for a cancellation, it stops and commits; then only a lost write is an error. At the second it just stops. */
  function Announced(cause: Cause, looks: seq<bool>, lost: bool): Payload {
    if looks != [] && (looks[0] || cause == Canceled) then if lost then StreamError else Aborted
    else if |looks| > 1 && looks[1] then Aborted
    else StreamError
  }

  /** The transcript with this job's turn in it. */
  function WithTurn(before: seq<Message>, prompt: string, replaceFrom: Option<int>, answer: Message): seq<Message>
    requires ReplaceFromIndex(before, replaceFrom).Success?
  {
    Extended(before, replaceFrom.Some?, ReplaceFromIndex(before, replaceFrom).value, TextMessage(User, TrimSpace(prompt)), answer)
  }

  /** Whether a prompt that was stopped cannot be committed. */
  predicate StopLost(prompt: string, replaceFrom: Option<int>, writeFails: bool, before: seq<Message>) {
    TrimSpace(prompt) == "" || ReplaceFromIndex(before, replaceFrom).Failure? || writeFails
  }

  lemma StoppedValue(s: M.Shared, at: M.Job, choice: M.Choice, prompt: string)
    requires at.prompt == TrimSpace(prompt)
    ensures var (s', at') := M.CommitStopped(s, at, choice);
            var lost := StopLost(prompt, at.replaceFrom, M.WriteFails(s, choice.fault), s.messages);
            && s'.messages == (if lost then s.messages else WithTurn(s.messages, prompt, at.replaceFrom, Message(Assistant, [], None)))
            && s'.inFlight == (s.inFlight && lost)
            && at' == at.(pc := M.Announce(if lost then StreamError else Aborted), commits := at'.commits)
  {
    hide TrimSpace, Extended, Stored, ReplaceFromIndex;
  }

  /** What a partial commit says and does: it is lost only if it is due and its write fails. */
  ghost predicate Cut(finalized: bool, writeFails: bool, said: Payload, heard: seq<Event>, prompt: string, replaceFrom: Option<int>,
                      before: seq<Message>, after: seq<Message>) {
    && said == (if !finalized && writeFails then StreamError else Aborted)
    && (finalized || writeFails ==> after == before)
    && (!finalized && !writeFails ==>
          ReplaceFromIndex(before, replaceFrom).Success?
          && after == WithTurn(before, prompt, replaceFrom, Message(Assistant, AbsorbAll([], heard), None)))
  }

  /** How a turn ends that was refused or failed to open: what is said and what becomes of transcript and flag. */
  datatype Ending = Ending(said: Payload, messages: seq<Message>, inFlight: bool)

  function RefusedEnding(cause: Cause, looks: seq<bool>, prompt: string, replaceFrom: Option<int>, writeFails: bool, before: seq<Message>, inFlight: bool): Ending {
    var lost := StopLost(prompt, replaceFrom, writeFails, before);
    var said := Announced(cause, looks, lost);
    if looks != [] && (looks[0] || cause == Canceled) && !lost then
      Ending(said, WithTurn(before, prompt, replaceFrom, Message(Assistant, [], None)), false)
    else Ending(said, before, inFlight)
  }

  /**
   How an opened turn ends, given the result that ended its stream and what was heard before. A completion
   that is written is done, with the parts shown being the parts stored; a cancellation commits what was heard;
   every other end leaves the transcript alone, and so does every write that fails.
   */
  function OpenedEnding(result: Upstream, heard: seq<Event>, looks: seq<bool>, prompt: string, replaceFrom: Option<int>,
                        writeFails: bool, now: nat, before: seq<Message>): Ending
    requires ReplaceFromIndex(before, replaceFrom).Success?
  {
    var parts := AbsorbAll([], heard);
    if result.IsCompletion() && !writeFails then
      Ending(Done(parts, result.event.responseId, Some(now)), WithTurn(before, prompt, replaceFrom, Message(Assistant, parts, Some(now))), false)
    else
      var owned := result == Broken(Canceled);
      Ending(Announced(EndingCause(result), looks, owned && writeFails),
             if owned && !writeFails then WithTurn(before, prompt, replaceFrom, Message(Assistant, parts, None)) else before,
             false)
  }

  /** What was said and done is how such a turn ends. */
  ghost predicate Right(result: Upstream, heard: seq<Event>, looks: seq<bool>, said: Payload, prompt: string, replaceFrom: Option<int>,
                        writeFails: bool, now: nat, before: seq<Message>, after: seq<Message>) {
    && ReplaceFromIndex(before, replaceFrom).Success?
    && (var ending := OpenedEnding(result, heard, looks, prompt, replaceFrom, writeFails, now, before); said == ending.said && after == ending.messages)
    && (!(result.IsCompletion() && !writeFails) ==> Looked(EndingCause(result), looks))
  }

  lemma FailureIsRight(result: Upstream, heard: seq<Event>, looks: seq<bool>, said: Payload, prompt: string, replaceFrom: Option<int>,
                       writeFails: bool, now: nat, before: seq<Message>, after: seq<Message>)
    requires ReplaceFromIndex(before, replaceFrom).Success? && !(result.IsCompletion() && !writeFails)
    requires Looked(EndingCause(result), looks) && said == Announced(EndingCause(result), looks, result == Broken(Canceled) && writeFails)
    requires if result == Broken(Canceled) then Cut(false, writeFails, said, heard, prompt, replaceFrom, before, after) else after == before
    ensures Right(result, heard, looks, said, prompt, replaceFrom, writeFails, now, before, after) && !said.Done?
  {
    hide Looked, AbsorbAll, WithTurn, ReplaceFromIndex;
  }

  lemma DoneIsRight(result: Upstream, heard: seq<Event>, prompt: string, replaceFrom: Option<int>, now: nat, before: seq<Message>, keep: nat)
    requires ReplaceFromIndex(before, replaceFrom) == Success(keep) && result.IsCompletion()
    ensures replaceFrom.Some? ==> keep <= |before|
    ensures var parts := AbsorbAll([], heard);
            Right(result, heard, [], Done(parts, result.event.responseId, Some(now)), prompt, replaceFrom, false, now, before,
                  Extended(before, replaceFrom.Some?, keep, TextMessage(User, TrimSpace(prompt)), Message(Assistant, parts, Some(now))))
  {
    hide AbsorbAll, TrimSpace, Extended;
  }

  /**
   Which terminal event it is: done exactly for a completion that is written; an error exactly when a cancelled
   turn's write is lost, or any other failure was met and no look saw an abort; and otherwise aborted. An
   error leaves the transcript as it was.
   */
  lemma WhichEnding(result: Upstream, heard: seq<Event>, looks: seq<bool>, said: Payload, prompt: string, replaceFrom: Option<int>,
                    writeFails: bool, now: nat, before: seq<Message>, after: seq<Message>)
    requires Ends(result) && Right(result, heard, looks, said, prompt, replaceFrom, writeFails, now, before, after)
    ensures said.Done? <==> result.IsCompletion() && !writeFails
    ensures said == StreamError <==>
              && !said.Done?
              && if result == Broken(Canceled) then writeFails
                 else EndingCause(result) != Canceled && forall i | 0 <= i < |looks| :: !looks[i]
    ensures said.Done? || said == StreamError || said == Aborted
    ensures said == StreamError ==> after == before
  {
    hide AbsorbAll, WithTurn, ReplaceFromIndex;
  }

  // ---------- the goroutine ----------

  class Goroutine {
    const job: TurnJob
    const audience: Audience
    const session: Session
    const meter: Meter
    const prompt: string
    const replaceFrom: Option<int>
    const scenario: Scenario
    var tick: nat
    /** The machine's job, where it set out from, and its moves since. */
    ghost var at: M.Job
    ghost var origin: (M.Shared, M.Job)
    ghost var moves: seq<Move>

    constructor (job: TurnJob, session: Session, meter: Meter, prompt: string, replaceFrom: Option<int>, scenario: Scenario)
      requires job.View() == EMPTY_LOG
      ensures this.job == job && this.session == session && this.meter == meter && fresh(audience) && audience.job == job
      ensures this.prompt == prompt && this.replaceFrom == replaceFrom && this.scenario == scenario
      ensures at == M.NewJob(TrimSpace(prompt), replaceFrom) && audience.View() == D.EMPTY_NET
    {
      hide TrimSpace;
      this.job, this.session, this.meter := job, session, meter;
      this.prompt, this.replaceFrom, this.scenario, tick := prompt, replaceFrom, scenario, 0;
      audience := new Audience(job);
      at := M.NewJob(TrimSpace(prompt), replaceFrom);
    }

    ghost function Here(): M.Shared
      reads session, session.Footprint(), meter
    {
      R.SharedOf(session, meter)
    }

    /** The objects are where the machine's moves have led. */
    ghost predicate Linked()
      reads this, job, audience, session, session.Footprint(), meter
    {
      && audience.job == job && at.net == audience.View() && D.Sound(at.net)
      && PerformAll(origin.0, origin.1, moves) == (Here(), at)
      && at.prompt == TrimSpace(prompt) && at.replaceFrom == replaceFrom
    }

    /** The job is still to be announced. */
    ghost predicate Ready()
      reads this, job, audience, session, session.Footprint(), meter
    {
      Linked() && !job.terminal && !job.doneClosed
    }

    /** The terminal event is out, and the goroutine goes on to close and finish. */
    ghost predicate Over()
      reads this, job, audience, session, session.Footprint(), meter
    {
      Linked() && job.terminal && !job.doneClosed && at.pc == if at.streamOpen then M.Closing else M.Finishing
    }

    /** Requested aborts stay requested, and come from nowhere but the scenario. */
    twostate predicate Abiding()
      reads job
    {
      && (old(job.abortRequested) ==> job.abortRequested)
      && (NoAborts(scenario) ==> job.abortRequested == old(job.abortRequested))
    }

    ghost method Note(s: M.Shared, more: seq<Move>, there: (M.Shared, M.Job))
      requires PerformAll(origin.0, origin.1, moves) == (s, at) && PerformAll(s, at, more) == there
      modifies this`at, this`moves
      ensures PerformAll(origin.0, origin.1, moves) == there && at == there.1
    {
      PerformAppend(origin.0, origin.1, moves, more);
      moves := moves + more;
      at := there.1;
    }

    ghost method NoteOne(s: M.Shared, move: Move, there: (M.Shared, M.Job))
      requires PerformAll(origin.0, origin.1, moves) == (s, at) && Perform(s, at, move) == there
      modifies this`at, this`moves
      ensures PerformAll(origin.0, origin.1, moves) == there && at == there.1
    {
      OneMoveOnly(s, at, move);
      Note(s, [move], there);
    }

    /** One action of a reader or an abort. */
    method Meanwhile(action: D.Action)
      requires Linked()
      modifies this`at, this`moves, job, audience
      ensures Linked() && at == old(at).(net := audience.View())
      ensures job.events == old(job.events) && job.terminal == old(job.terminal) && job.doneClosed == old(job.doneClosed)
      ensures (old(job.abortRequested) ==> job.abortRequested) && (!action.AbortJob? ==> job.abortRequested == old(job.abortRequested))
    {
      hide PerformAll, D.Sound, D.Step, TrimSpace;
      if M.FromOutside(action) {
        OutsideKeeps(audience.View(), action);
        audience.Act(action);
        NoteOne(Here(), Outside(action), (Here(), at.(net := audience.View())));
      }
    }

    method Interfere()
      requires Linked()
      modifies this`tick, this`at, this`moves, job, audience
      ensures Linked() && Abiding() && at == old(at).(net := audience.View())
      ensures job.events == old(job.events) && job.terminal == old(job.terminal) && job.doneClosed == old(job.doneClosed)
    {
      hide PerformAll, D.Sound, TrimSpace;
      var others := scenario.others(tick);
      ghost var t := tick;
      tick := tick + 1;
      for i := 0 to |others|
        invariant Linked() && Abiding() && at == old(at).(net := audience.View())
        invariant job.events == old(job.events) && job.terminal == old(job.terminal) && job.doneClosed == old(job.doneClosed)
      {
        assert NoAborts(scenario) ==> !scenario.others(t)[i].AbortJob?;
        Meanwhile(others[i]);
      }
    }

    method WasAbortRequested() returns (requested: bool)
      requires Linked()
      modifies this`tick, this`at, this`moves, job, audience
      ensures Linked() && Abiding() && at == old(at).(net := audience.View()) && requested == job.abortRequested
      ensures job.events == old(job.events) && job.terminal == old(job.terminal) && job.doneClosed == old(job.doneClosed)
    {
      Interfere();
      requested := job.abortRequested;
    }

    /** `shouldAbort`, with what was seen. */
    method ShouldAbort(cause: Cause) returns (yes: bool, ghost seen: bool)
      requires Linked()
      modifies this`tick, this`at, this`moves, job, audience
      ensures Linked() && Abiding() && at == old(at).(net := audience.View())
      ensures seen == job.abortRequested && yes == (seen || cause == Canceled)
      ensures job.events == old(job.events) && job.terminal == old(job.terminal) && job.doneClosed == old(job.doneClosed)
    {
      var requested := WasAbortRequested();
      seen := requested;
      yes := requested || cause == Canceled;
    }

    method EmitTerminal(payload: Payload)
      requires Ready() && at.pc == M.Announce(payload)
      modifies this`tick, this`at, this`moves, job, audience
      ensures Over() && Abiding() && Payloads(job.events) == Payloads(old(job.events)) + [payload]
      ensures at == old(at).(net := audience.View(), pc := if at.streamOpen then M.Closing else M.Finishing)
    {
      hide PerformAll, Perform, D.Sound, TrimSpace;
      Interfere();
      SoundIsWellFormed(at.net);
      D.StepSound(at.net, D.EmitLast(payload));
      AnnounceSection(Here(), at, M.CANCELLED);
      job.EmitTerminalEvent(payload);
      NoteOne(Here(), Section(M.CANCELLED), (Here(), at.(net := audience.View(), pc := if at.streamOpen then M.Closing else M.Finishing)));
      LastPayload(old(job.events), job.events, payload);
    }

    method EmitError(cause: Cause) returns (ghost said: Payload, ghost seen: bool)
      requires Ready() && at.pc == M.Failing(cause)
      modifies this`tick, this`at, this`moves, job, audience
      ensures Over() && Abiding() && Payloads(job.events) == Payloads(old(job.events)) + [said]
      ensures at == old(at).(net := audience.View(), pc := if at.streamOpen then M.Closing else M.Finishing)
      ensures (seen ==> job.abortRequested) && said == if seen || cause == Canceled then Aborted else StreamError
    {
      hide PerformAll, Perform, D.Sound, TrimSpace, Payloads;
      var yes;
      yes, seen := ShouldAbort(cause);
      FailingSection(Here(), at, M.CANCELLED);
      NoteOne(Here(), Section(M.CANCELLED), (Here(), at.(pc := M.Announce(if yes then Aborted else StreamError))));
      if yes {
        EmitTerminal(Aborted);
        return Aborted, seen;
      }
      EmitTerminal(StreamError);
      return StreamError, seen;
    }

    ghost predicate WriteFails()
    {
      session.WriteFails(replaceFrom.Some?, scenario.fault)
    }

    /** The commit of a stopped prompt, and what it makes the job announce. */
    method CommitStop() returns (said: Payload)
      requires Ready() && at.pc == M.StoppingCommit && session.Valid()
      modifies this`at, this`moves, session.Footprint()
      ensures Ready() && session.Valid() && at.streamOpen == old(at.streamOpen) && at.pc == M.Announce(said)
      ensures var lost := StopLost(prompt, replaceFrom, WriteFails(), old(session.messages));
              && said == (if lost then StreamError else Aborted)
              && session.messages == (if lost then old(session.messages) else WithTurn(old(session.messages), prompt, replaceFrom, Message(Assistant, [], None)))
              && session.inFlight == (old(session.inFlight) && lost)
    {
      hide PerformAll, Perform, D.Sound, TrimSpace, Extended, ReplaceFromIndex, M.CommitStopped, WithTurn, StopLost;
      ghost var s, choice := Here(), R.ChoiceOf(R.QUIET, None, R.Statements(replaceFrom.Some?), scenario.fault, 0);
      StoppingSection(s, at, choice);
      StoppedValue(s, at, choice, prompt);
      var err := R.CommitStoppedRuns(session, meter, at, prompt, replaceFrom, scenario.fault);
      NoteOne(s, Section(choice), M.CommitStopped(s, at, choice));
      said := if err.Some? then StreamError else Aborted;
    }

    /** `emitAbortedAfterCommit`, before there is a stream. */
    method EmitAbortedAfterStop() returns (ghost said: Payload)
      requires Ready() && at.pc == M.StoppingCommit && session.Valid()
      modifies this`tick, this`at, this`moves, job, audience, session.Footprint()
      ensures Over() && Abiding() && session.Valid() && at.streamOpen == old(at.streamOpen)
      ensures Payloads(job.events) == Payloads(old(job.events)) + [said]
      ensures var lost := StopLost(prompt, replaceFrom, WriteFails(), old(session.messages));
              && said == (if lost then StreamError else Aborted)
              && session.messages == (if lost then old(session.messages) else WithTurn(old(session.messages), prompt, replaceFrom, Message(Assistant, [], None)))
              && session.inFlight == (old(session.inFlight) && lost)
    {
      hide Linked, TrimSpace, Payloads, Extended, ReplaceFromIndex, WithTurn, StopLost, Holds;
      var payload := CommitStop();
      EmitTerminal(payload);
      said := payload;
    }

    /** The stream of this job's turn, as the machine has it; what it heard is what both copies of the parts hold. */
    ghost predicate Ours(stream: TurnStream, heard: seq<Event>)
      reads this, stream, stream.Footprint()
    {
      && stream.session == session && stream.meter == meter && stream.Valid()
      && R.Streams(stream, at) && at.streamOpen
      && stream.userMessage == TextMessage(User, TrimSpace(prompt)) && stream.replaceTail == replaceFrom.Some?
      && stream.assistantParts == AbsorbAll([], heard)
    }

    /** The stream may still commit what it heard, at the place it was opened for. */
    ghost predicate MayCut(stream: TurnStream)
      reads stream, session
    {
      !stream.finalized ==> !stream.completed && ReplaceFromIndex(session.messages, replaceFrom) == Success(stream.keepMessages)
    }

    /** The partial commit, and what it makes the job announce. */
    method CommitCut(stream: TurnStream, ghost heard: seq<Event>) returns (said: Payload)
      requires Ready() && at.pc == M.PartialCommit && Ours(stream, heard) && MayCut(stream)
      modifies this`at, this`moves, stream`completedAt, stream`finalized, session.Footprint()
      ensures Ready() && at.pc == M.Announce(said) && Ours(stream, heard)
      ensures Cut(old(stream.finalized), WriteFails(), said, heard, prompt, replaceFrom, old(session.messages), session.messages)
      ensures session.inFlight == (old(session.inFlight) && (old(stream.finalized) || WriteFails()))
      ensures stream.finalized == (old(stream.finalized) || !WriteFails())
    {
      hide PerformAll, Perform, D.Sound, D.Step, TrimSpace, Extended, ReplaceFromIndex, M.FinalizePartial, AbsorbAll, Cut, Holds;
      ghost var s, choice := Here(), R.ChoiceOf(R.QUIET, None, R.Statements(stream.replaceTail), scenario.fault, scenario.now);
      CutInRange(session.messages, replaceFrom, stream.keepMessages);
      PartialSection(s, at, choice);
      PartialValue(s, at, choice);
      CutValue(s, at, choice, heard, prompt);
      var err := R.CommitPartialRuns(stream, at, scenario.fault, scenario.now);
      NoteOne(s, Section(choice), M.FinalizePartial(s, at, at.turn.value, choice));
      said := if err.Some? then StreamError else Aborted;
    }

    /** `emitAbortedAfterCommit`, with a stream. */
    method EmitAbortedAfterPartial(stream: TurnStream, ghost heard: seq<Event>) returns (ghost said: Payload)
      requires Ready() && at.pc == M.PartialCommit && Ours(stream, heard) && MayCut(stream)
      modifies this`tick, this`at, this`moves, job, audience, stream`completedAt, stream`finalized, session.Footprint()
      ensures Over() && Abiding() && Ours(stream, heard)
      ensures Payloads(job.events) == Payloads(old(job.events)) + [said]
      ensures Cut(old(stream.finalized), WriteFails(), said, heard, prompt, replaceFrom, old(session.messages), session.messages)
      ensures session.inFlight == (old(session.inFlight) && (old(stream.finalized) || WriteFails()))
      ensures stream.finalized == (old(stream.finalized) || !WriteFails())
    {
      hide Linked, TrimSpace, Payloads, ReplaceFromIndex, Cut, Holds, AbsorbAll;
      var payload := CommitCut(stream, heard);
      EmitTerminal(payload);
      said := payload;
    }

    /** The first look after `Send` failed. */
    method AfterSend(cause: Cause) returns (stops: bool, ghost seen: bool)
      requires Ready() && at.pc == M.SendFailed(cause)
      modifies this`tick, this`at, this`moves, job, audience
      ensures Ready() && Abiding() && seen == job.abortRequested && stops == (seen || cause == Canceled)
      ensures at == old(at).(net := audience.View(), pc := if stops then M.StoppingCommit else M.Failing(cause))
      ensures job.events == old(job.events)
    {
      hide PerformAll, Perform, D.Sound, D.Step, TrimSpace;
      stops, seen := ShouldAbort(cause);
      SendFailedSection(Here(), at, M.CANCELLED);
      NoteOne(Here(), Section(M.CANCELLED), (Here(), at.(pc := if stops then M.StoppingCommit else M.Failing(cause))));
    }

    /** The first look after `Next` failed. */
    method AfterNext(cause: Cause) returns (stops: bool, ghost seen: bool)
      requires Ready() && at.pc == M.NextFailed(cause)
      modifies this`tick, this`at, this`moves, job, audience
      ensures Ready() && Abiding() && seen == job.abortRequested && stops == (seen || cause == Canceled)
      ensures at == old(at).(net := audience.View(),
                             pc := if stops then M.PartialCommit else M.Failing(if cause == Eof then UnexpectedEof else cause))
      ensures job.events == old(job.events)
    {
      hide PerformAll, Perform, D.Sound, D.Step, TrimSpace;
      if cause == Eof {
        stops := WasAbortRequested();
        seen := stops;
      } else {
        stops, seen := ShouldAbort(cause);
      }
      NextFailedSection(Here(), at, M.CANCELLED);
      ghost var failed := if cause == Eof then UnexpectedEof else cause;
      NoteOne(Here(), Section(M.CANCELLED), (Here(), at.(pc := if stops then M.PartialCommit else M.Failing(failed))));
    }

    /** `run` when `Next` failed. */
    method Fail(stream: TurnStream, cause: Cause, ghost heard: seq<Event>) returns (ghost said: Payload, ghost looks: seq<bool>)
      requires Ready() && at.pc == M.NextFailed(cause) && Ours(stream, heard) && MayCut(stream)
      requires !stream.finalized ==> cause == Canceled
      modifies this`tick, this`at, this`moves, job, audience, stream`completedAt, stream`finalized, session.Footprint()
      ensures Over() && Abiding() && Ours(stream, heard)
      ensures Payloads(job.events) == Payloads(old(job.events)) + [said]
      ensures Looked(cause, looks) && forall i | 0 <= i < |looks| :: looks[i] ==> job.abortRequested
      ensures said == Announced(cause, looks, !old(stream.finalized) && WriteFails())
      ensures old(stream.finalized) ==> session.messages == old(session.messages) && session.inFlight == old(session.inFlight) && stream.finalized
      ensures !old(stream.finalized) ==>
                Cut(false, WriteFails(), said, heard, prompt, replaceFrom, old(session.messages), session.messages)
                && session.inFlight == (old(session.inFlight) && WriteFails()) && stream.finalized == !WriteFails()
    {
      hide Linked, TrimSpace, Payloads, ReplaceFromIndex, AbsorbAll, Holds, WithTurn;
      var yes;
      ghost var seen;
      yes, seen := AfterNext(cause);
      if yes {
        said := EmitAbortedAfterPartial(stream, heard);
        looks := [seen];
        return;
      }
      ghost var again;
      said, again := EmitError(if cause == Eof then UnexpectedEof else cause);
      looks := [seen, again];
    }

    /** `run` when `Send` failed. */
    method Refused(cause: Cause) returns (ghost said: Payload, ghost looks: seq<bool>)
      requires Ready() && at.pc == M.SendFailed(cause) && session.Valid()
      modifies this`tick, this`at, this`moves, job, audience, session.Footprint()
      ensures Over() && Abiding() && session.Valid() && at.streamOpen == old(at.streamOpen)
      ensures Payloads(job.events) == Payloads(old(job.events)) + [said]
      ensures Looked(cause, looks) && forall i | 0 <= i < |looks| :: looks[i] ==> job.abortRequested
      ensures Ending(said, session.messages, session.inFlight)
           == RefusedEnding(cause, looks, prompt, replaceFrom, WriteFails(), old(session.messages), old(session.inFlight))
      ensures !said.Done?
    {
      hide Linked, TrimSpace, Payloads, ReplaceFromIndex, Holds, WithTurn, StopLost;
      var yes;
      ghost var seen;
      yes, seen := AfterSend(cause);
      if yes {
        said := EmitAbortedAfterStop();
        looks := [seen];
        return;
      }
      ghost var again;
      said, again := EmitError(cause);
      looks := [seen, again];
    }

    /** What the loop of `run` does with an event that does not end it. */
    method Show(event: Event, shown: seq<Part>, text: string) returns (parts: seq<Part>, markdown: string)
      requires WellFormed(job.View()) && !job.terminal && !event.Completed?
      modifies job
      ensures parts == Absorb(shown, event)
      ensures markdown == text + if event.TextDelta? then event.delta else ""
      ensures var live := LiveFor(event, markdown); job.View() == if live == [] then old(job.View()) else Emit(old(job.View()), live[0])
    {
      hide WellFormed, AppendDelta, MergeCompleted, Emit;
      parts, markdown := shown, text;
      match event {
        case TextDelta(delta) =>
          NoDelta(shown);
          if delta == "" {
            return;
          }
          markdown := markdown + delta;
          parts := AppendOutputDelta(parts, Text, delta);
          job.EmitEvent(Preview(markdown));
        case ReasoningDelta(delta) =>
          parts := AppendOutputDelta(parts, Reasoning, delta);
          job.EmitEvent(Payload.ReasoningDelta(delta));
        case OutputItemDone(part) =>
          parts := MergeCompletedOutputPart(parts, part);
        case _ =>
      }
    }

    /** The stream is being read: nothing was written or counted since it was opened, and the log shows what was heard. */
    ghost predicate Underway(stream: TurnStream, heard: seq<Event>, start: M.Shared)
      reads this, job, audience, stream, stream.Footprint(), session, session.Footprint(), meter
    {
      && Ready() && Here() == start && at.pc == M.Streaming && Ours(stream, heard) && Untouched(stream)
      && at.parts == stream.assistantParts && at.markdown == DeltaText(heard)
      && Payloads(job.events) == Live(heard)
    }

    ghost predicate Untouched(stream: TurnStream)
      reads stream, session
    {
      && !stream.completed && !stream.finalized && !stream.recorded && stream.completedAt == None && session.inFlight
      && ReplaceFromIndex(session.messages, replaceFrom) == Success(stream.keepMessages)
    }

    /** `Next` with an event that does not end the stream: only the stream's parts change. */
    method TakeEvent(stream: TurnStream, event: Event, ghost heard: seq<Event>)
      requires Ready() && at.pc == M.Streaming && Ours(stream, heard) && Untouched(stream) && !Ends(Item(event))
      modifies stream.Footprint()
      ensures Ready() && Here() == old(Here()) && Untouched(stream) && stream.Valid()
      ensures stream.assistantParts == Absorb(old(stream.assistantParts), event)
      ensures at.turn.Some? && R.TurnOf(stream, at.turn.value.request) == at.turn.value.(parts := Absorb(at.turn.value.parts, event))
    {
      hide PerformAll, D.Sound, TrimSpace, AbsorbAll, Holds, ReplaceFromIndex, M.Pull, R.Pulled, Absorb, LiveFor;
      CutInRange(session.messages, replaceFrom, stream.keepMessages);
      EventValue(Here(), at, R.NextChoice(stream, Item(event), scenario.fault, scenario.now));
      var _ := R.NextRuns(stream, at, Item(event), scenario.fault, scenario.now);
    }

    /** What is shown of such an event, and the machine's section that took and showed it. */
    method Tell(event: Event, shown: seq<Part>, text: string) returns (parts: seq<Part>, markdown: string)
      requires Ready() && at.pc == M.Streaming && at.turn.Some? && !Ends(Item(event)) && text == at.markdown
      modifies this`at, this`moves, job
      ensures Ready() && at == AfterEvent(old(at), event, markdown).(net := audience.View())
      ensures parts == Absorb(shown, event) && markdown == text + (if event.TextDelta? then event.delta else "")
      ensures Payloads(job.events) == Payloads(old(job.events)) + LiveFor(event, markdown) && job.abortRequested == old(job.abortRequested)
    {
      hide PerformAll, Perform, D.Sound, TrimSpace, Payloads, Absorb, LiveFor, Emit, AfterEvent, WellFormed;
      ghost var s, before, choice := Here(), at, M.Choice(Item(event), None, false, 0);
      SoundIsWellFormed(at.net);
      ghost var next := TellMove(s, at, choice);
      parts, markdown := Show(event, shown, text);
      NoteOne(s, Section(choice), (s, next));
    }

    /** One round of the loop of `run`, with an event that does not end it. */
    method ReadEvent(stream: TurnStream, event: Event, shown: seq<Part>, text: string, ghost heard: seq<Event>, ghost start: M.Shared)
      returns (parts: seq<Part>, markdown: string)
      requires Underway(stream, heard, start) && !Ends(Item(event)) && shown == AbsorbAll([], heard) && text == DeltaText(heard)
      modifies this`tick, this`at, this`moves, job, audience, stream.Footprint()
      ensures Underway(stream, heard + [event], start) && Abiding()
      ensures parts == AbsorbAll([], heard + [event]) && markdown == DeltaText(heard + [event])
    {
      hide PerformAll, D.Sound, TrimSpace, AbsorbAll, Holds, ReplaceFromIndex, Live, DeltaText, Payloads, Absorb, LiveFor, Ends;
      Interfere();
      TakeEvent(stream, event, heard);
      parts, markdown := Tell(event, shown, text);
      LiveSnoc(heard, event);
      AbsorbSnoc([], heard, event);
    }

    /** One round of the loop of `run`, with a result that ends it, up to what the machine makes of it. */
    method TakeEnding(stream: TurnStream, result: Upstream, ghost heard: seq<Event>, ghost start: M.Shared) returns (r: Result<Event, Cause>)
      requires Underway(stream, heard, start) && Ends(result)
      modifies this`tick, this`at, this`moves, job, audience, stream.Footprint()
      ensures Ready() && Abiding() && Ours(stream, heard) && Payloads(job.events) == Live(heard)
      ensures Taken(result, WriteFails(), start, Here(), at, scenario.now)
      ensures if result.IsCompletion() && !WriteFails() then
                && r == Success(result.event) && stream.completedAt == Some(scenario.now)
                && at.pc == M.Announce(Done(AbsorbAll([], heard), result.event.responseId, stream.completedAt))
              else r == Failure(EndingCause(result)) && at.pc == M.NextFailed(EndingCause(result))
    {
      hide PerformAll, Perform, D.Sound, D.Step, TrimSpace, AbsorbAll, Holds, ReplaceFromIndex, Live, DeltaText, M.Pull, R.Pulled, Payloads, Absorb, Taken;
      Interfere();
      CutInRange(session.messages, replaceFrom, stream.keepMessages);
      ghost var s, before, choice := Here(), at, R.NextChoice(stream, result, scenario.fault, scenario.now);
      EndsSilently(s, at, choice);
      EndingValue(s, at, choice);
      ghost var more := PullMoves(s, at, choice);
      r := R.NextRuns(stream, at, result, scenario.fault, scenario.now);
      Note(s, more, R.Pulled(s, before, choice));
    }

    /** The turn was counted once, as completed exactly when it is announced as done. */
    ghost predicate CountedOnce(said: Payload, start: M.Shared)
      reads meter
    {
      && meter.started == start.started
      && meter.completed == start.completed + (if said.Done? then 1 else 0)
      && meter.cancelled >= start.cancelled && meter.failed >= start.failed
      && meter.completed + meter.cancelled + meter.failed == start.completed + start.cancelled + start.failed + 1
    }

    /** The one terminal event is in the log, and it is the right one. */
    ghost predicate Settled(stream: TurnStream, heard: seq<Event>, result: Upstream, said: Payload, looks: seq<bool>, start: M.Shared)
      reads this, job, audience, stream, stream.Footprint(), session, session.Footprint(), meter
    {
      && Over() && Ours(stream, heard) && stream.recorded && (stream.finalized ==> !session.inFlight)
      && Payloads(job.events) == Live(heard) + [said]
      && Right(result, heard, looks, said, prompt, replaceFrom, WriteFails(), scenario.now, start.messages, session.messages)
      && CountedOnce(said, start)
    }

    method AnnounceDone(stream: TurnStream, payload: Payload, ghost heard: seq<Event>)
      requires Ready() && at.pc == M.Announce(payload) && Ours(stream, heard)
      modifies this`tick, this`at, this`moves, job, audience
      ensures Over() && Abiding() && Ours(stream, heard) && at.turn == old(at.turn)
      ensures Payloads(job.events) == Payloads(old(job.events)) + [payload]
    {
      hide Linked, TrimSpace, AbsorbAll, Payloads, Holds;
      EmitTerminal(payload);
    }

    /** The round of the loop of `run` that ends it. */
    method ReadEnding(stream: TurnStream, result: Upstream, shown: seq<Part>, ghost heard: seq<Event>, ghost start: M.Shared)
      returns (ghost said: Payload, ghost looks: seq<bool>)
      requires Underway(stream, heard, start) && Ends(result) && shown == AbsorbAll([], heard)
      modifies this`tick, this`at, this`moves, job, audience, stream.Footprint()
      ensures Settled(stream, heard, result, said, looks, start) && Abiding()
      ensures forall i | 0 <= i < |looks| :: looks[i] ==> job.abortRequested
    {
      hide Linked, TrimSpace, AbsorbAll, Holds, ReplaceFromIndex, Live, DeltaText, Payloads, WithTurn, Extended, Cut, Looked, Right, Announced;
      var taken := TakeEnding(stream, result, heard, start);
      ghost var before := Here();
      if taken.Failure? {
        said, looks := Fail(stream, taken.error, heard);
        FailureIsRight(result, heard, looks, said, prompt, replaceFrom, WriteFails(), scenario.now, before.messages, session.messages);
      } else {
        AnnounceDone(stream, Done(shown, taken.value.responseId, stream.completedAt), heard);
        said, looks := Done(shown, taken.value.responseId, stream.completedAt), [];
        DoneIsRight(result, heard, prompt, replaceFrom, scenario.now, start.messages, stream.keepMessages);
      }
    }

    /** The loop of `run`: from an open stream to the one terminal event. */
    method Read(stream: TurnStream, ghost start: M.Shared) returns (ghost said: Payload, ghost looks: seq<bool>)
      requires Underway(stream, [], start)
      modifies this`tick, this`at, this`moves, job, audience, stream.Footprint()
      ensures var e := FirstEnding(scenario, 0); Settled(stream, Heard(scenario, e), UpstreamAt(scenario, e), said, looks, start)
      ensures Abiding() && forall i | 0 <= i < |looks| :: looks[i] ==> job.abortRequested
    {
      hide Underway, Settled, AbsorbAll, DeltaText, Ends, Heard;
      NothingHeard(scenario);
      var i := 0;
      var markdown := "";
      var parts := [];
      while true
        invariant i <= |scenario.upstream| && forall k | 0 <= k < i :: !Ends(UpstreamAt(scenario, k))
        invariant FirstEnding(scenario, i) == FirstEnding(scenario, 0)
        invariant Underway(stream, Heard(scenario, i), start) && Abiding()
        invariant parts == AbsorbAll([], Heard(scenario, i)) && markdown == DeltaText(Heard(scenario, i))
        decreases |scenario.upstream| - i
      {
        var result := UpstreamAt(scenario, i);
        EndOfScript(scenario, i);
        if Ends(result) {
          said, looks := ReadEnding(stream, result, parts, Heard(scenario, i), start);
          return;
        }
        HeardSnoc(scenario, i);
        parts, markdown := ReadEvent(stream, result.event, parts, markdown, Heard(scenario, i), start);
        i := i + 1;
      }
    }

    /** The deferred `Close`. */
    method CloseStream(stream: TurnStream, ghost heard: seq<Event>)
      requires Over() && Ours(stream, heard) && stream.recorded && (stream.finalized ==> !session.inFlight)
      modifies this`at, this`moves, stream.Footprint()
      ensures Linked() && at.pc == M.Finishing && job.terminal && !job.doneClosed
      ensures session.Valid() && !session.inFlight && Here() == old(Here()).(inFlight := false)
    {
      hide PerformAll, Perform, D.Sound, TrimSpace, AbsorbAll, M.Section, Holds;
      ghost var s, choice := Here(), M.Choice(R.QUIET, None, false, 0);
      ClosingSection(s, at, choice);
      ClosingValue(s, at, choice);
      R.CloseRuns(stream, at);
      NoteOne(s, Section(choice), (M.Section(s, at, choice).0, M.Section(s, at, choice).1));
    }

    /** `run` with an open stream, and its deferred `Close`. */
    method Opened(stream: TurnStream, ghost start: M.Shared) returns (ghost said: Payload, ghost looks: seq<bool>)
      requires Underway(stream, [], start)
      modifies this`tick, this`at, this`moves, job, audience, stream.Footprint()
      ensures Linked() && at.pc == M.Finishing && job.terminal && !job.doneClosed
      ensures var e := FirstEnding(scenario, 0);
              && Payloads(job.events) == Live(Heard(scenario, e)) + [said]
              && Right(UpstreamAt(scenario, e), Heard(scenario, e), looks, said, prompt, replaceFrom, WriteFails(), scenario.now, start.messages, session.messages)
      ensures session.Valid() && !session.inFlight && CountedOnce(said, start)
      ensures Abiding() && forall i | 0 <= i < |looks| :: looks[i] ==> job.abortRequested
    {
      hide Linked, AbsorbAll, Heard, Right, Live, Payloads, Holds, Underway, FirstEnding, UpstreamAt, Ours;
      said, looks := Read(stream, start);
      CloseStream(stream, Heard(scenario, FirstEnding(scenario, 0)));
    }

    /** `run` up to an open stream or the error of `Send`. */
    method Start() returns (opening: Result<TurnStream, Cause>)
      requires Ready() && at.pc == M.Spawned && session.Valid() && job.events == [] && at.parts == [] && at.markdown == "" && !at.streamOpen
      modifies this`at, this`moves, session, meter
      ensures Ready() && session.Valid() && job.events == []
      ensures session.messages == old(session.messages)
      ensures R.SendError(prompt, old(session.inFlight), session.messages, replaceFrom, scenario.openFailure)
           == if opening.Failure? then Some(opening.error) else None
      ensures opening.Failure? ==> at.pc == M.SendFailed(opening.error) && !at.streamOpen && session.inFlight == old(session.inFlight)
      ensures opening.Success? ==> fresh(opening.value) && opening.value.Footprint() == {opening.value, meter} + session.Footprint()
      ensures opening.Success? ==> Underway(opening.value, [], Here())
      ensures old(meter.started) <= meter.started <= old(meter.started) + 1
      ensures meter.failed - old(meter.failed) + (if opening.Success? then 1 else 0) == meter.started - old(meter.started)
      ensures meter.completed == old(meter.completed) && meter.cancelled == old(meter.cancelled)
    {
      hide PerformAll, Perform, D.Sound, D.Step, TrimSpace, AbsorbAll, DeltaText, Live, Payloads, Holds, R.Sent, ReplaceFromIndex, R.SendError;
      NothingHeard(scenario);
      ghost var s, choice := Here(), R.ChoiceOf(R.QUIET, scenario.openFailure, 0, None, 0);
      ghost var more := SendMoves(s, at, choice);
      ghost var request;
      opening, request := R.SendRuns(session, meter, at, replaceFrom, scenario.openFailure, prompt);
      KeepInRange(session.messages, replaceFrom);
      Note(s, more, R.Sent(s, at, choice));
    }

    /** The deferred `finish`. */
    method Finish()
      requires Linked() && at.pc == M.Finishing && job.terminal && !job.doneClosed
      modifies this`tick, this`at, this`moves, job, audience
      ensures Linked() && Abiding() && at.pc == M.Finished && job.terminal && job.doneClosed && job.events == old(job.events)
    {
      hide PerformAll, Perform, D.Sound, TrimSpace;
      Interfere();
      SoundIsWellFormed(at.net);
      D.StepSound(at.net, D.FinishJob);
      FinishingSection(Here(), at, M.CANCELLED);
      job.FinishJob();
      NoteOne(Here(), Section(M.CANCELLED), (Here(), at.(pc := M.Finished, net := audience.View())));
    }

    method Go() returns (ghost said: Payload, ghost looks: seq<bool>)
      requires Ready() && at.pc == M.Spawned && session.Valid() && job.events == [] && at.parts == [] && at.markdown == "" && !at.streamOpen
      modifies this`tick, this`at, this`moves, job, audience, session.Footprint(), meter
      ensures Linked() && at.pc == M.Finished
      ensures job.terminal && job.doneClosed && session.Valid()
      ensures var refused := R.SendError(prompt, old(session.inFlight), old(session.messages), replaceFrom, scenario.openFailure);
              match refused
              case Some(cause) =>
                && Payloads(job.events) == [said] && Looked(cause, looks)
                && Ending(said, session.messages, session.inFlight)
                   == RefusedEnding(cause, looks, prompt, replaceFrom, WriteFails(), old(session.messages), old(session.inFlight))
              case None =>
                var e := FirstEnding(scenario, 0);
                && Payloads(job.events) == Live(Heard(scenario, e)) + [said] && !session.inFlight
                && Shows(Payloads(job.events)[..|job.events| - 1], Heard(scenario, e))
                && Right(UpstreamAt(scenario, e), Heard(scenario, e), looks, said, prompt, replaceFrom, WriteFails(), scenario.now,
                         old(session.messages), session.messages)
      ensures Abiding() && forall i | 0 <= i < |looks| :: looks[i] ==> job.abortRequested
      ensures old(meter.started) <= meter.started <= old(meter.started) + 1
      ensures meter.started - old(meter.started) ==
              (meter.completed - old(meter.completed)) + (meter.cancelled - old(meter.cancelled)) + (meter.failed - old(meter.failed))
      ensures meter.completed - old(meter.completed) == if said.Done? then 1 else 0
    {
      hide Linked, Heard, Right, Live, Payloads, Holds, FirstEnding, RefusedEnding, R.SendError, Looked, UpstreamAt, Underway, Shows;
      NothingHeard(scenario);
      var opening := Start();
      if opening.Failure? {
        said, looks := Refused(opening.error);
      } else {
        said, looks := Opened(opening.value, Here());
        ghost var live := Live(Heard(scenario, FirstEnding(scenario, 0)));
        LiveShows(Heard(scenario, FirstEnding(scenario, 0)));
        AllButLast(job.events, live, said);
      }
      Finish();
    }

    /**
     The whole goroutine, for every scenario. It is a run of the machine's job from spawned to finished. The
     log is the live events of what was heard before the first result that ended the stream, and then the one
     terminal event which that result, the looks for an abort and the failing write determine; so is what
     becomes of the transcript and of the flag; and a turn that was started was counted once.
     */
    method Run() returns (ghost said: Payload, ghost looks: seq<bool>)
      requires audience.job == job && at == M.NewJob(TrimSpace(prompt), replaceFrom).(net := audience.View()) && D.Sound(at.net)
      requires !job.terminal && !job.doneClosed && job.events == [] && session.Valid()
      modifies this, job, audience, session.Footprint(), meter
      ensures Linked() && origin == old((Here(), at)) && at.pc == M.Finished
      ensures job.terminal && job.doneClosed && session.Valid()
      ensures var refused := R.SendError(prompt, old(session.inFlight), old(session.messages), replaceFrom, scenario.openFailure);
              match refused
              case Some(cause) =>
                && Payloads(job.events) == [said] && Looked(cause, looks)
                && Ending(said, session.messages, session.inFlight)
                   == RefusedEnding(cause, looks, prompt, replaceFrom, WriteFails(), old(session.messages), old(session.inFlight))
              case None =>
                var e := FirstEnding(scenario, 0);
                && Payloads(job.events) == Live(Heard(scenario, e)) + [said] && !session.inFlight
                && Shows(Payloads(job.events)[..|job.events| - 1], Heard(scenario, e))
                && Right(UpstreamAt(scenario, e), Heard(scenario, e), looks, said, prompt, replaceFrom, WriteFails(), scenario.now,
                         old(session.messages), session.messages)
      ensures Abiding() && forall i | 0 <= i < |looks| :: looks[i] ==> job.abortRequested
      ensures old(meter.started) <= meter.started <= old(meter.started) + 1
      ensures meter.started - old(meter.started) ==
              (meter.completed - old(meter.completed)) + (meter.cancelled - old(meter.cancelled)) + (meter.failed - old(meter.failed))
      ensures meter.completed - old(meter.completed) == if said.Done? then 1 else 0
    {
      hide PerformAll, Perform, D.Sound, TrimSpace, Holds, R.SendError, Right, RefusedEnding, Live, Heard, Payloads, FirstEnding, Looked, Shows;
      origin, moves := (Here(), at), [];
      NoMoves(origin.0, origin.1);
      said, looks := Go();
    }
  }

  lemma CutInRange(messages: seq<Message>, replaceFrom: Option<int>, keep: nat)
    ensures ReplaceFromIndex(messages, replaceFrom) == Success(keep) ==> keep <= |messages|
  {
  }

  lemma CutValue(s: M.Shared, at: M.Job, choice: M.Choice, heard: seq<Event>, prompt: string)
    requires at.turn.Some? && R.InRange(s, at.turn.value) && (!at.turn.value.finalized ==> !at.turn.value.completed)
    requires var turn := at.turn.value;
             && turn.user == TextMessage(User, TrimSpace(prompt)) && turn.replaceTail == at.replaceFrom.Some? && turn.parts == AbsorbAll([], heard)
             && (!turn.finalized ==> ReplaceFromIndex(s.messages, at.replaceFrom) == Success(turn.keep))
    ensures var (s', at') := M.FinalizePartial(s, at, at.turn.value, choice);
            && at'.pc.Announce?
            && Cut(at.turn.value.finalized, M.WriteFails(s, choice.fault), at'.pc.payload, heard, prompt, at.replaceFrom, s.messages, s'.messages)
  {
    hide TrimSpace, AbsorbAll, M.FinalizePartial, Extended, ReplaceFromIndex;
    PartialValue(s, at, choice);
  }

  lemma PartialValue(s: M.Shared, at: M.Job, choice: M.Choice)
    requires at.turn.Some? && R.InRange(s, at.turn.value) && (!at.turn.value.finalized ==> !at.turn.value.completed)
    ensures var turn := at.turn.value;
            var fails := M.WriteFails(s, choice.fault);
            var (s', at') := M.FinalizePartial(s, at, turn, choice);
            && s'.inFlight == (s.inFlight && (turn.finalized || fails))
            && s'.messages == (if turn.finalized || fails then s.messages
                               else Extended(s.messages, turn.replaceTail, turn.keep, turn.user, Message(Assistant, turn.parts, None)))
            && at' == at.(pc := M.Announce(if !turn.finalized && fails then StreamError else Aborted), commits := at'.commits,
                          partialFailed := at'.partialFailed, turn := Some(turn.(finalized := turn.finalized || !fails)))
  {
    hide Extended, Stored;
  }

  lemma NoDelta(parts: seq<Part>)
    ensures AppendDelta(parts, Text, "") == parts
  {
  }

  /** The machine's job after an event that does not end its stream, but for the log. */
  function AfterEvent(at: M.Job, event: Event, markdown: string): M.Job
    requires at.turn.Some?
  {
    at.(turn := Some(at.turn.value.(parts := Absorb(at.turn.value.parts, event))), parts := Absorb(at.parts, event), markdown := markdown)
  }

  lemma EventValue(s: M.Shared, at: M.Job, choice: M.Choice)
    requires at.pc.Streaming? && at.turn.Some? && !Ends(choice.upstream)
    ensures var event := choice.upstream.event;
            var markdown := at.markdown + if event.TextDelta? then event.delta else "";
            var live := LiveFor(event, markdown);
            && M.Pull(s, at, at.turn.value, choice) == (s, AfterEvent(at, event, markdown), if live == [] then None else Some(D.EmitOne(live[0])))
            && (R.InRange(s, at.turn.value) ==> R.Pulled(s, at, choice) == (s, AfterEvent(at, event, markdown)))
  {
    hide Absorb;
    assert at.markdown + "" == at.markdown;
  }

  lemma LiveShort(event: Event, markdown: string)
    ensures LiveFor(event, markdown) == [] || LiveFor(event, markdown) == [LiveFor(event, markdown)[0]]
  {
  }

  /** What a result that ends the stream does to the shared state and the turn. */
  ghost predicate Taken(result: Upstream, writeFails: bool, start: M.Shared, s: M.Shared, at: M.Job, now: nat) {
    && at.turn.Some? && at.turn.value.recorded
    && if result.IsCompletion() && !writeFails then
         && at.turn.value.finalized && !s.inFlight && s == start.(messages := s.messages, table := s.table, inFlight := false, completed := start.completed + 1)
         && (at.turn.value.replaceTail ==> at.turn.value.keep <= |start.messages|)
         && s.messages == Extended(start.messages, at.turn.value.replaceTail, at.turn.value.keep, at.turn.value.user,
                                   Message(Assistant, at.turn.value.parts, Some(now)))
       else
         && at.turn.value.finalized == (result != Broken(Canceled)) && (!at.turn.value.finalized ==> !at.turn.value.completed)
         && s == start.(inFlight := start.inFlight && result == Broken(Canceled), cancelled := s.cancelled, failed := s.failed)
         && s.cancelled >= start.cancelled && s.failed >= start.failed && s.cancelled + s.failed == start.cancelled + start.failed + 1
  }

  lemma EndsSilently(s: M.Shared, at: M.Job, choice: M.Choice)
    requires at.turn.Some? && Ends(choice.upstream)
    ensures M.Pull(s, at, at.turn.value, choice).2 == None
  {
    hide Absorb;
  }

  /** All that the machine makes of a result that ends a stream being read. */
  ghost predicate Ended(s: M.Shared, at: M.Job, choice: M.Choice, writeFails: bool)
    requires at.pc.Streaming? && at.turn.Some? && R.InRange(s, at.turn.value)
  {
    var (s', at') := R.Pulled(s, at, choice);
    var done := choice.upstream.IsCompletion() && !writeFails;
    && Taken(choice.upstream, writeFails, s, s', at', choice.now)
    && at' == at.(turn := at'.turn, pc := at'.pc, commits := at'.commits)
    && at'.turn.value.parts == at.parts && at'.turn.value.user == at.turn.value.user
    && at'.turn.value.keep == at.turn.value.keep && at'.turn.value.replaceTail == at.turn.value.replaceTail
    && (done ==> at'.turn.value.completedAt == Some(choice.now))
    && at'.pc == if done then M.Announce(Done(at.parts, choice.upstream.event.responseId, Some(choice.now)))
                 else M.NextFailed(EndingCause(choice.upstream))
  }

  ghost predicate BeingRead(s: M.Shared, at: M.Job) {
    && at.pc.Streaming? && at.turn.Some? && R.InRange(s, at.turn.value)
    && !at.turn.value.completed && !at.turn.value.finalized && !at.turn.value.recorded && at.turn.value.completedAt == None
    && at.turn.value.parts == at.parts
  }

  lemma EndedByFailure(s: M.Shared, at: M.Job, choice: M.Choice, writeFails: bool)
    requires BeingRead(s, at) && Ends(choice.upstream) && !choice.upstream.IsCompletion()
    ensures Ended(s, at, choice, writeFails)
  {
    hide M.FinalizeWhole;
  }

  lemma EndedByLostWrite(s: M.Shared, at: M.Job, choice: M.Choice)
    requires BeingRead(s, at) && choice.upstream.IsCompletion() && M.WriteFails(s, choice.fault)
    ensures Ended(s, at, choice, true)
  {
    hide M.CommitTo;
  }

  lemma EndedByCompletion(s: M.Shared, at: M.Job, choice: M.Choice)
    requires BeingRead(s, at) && choice.upstream.IsCompletion() && !M.WriteFails(s, choice.fault)
    ensures Ended(s, at, choice, false)
  {
    hide Extended, Stored;
  }

  lemma EndingValue(s: M.Shared, at: M.Job, choice: M.Choice)
    requires BeingRead(s, at) && Ends(choice.upstream)
    ensures Ended(s, at, choice, M.WriteFails(s, choice.fault))
  {
    hide Ended, BeingRead;
    if !choice.upstream.IsCompletion() {
      EndedByFailure(s, at, choice, M.WriteFails(s, choice.fault));
    } else if M.WriteFails(s, choice.fault) {
      EndedByLostWrite(s, at, choice);
    } else {
      EndedByCompletion(s, at, choice);
    }
  }

  lemma NoMoves(s: M.Shared, at: M.Job)
    ensures PerformAll(s, at, []) == (s, at)
  {
  }

  lemma NothingHeard(scenario: Scenario)
    ensures Heard(scenario, 0) == [] && Live([]) == [] && Payloads([]) == [] && DeltaText([]) == "" && AbsorbAll([], []) == []
  {
  }

  lemma EndOfScript(scenario: Scenario, i: nat)
    ensures i >= |scenario.upstream| ==> Ends(UpstreamAt(scenario, i))
    ensures !Ends(UpstreamAt(scenario, i)) ==> UpstreamAt(scenario, i).Item?
  {
  }

  lemma HeardSnoc(scenario: Scenario, n: nat)
    requires n < |scenario.upstream| && forall i | 0 <= i <= n :: !Ends(UpstreamAt(scenario, i))
    ensures Heard(scenario, n + 1) == Heard(scenario, n) + [UpstreamAt(scenario, n).event]
  {
    hide Ends;
  }

  lemma EmittedOne(net: D.Net, payload: Payload)
    requires D.Sound(net) && !net.log.terminal
    ensures D.Step(net, D.EmitOne(payload)) == net.(log := Emit(net.log, payload)) && D.Sound(D.Step(net, D.EmitOne(payload)))
    ensures var log := Emit(net.log, payload);
            && !log.terminal && log.doneClosed == net.log.doneClosed && log.abortRequested == net.log.abortRequested
            && |log.events| == |net.log.events| + 1 && net.log.events <= log.events && log.events[|net.log.events|].payload == payload
  {
    D.StepSound(net, D.EmitOne(payload));
  }

  /** The section of such an event: the parts grow, and what is to be shown is put in the log. */
  lemma TellMove(s: M.Shared, at: M.Job, choice: M.Choice) returns (next: M.Job)
    requires at.pc == M.Streaming && at.turn.Some? && !Ends(choice.upstream) && D.Sound(at.net) && !at.net.log.terminal
    ensures Perform(s, at, Section(choice)) == (s, next)
    ensures var event := choice.upstream.event;
            var markdown := at.markdown + if event.TextDelta? then event.delta else "";
            var live := LiveFor(event, markdown);
            && next == AfterEvent(at, event, markdown).(net := next.net) && D.Sound(next.net)
            && next.net == (if live == [] then at.net else at.net.(log := Emit(at.net.log, live[0])))
            && next.turn.Some? && next.prompt == at.prompt && next.replaceFrom == at.replaceFrom
            && next.net.log.terminal == at.net.log.terminal && next.net.log.doneClosed == at.net.log.doneClosed
            && next.net.log.abortRequested == at.net.log.abortRequested
            && Payloads(next.net.log.events) == Payloads(at.net.log.events) + live
  {
    hide Perform, D.Sound, M.Pull, R.Pulled, Payloads, Absorb, LiveFor, D.Step, Emit;
    var event := choice.upstream.event;
    var markdown := at.markdown + if event.TextDelta? then event.delta else "";
    var live := LiveFor(event, markdown);
    PullSection(s, at, choice);
    EventValue(s, at, choice);
    LiveShort(event, markdown);
    next := Perform(s, at, Section(choice)).1;
    if live != [] {
      EmittedOne(at.net, live[0]);
      LastPayload(at.net.log.events, next.net.log.events, live[0]);
    } else {
      assert Payloads(at.net.log.events) + [] == Payloads(at.net.log.events);
    }
  }

  lemma AllButLast(events: seq<StreamEvent>, live: seq<Payload>, said: Payload)
    requires Payloads(events) == live + [said]
    ensures |Payloads(events)| == |events| >= 1 && Payloads(events)[..|events| - 1] == live
  {
  }

  lemma LastPayload(before: seq<StreamEvent>, after: seq<StreamEvent>, payload: Payload)
    requires |after| == |before| + 1 && before <= after && after[|before|].payload == payload
    ensures Payloads(after) == Payloads(before) + [payload]
  {
  }
}
