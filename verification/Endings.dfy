/** How a turn job can end, told by what was asked, what failed and when an abort was noticed. */
module Endings {
  import opened Accumulator
  import opened Chat
  import opened JobRun
  import opened Llm
  import opened Strings
  import opened TurnLog
  import opened Wrappers
  import R = Refinement

  /** An index can be replaced from when a prompt stands there, or nothing any more; no index always can. */
  predicate CanReplace(messages: seq<Message>, replaceFrom: Option<int>) {
    replaceFrom.None? || (0 <= replaceFrom.value <= |messages| && (replaceFrom.value == |messages| || messages[replaceFrom.value].role == User))
  }

  /** What is kept, the prompt without white space at its ends, the answer. */
  ghost predicate Answered(before: seq<Message>, prompt: string, replaceFrom: Option<int>, answer: seq<Part>, at: Option<nat>, after: seq<Message>) {
    && CanReplace(before, replaceFrom)
    && after == (if replaceFrom.None? then before else before[..replaceFrom.value])
                + [Message(User, [PlainPart(Text, TrimSpace(prompt))], None), Message(Assistant, answer, at)]
  }

  lemma ReplaceExactly(messages: seq<Message>, replaceFrom: Option<int>)
    ensures ReplaceFromIndex(messages, replaceFrom).Success? <==> CanReplace(messages, replaceFrom)
    ensures ReplaceFromIndex(messages, replaceFrom).Failure? ==> ReplaceFromIndex(messages, replaceFrom).error == InvalidReplaceFrom
  {
  }

  /** A turn starts exactly for a prompt that says something, while no other is in flight, from an index that can be replaced from, when the stream opens; the first of these that fails is the error. */
  lemma WhichError(prompt: string, inFlight: bool, messages: seq<Message>, replaceFrom: Option<int>, openFailure: Option<Cause>)
    ensures var error := R.SendError(prompt, inFlight, messages, replaceFrom, openFailure);
            && (error == None <==> !Blank(prompt) && !inFlight && CanReplace(messages, replaceFrom) && openFailure == None)
            && (Blank(prompt) ==> error == Some(EmptyPrompt))
            && (!Blank(prompt) && inFlight ==> error == Some(TurnInProgress))
            && (!Blank(prompt) && !inFlight && !CanReplace(messages, replaceFrom) ==> error == Some(InvalidReplaceFrom))
            && (!Blank(prompt) && !inFlight && CanReplace(messages, replaceFrom) ==> error == openFailure)
  {
    hide TrimSpace, Blank, ReplaceFromIndex, CanReplace;
    BlankTrims(prompt);
    ReplaceExactly(messages, replaceFrom);
  }

  /**
   What becomes of the transcript behind an open stream: a completion whose write works adds the answer that is shown as
   done, with its time; a cancellation whose write works adds what was heard, without a time; nothing else changes it.
   */
  lemma WhichWrite(result: Upstream, heard: seq<Event>, looks: seq<bool>, said: Payload, prompt: string, replaceFrom: Option<int>,
                   writeFails: bool, now: nat, before: seq<Message>, after: seq<Message>)
    requires Ends(result) && Right(result, heard, looks, said, prompt, replaceFrom, writeFails, now, before, after)
    ensures said.Done? ==> said.completedAt == Some(now) && Answered(before, prompt, replaceFrom, said.parts, Some(now), after)
    ensures result == Broken(Canceled) && !writeFails ==> Answered(before, prompt, replaceFrom, AbsorbAll([], heard), None, after)
    ensures !said.Done? && !(result == Broken(Canceled) && !writeFails) ==> after == before
  {
    hide AbsorbAll, TrimSpace;
  }

  /**
   How a turn ends that could not start: without an answer. It is stopped when the first look sees an abort or the
   cause is a cancellation; then its prompt is added with an empty answer, or, when that is impossible or its write
   fails, an error is announced. Otherwise it is aborted exactly when the second look sees an abort, and nothing changes.
   */
  lemma WhichRefusal(cause: Cause, looks: seq<bool>, prompt: string, replaceFrom: Option<int>, writeFails: bool, before: seq<Message>, inFlight: bool)
    requires Looked(cause, looks)
    ensures var ending := RefusedEnding(cause, looks, prompt, replaceFrom, writeFails, before, inFlight);
            if cause == Canceled || looks[0] then
              if !Blank(prompt) && CanReplace(before, replaceFrom) && !writeFails then
                ending.said == Aborted && !ending.inFlight && Answered(before, prompt, replaceFrom, [], None, ending.messages)
              else ending == Ending(StreamError, before, inFlight)
            else |looks| == 2 && ending == Ending(if looks[1] then Aborted else StreamError, before, inFlight)
  {
    hide TrimSpace, Blank, ReplaceFromIndex, CanReplace;
    BlankTrims(prompt);
    ReplaceExactly(before, replaceFrom);
    if ReplaceFromIndex(before, replaceFrom).Success? {
      AnsweredBy(before, prompt, replaceFrom, [], None);
    }
  }

  lemma AnsweredBy(before: seq<Message>, prompt: string, replaceFrom: Option<int>, answer: seq<Part>, at: Option<nat>)
    requires ReplaceFromIndex(before, replaceFrom).Success?
    ensures Answered(before, prompt, replaceFrom, answer, at, WithTurn(before, prompt, replaceFrom, Message(Assistant, answer, at)))
  {
    hide TrimSpace;
  }
}
