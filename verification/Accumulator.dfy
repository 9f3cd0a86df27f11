/**
 How streamed events become the parts of an assistant message. The chat session and the web job
 each keep such a list, with separately written code; both are proved against the functions here.
 */
module Accumulator {
  import opened Llm

  /** Text deltas extend a trailing part of their own kind and otherwise start a new part. */
  function AppendDelta(parts: seq<Part>, kind: PartType, delta: string): seq<Part> {
    var last := |parts| - 1;
    if delta == "" then parts
    else if last >= 0 && parts[last].kind == kind then parts[last := parts[last].(text := parts[last].text + delta)]
    else parts + [PlainPart(kind, delta)]
  }

  /** The index of the last reasoning part, or -1. */
  function LastReasoning(parts: seq<Part>): (i: int)
    ensures -1 <= i < |parts|
    ensures i >= 0 ==> parts[i].kind == Reasoning
    ensures forall j | i < j < |parts| :: parts[j].kind != Reasoning
  {
    if parts == [] then -1
    else if parts[|parts| - 1].kind == Reasoning then |parts| - 1
    else LastReasoning(parts[..|parts| - 1])
  }

  /** Every field the completed part carries replaces the streamed one. */
  function Overlay(streamed: Part, part: Part): Part {
    streamed.(
    text := if part.text != "" then part.text else streamed.text,
    id := if part.id != "" then part.id else streamed.id,
    summary := if part.summary != [] then part.summary else streamed.summary,
    encrypted := if part.encrypted != "" then part.encrypted else streamed.encrypted)
  }

  /** A completed text part that repeats the streamed text so far. */
  predicate Repeats(parts: seq<Part>, part: Part) {
    |parts| > 0 && parts[|parts| - 1].kind == Text && part.text != "" && parts[|parts| - 1].text <= part.text
  }

  function MergeCompleted(parts: seq<Part>, part: Part): seq<Part> {
    var last := |parts| - 1;
    var i := LastReasoning(parts);
    if part.kind == Untyped then parts
    else if part.kind == Reasoning && i >= 0 then parts[i := Overlay(parts[i], part)]
    else if part.kind == Text && Repeats(parts, part) then parts[last := parts[last].(text := part.text)]
    else parts + [part]
  }

  /** One upstream event; the remaining kinds leave the parts alone. */
  function Absorb(parts: seq<Part>, event: Event): seq<Part> {
    match event
    case TextDelta(delta) => AppendDelta(parts, Text, delta)
    case ReasoningDelta(delta) => AppendDelta(parts, Reasoning, delta)
    case OutputItemDone(part) => MergeCompleted(parts, part)
    case _ => parts
  }

  function AbsorbAll(parts: seq<Part>, events: seq<Event>): seq<Part> {
    if events == [] then parts else Absorb(AbsorbAll(parts, events[..|events| - 1]), events[|events| - 1])
  }

  // ---------- what one event does to the parts ----------

  predicate IsLastReasoning(parts: seq<Part>, i: nat) {
    i < |parts| && parts[i].kind == Reasoning && forall j | i < j < |parts| :: parts[j].kind != Reasoning
  }

  predicate HasReasoning(parts: seq<Part>) {
    exists i | 0 <= i < |parts| :: parts[i].kind == Reasoning
  }

  /** Every field that the completed part fills is the completed part's; every other is the streamed part's. */
  predicate Carries(merged: Part, streamed: Part, part: Part) {
    && merged.kind == streamed.kind && merged.media == streamed.media
    && merged.text == (if part.text != "" then part.text else streamed.text)
    && merged.id == (if part.id != "" then part.id else streamed.id)
    && merged.summary == (if part.summary != [] then part.summary else streamed.summary)
    && merged.encrypted == (if part.encrypted != "" then part.encrypted else streamed.encrypted)
  }

  /** A completed part completes the last reasoning part, replaces the text it repeats, or becomes the new last part. */
  ghost predicate Merged(before: seq<Part>, part: Part, after: seq<Part>) {
    var last := |before| - 1;
    if part.kind == Untyped then after == before
    else if part.kind == Reasoning && HasReasoning(before) then
      && |after| == |before|
      && exists i: nat | IsLastReasoning(before, i) ::
           Carries(after[i], before[i], part) && forall j | 0 <= j < |before| && j != i :: after[j] == before[j]
    else if part.kind == Text && part.text != "" && before != [] && before[last].kind == Text && before[last].text <= part.text then
      after == before[..last] + [before[last].(text := part.text)]
    else after == before + [part]
  }

  /** A delta extends a last part of its own kind, or becomes the new last part, with nothing but its text. */
  predicate Appended(before: seq<Part>, kind: PartType, delta: string, after: seq<Part>) {
    var last := |before| - 1;
    if delta == "" then after == before
    else if before != [] && before[last].kind == kind then after == before[..last] + [before[last].(text := before[last].text + delta)]
    else after == before + [Part(kind, delta, "", [], "", NO_MEDIA)]
  }

  ghost predicate Grown(before: seq<Part>, event: Event, after: seq<Part>) {
    match event
    case TextDelta(delta) => Appended(before, Text, delta, after)
    case ReasoningDelta(delta) => Appended(before, Reasoning, delta, after)
    case OutputItemDone(part) => Merged(before, part, after)
    case _ => after == before
  }

  lemma AbsorbCases(parts: seq<Part>, event: Event)
    ensures Absorb(parts, event) ==
            match event
            case TextDelta(delta) => AppendDelta(parts, Text, delta)
            case ReasoningDelta(delta) => AppendDelta(parts, Reasoning, delta)
            case OutputItemDone(part) => MergeCompleted(parts, part)
            case _ => parts
  {
    hide AppendDelta, MergeCompleted;
  }

  lemma LastReasoningOnly(parts: seq<Part>, i: nat)
    requires IsLastReasoning(parts, i)
    ensures LastReasoning(parts) == i && HasReasoning(parts)
  {
  }

  /** That description leaves no choice, and it is what is computed. */
  lemma MergedExactly(before: seq<Part>, part: Part, after: seq<Part>)
    ensures Merged(before, part, after) <==> after == MergeCompleted(before, part)
  {
    var last, r := |before| - 1, LastReasoning(before);
    if part.kind == Reasoning && HasReasoning(before) {
      assert IsLastReasoning(before, r);
      forall i: nat | IsLastReasoning(before, i)
        ensures i == r
      {
        LastReasoningOnly(before, i);
      }
      if Merged(before, part, after) {
        assert after == before[r := Overlay(before[r], part)];
      }
    } else if part.kind == Text && Repeats(before, part) {
      assert before[last := before[last].(text := part.text)] == before[..last] + [before[last].(text := part.text)];
    }
  }

  lemma AppendedExactly(before: seq<Part>, kind: PartType, delta: string, after: seq<Part>)
    ensures Appended(before, kind, delta, after) <==> after == AppendDelta(before, kind, delta)
  {
    var last := |before| - 1;
    if before != [] && before[last].kind == kind {
      assert before[last := before[last].(text := before[last].text + delta)]
          == before[..last] + [before[last].(text := before[last].text + delta)];
    }
  }

  lemma GrownExactly(before: seq<Part>, event: Event, after: seq<Part>)
    ensures Grown(before, event, after) <==> after == Absorb(before, event)
  {
    hide Appended, Merged, AppendDelta, MergeCompleted;
    match event
    case TextDelta(delta) => AppendedExactly(before, Text, delta, after);
    case ReasoningDelta(delta) => AppendedExactly(before, Reasoning, delta, after);
    case OutputItemDone(part) => MergedExactly(before, part, after);
    case _ =>
  }

  /** Any events take the parts from one state to the next, each by its own rule. */
  lemma {:induction false} EveryEventGrows(parts: seq<Part>, events: seq<Event>) returns (states: seq<seq<Part>>)
    ensures |states| == |events| + 1 && states[0] == parts && states[|events|] == AbsorbAll(parts, events)
    ensures forall k | 0 <= k < |events| :: Grown(states[k], events[k], states[k + 1])
  {
    hide Grown, Absorb;
    if events == [] {
      states := [parts];
    } else {
      var n := |events| - 1;
      var earlier := EveryEventGrows(parts, events[..n]);
      var after := AbsorbAll(parts, events);
      GrownExactly(earlier[n], events[n], after);
      states := earlier + [after];
      forall k | 0 <= k < |events|
        ensures Grown(states[k], events[k], states[k + 1])
      {
        assert k < n ==> events[k] == events[..n][k];
      }
    }
  }

  /**
   A completed reasoning item is never lost: whether or not reasoning was streamed before it, there is a
   reasoning part with all it carries afterwards, and a new one exactly when there was none.
   */
  lemma ReasoningKept(before: seq<Part>, part: Part, after: seq<Part>)
    requires Merged(before, part, after) && part.kind == Reasoning
    ensures |after| == |before| + if HasReasoning(before) then 0 else 1
    ensures exists i: nat | IsLastReasoning(after, i) ::
              && (part.text != "" ==> after[i].text == part.text) && (part.id != "" ==> after[i].id == part.id)
              && (part.summary != [] ==> after[i].summary == part.summary) && (part.encrypted != "" ==> after[i].encrypted == part.encrypted)
  {
    if HasReasoning(before) {
      var i: nat :| IsLastReasoning(before, i)
                    && Carries(after[i], before[i], part) && forall j | 0 <= j < |before| && j != i :: after[j] == before[j];
      assert IsLastReasoning(after, i);
    } else {
      assert after[|before|] == part && IsLastReasoning(after, |before|);
    }
  }

  lemma AbsorbSnoc(parts: seq<Part>, events: seq<Event>, event: Event)
    ensures AbsorbAll(parts, events + [event]) == Absorb(AbsorbAll(parts, events), event)
  {
    assert (events + [event])[..|events|] == events;
  }

  lemma CompletedAbsorbs(parts: seq<Part>, responseId: string)
    ensures Absorb(parts, Completed(responseId)) == parts
  {
  }

  lemma NothingAbsorbed()
    ensures AbsorbAll([], []) == []
  {
  }

  /** The text an event adds for certain: its delta. */
  function DeltaText(events: seq<Event>): string {
    if events == [] then ""
    else
      var last := events[|events| - 1];
      DeltaText(events[..|events| - 1]) + (if last.TextDelta? then last.delta else "")
  }

  lemma TextOfUpdateLast(parts: seq<Part>, part: Part)
    requires parts != []
    ensures TextOf(parts[|parts| - 1 := part]) == TextOf(parts[..|parts| - 1]) + if part.kind == Text then part.text else ""
  {
    var n := |parts| - 1;
    assert parts[n := part] == parts[..n] + [part];
    TextOfSnoc(parts[..n], part);
  }

  lemma {:induction false} TextOfUpdateReasoning(parts: seq<Part>, i: nat, part: Part)
    requires i < |parts| && parts[i].kind != Text && part.kind != Text
    ensures TextOf(parts[i := part]) == TextOf(parts)
  {
    var n := |parts| - 1;
    if i < n {
      assert parts[i := part][..n] == parts[..n][i := part];
      TextOfUpdateReasoning(parts[..n], i, part);
    } else {
      TextOfUpdateLast(parts, part);
    }
  }

  lemma TextOfAppendDelta(parts: seq<Part>, kind: PartType, delta: string)
    ensures TextOf(AppendDelta(parts, kind, delta)) == TextOf(parts) + if kind == Text then delta else ""
  {
    var last := |parts| - 1;
    if delta == "" {
    } else if last >= 0 && parts[last].kind == kind {
      TextOfUpdateLast(parts, parts[last].(text := parts[last].text + delta));
    } else {
      TextOfSnoc(parts, PlainPart(kind, delta));
    }
  }

  lemma OverlayKind(streamed: Part, part: Part)
    ensures Overlay(streamed, part).kind == streamed.kind
  {
  }

  /**
   A completed text part never duplicates or loses text: it is appended whole, or, when it repeats
   the trailing text part, contributes exactly what is missing from that part.
   */
  lemma TextOfMergeCompleted(parts: seq<Part>, part: Part)
    ensures part.kind != Text ==> TextOf(MergeCompleted(parts, part)) == TextOf(parts)
    ensures part.kind == Text && !Repeats(parts, part) ==> TextOf(MergeCompleted(parts, part)) == TextOf(parts) + part.text
    ensures part.kind == Text && Repeats(parts, part) ==>
              TextOf(MergeCompleted(parts, part)) == TextOf(parts) + part.text[|parts[|parts| - 1].text|..]
  {
    hide TextOf, LastReasoning, Overlay;
    var last := |parts| - 1;
    var i := LastReasoning(parts);
    if part.kind == Untyped {
    } else if part.kind == Reasoning && i >= 0 {
      OverlayKind(parts[i], part);
      TextOfUpdateReasoning(parts, i, Overlay(parts[i], part));
    } else if part.kind == Text && Repeats(parts, part) {
      TextOfUpdateLast(parts, parts[last].(text := part.text));
      TextOfUpdateLast(parts, parts[last]);
      assert parts[last := parts[last]] == parts;
      var before, more := TextOf(parts[..last]), part.text[|parts[last].text|..];
      assert part.text == parts[last].text + more;
      assert before + (parts[last].text + more) == before + parts[last].text + more;
    } else {
      TextOfSnoc(parts, part);
    }
  }

  lemma TextOfAbsorb(parts: seq<Part>, event: Event)
    requires event.OutputItemDone? ==> event.part.kind != Text
    ensures TextOf(Absorb(parts, event)) == TextOf(parts) + if event.TextDelta? then event.delta else ""
  {
    match event
    case TextDelta(delta) => TextOfAppendDelta(parts, Text, delta);
    case ReasoningDelta(delta) => TextOfAppendDelta(parts, Reasoning, delta);
    case OutputItemDone(part) => TextOfMergeCompleted(parts, part);
    case _ =>
  }

  /**
   Conservation of streamed text: as long as no completed text part arrives, the text of the
   accumulated message is what it was before plus all text deltas in order, whatever reasoning
   deltas and completed items come in between.
   */
  lemma {:induction false} AbsorbAllKeepsText(parts: seq<Part>, events: seq<Event>)
    requires forall i | 0 <= i < |events| :: events[i].OutputItemDone? ==> events[i].part.kind != Text
    ensures TextOf(AbsorbAll(parts, events)) == TextOf(parts) + DeltaText(events)
  {
    hide TextOf, Absorb;
    if events == [] {
      assert TextOf(parts) + "" == TextOf(parts);
    } else {
      var last := |events| - 1;
      var earlier := events[..last];
      AbsorbAllKeepsText(parts, earlier);
      TextOfAbsorb(AbsorbAll(parts, earlier), events[last]);
      var more := if events[last].TextDelta? then events[last].delta else "";
      assert TextOf(parts) + DeltaText(earlier) + more == TextOf(parts) + (DeltaText(earlier) + more);
    }
  }

  /** `appendOutputDelta`: the web job's copy, on a slice it owns. */
  method AppendOutputDelta(parts: seq<Part>, kind: PartType, delta: string) returns (next: seq<Part>)
    ensures next == AppendDelta(parts, kind, delta) && Appended(parts, kind, delta, next)
  {
    next := parts;
    if delta == "" {
      return;
    }
    var lastIndex := |next| - 1;
    if lastIndex >= 0 && next[lastIndex].kind == kind {
      next := next[lastIndex := next[lastIndex].(text := next[lastIndex].text + delta)];
      return;
    }
    next := next + [PlainPart(kind, delta)];
  }

  /** `mergeCompletedOutputPart`: the web job's copy, with its backward search. */
  method MergeCompletedOutputPart(parts: seq<Part>, part: Part) returns (next: seq<Part>)
    ensures next == MergeCompleted(parts, part) && Merged(parts, part, next)
  {
    MergedExactly(parts, part, MergeCompleted(parts, part));
    hide Merged;
    next := parts;
    if part.kind == Untyped {
      return;
    }
    match part.kind {
      case Reasoning =>
        var i := |next| - 1;
        while i >= 0
          invariant -1 <= i < |next|
          invariant next == parts
          invariant forall j | i < j < |parts| :: parts[j].kind != Reasoning
        {
          if next[i].kind != Reasoning {
            i := i - 1;
            continue;
          }
          if part.text != "" { next := next[i := next[i].(text := part.text)]; }
          if part.id != "" { next := next[i := next[i].(id := part.id)]; }
          if part.summary != [] { next := next[i := next[i].(summary := part.summary)]; }
          if part.encrypted != "" { next := next[i := next[i].(encrypted := part.encrypted)]; }
          assert next == parts[i := Overlay(parts[i], part)];
          return;
        }
      case Text =>
        var lastIndex := |next| - 1;
        if lastIndex >= 0 && next[lastIndex].kind == Text && part.text != "" && next[lastIndex].text <= part.text {
          next := next[lastIndex := next[lastIndex].(text := part.text)];
          return;
        }
      case _ =>
    }
    next := next + [part];
  }
}
