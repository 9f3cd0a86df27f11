/** The order of a streamed response: what may follow what, as an automaton over its events. */
module StreamGrammar {
  import opened EndToEnd
  import opened Strings
  import opened TextRoutes
  import J = Json
  import P = Provider

  /** `closed` are the identifiers of the items that are complete, in order; an open item is the one after them. */
  datatype Phase =
    | Start
    | Created
    | Between(closed: seq<string>)
    | InItem(closed: seq<string>, id: string)
    | InPart(closed: seq<string>, id: string, text: string)
    | PartSaid(closed: seq<string>, id: string, text: string)
    | Ended
    | Malformed

  /** The event names this item, and its position. */
  predicate About(fields: J.Payload, id: string, position: nat) {
    J.StringField(fields, "item_id") == id && J.IntField(fields, "output_index") == position
  }

  /** The event carries this item, and its position. */
  predicate Bears(fields: J.Payload, id: string, position: nat) {
    J.StringField(J.ObjectField(fields, "item"), "id") == id && J.IntField(fields, "output_index") == position
  }

  predicate ListsItems(items: seq<J.Json>, ids: seq<string>) {
    |items| == |ids| && forall i | 0 <= i < |ids| :: items[i].Object? && J.StringField(items[i].fields, "id") == ids[i]
  }

  /**
   A response is created and in progress; its items are added and done one after the other, with their deltas in between;
   text comes inside a part, the done text and the part's own text are what its deltas spelled; and the completion
   lists exactly the items that are done.
   */
  function Advance(phase: Phase, raw: P.Raw): Phase {
    var fields := raw.fields;
    match phase
    case Start => if raw.kind == "response.created" then Created else Malformed
    case Created => if raw.kind == "response.in_progress" then Between([]) else Malformed
    case Between(closed) =>
      if raw.kind == "response.output_item.added" && J.IntField(fields, "output_index") == |closed| then
        InItem(closed, J.StringField(J.ObjectField(fields, "item"), "id"))
      else if raw.kind == "response.completed" && ListsItems(J.ArrayField(J.ObjectField(fields, "response"), "output"), closed) then Ended
      else Malformed
    case InItem(closed, id) =>
      if raw.kind == "response.reasoning.delta" && About(fields, id, |closed|) then phase
      else if raw.kind == "response.content_part.added" && About(fields, id, |closed|) then InPart(closed, id, "")
      else if raw.kind == "response.output_item.done" && Bears(fields, id, |closed|) then Between(closed + [id])
      else Malformed
    case InPart(closed, id, text) =>
      if raw.kind == "response.output_text.delta" && About(fields, id, |closed|) then InPart(closed, id, text + J.StringField(fields, "delta"))
      else if raw.kind == "response.output_text.done" && About(fields, id, |closed|) && J.StringField(fields, "text") == text then PartSaid(closed, id, text)
      else Malformed
    case PartSaid(closed, id, text) =>
      if raw.kind == "response.content_part.done" && About(fields, id, |closed|) && J.StringField(J.ObjectField(fields, "part"), "text") == text
      then InItem(closed, id) else Malformed
    case Ended => Malformed
    case Malformed => Malformed
  }

  function Reaches(phase: Phase, raws: seq<P.Raw>): Phase
    decreases |raws|
  {
    if raws == [] then phase else Reaches(Advance(phase, raws[0]), raws[1..])
  }

  lemma {:induction false} ReachesAppend(phase: Phase, a: seq<P.Raw>, b: seq<P.Raw>)
    ensures Reaches(phase, a + b) == Reaches(Reaches(phase, a), b)
    decreases |a|
  {
    hide Advance;
    if a == [] {
      assert a + b == b;
    } else {
      assert (a + b)[1..] == a[1..] + b;
      ReachesAppend(Advance(phase, a[0]), a[1..], b);
    }
  }

  lemma Steps(phase: Phase, a: P.Raw, b: P.Raw, c: P.Raw)
    ensures Reaches(phase, [a, b, c]) == Advance(Advance(Advance(phase, a), b), c)
  {
    hide Advance;
    assert [a, b, c] == [a] + ([b] + [c]);
    ReachesAppend(phase, [a], [b] + [c]);
    OneStep(phase, a);
    ReachesAppend(Advance(phase, a), [b], [c]);
    OneStep(Advance(phase, a), b);
    OneStep(Advance(Advance(phase, a), b), c);
  }

  lemma OneStep(phase: Phase, a: P.Raw)
    ensures Reaches(phase, [a]) == Advance(phase, a)
  {
    hide Advance;
  }

  lemma {:induction false} ReasoningStays(item: P.OutputItem, chunks: seq<string>)
    ensures Reaches(InItem([], item.id), P.ReasoningDeltas(item, chunks)) == InItem([], item.id)
    decreases |chunks|
  {
    if chunks != [] {
      var raws := P.ReasoningDeltas(item, chunks);
      assert raws[1..] == P.ReasoningDeltas(item, chunks[1..]);
      J.IntTruncates(0);
      ReasoningStays(item, chunks[1..]);
    }
  }

  lemma {:induction false} DeltasSpell(closed: string, item: P.OutputItem, chunks: seq<string>)
    ensures Reaches(InPart([closed], item.id, ""), P.OutputDeltas(item, chunks)) == InPart([closed], item.id, Concat(chunks))
    decreases |chunks|
  {
    if chunks != [] {
      var n := |chunks| - 1;
      var last := P.OutputDelta(item, chunks[n]);
      assert P.OutputDeltas(item, chunks) == P.OutputDeltas(item, chunks[..n]) + [last];
      ReachesAppend(InPart([closed], item.id, ""), P.OutputDeltas(item, chunks[..n]), [last]);
      DeltasSpell(closed, item, chunks[..n]);
      OneStep(InPart([closed], item.id, Concat(chunks[..n])), last);
      J.IntTruncates(1);
    }
  }

  lemma ItemIs(item: P.OutputItem)
    ensures P.ItemJson(item).Object? && J.StringField(P.ItemJson(item).fields, "id") == item.id
  {
    ItemFields(item);
  }

  lemma AddedOrDone(closed: seq<string>, raw: P.Raw, item: P.OutputItem)
    requires raw.fields == map["output_index" := J.Int(|closed|), "item" := P.ItemJson(item)]
    ensures raw.kind == "response.output_item.added" ==> Advance(Between(closed), raw) == InItem(closed, item.id)
    ensures raw.kind == "response.output_item.done" ==> Advance(InItem(closed, item.id), raw) == Between(closed + [item.id])
  {
    hide P.ItemJson;
    ItemIs(item);
    J.IntTruncates(|closed|);
  }

  lemma OpeningAdvances(hash: string -> string, resp: P.Response)
    ensures Reaches(Start, P.Opening(hash, resp)) == InItem([], P.ReasoningItem(hash, resp).id)
  {
    hide P.ResponseJson, P.ItemJson, P.ReasoningItem;
    var opening := P.Opening(hash, resp);
    var item := P.ReasoningItem(hash, resp);
    AddedOrDone([], opening[2], item.(status := "in_progress", summary := [], encrypted := ""));
    Steps(Start, opening[0], opening[1], opening[2]);
  }

  lemma MiddleIs(hash: string -> string, resp: P.Response) returns (done: P.Raw, added: P.Raw, part: P.Raw)
    requires P.SingleMessage(resp)
    ensures P.Middle(hash, resp) == [done, added, part]
    ensures done == P.Raw("response.output_item.done", map["output_index" := J.Int(0), "item" := P.ItemJson(P.ReasoningItem(hash, resp))])
    ensures added == P.Raw("response.output_item.added",
                           map["output_index" := J.Int(1), "item" := P.ItemJson(resp.output[0].(status := "in_progress", content := []))])
    ensures part.kind == "response.content_part.added"
    ensures "item_id" in part.fields && part.fields["item_id"] == J.Text(resp.output[0].id)
    ensures "output_index" in part.fields && part.fields["output_index"] == J.Int(1)
  {
    hide P.ItemJson, P.ReasoningItem, P.ContentJson;
    var middle := P.Middle(hash, resp);
    done, added, part := middle[0], middle[1], middle[2];
  }

  lemma MiddleAdvances(hash: string -> string, resp: P.Response)
    requires P.SingleMessage(resp)
    ensures Reaches(InItem([], P.ReasoningItem(hash, resp).id), P.Middle(hash, resp))
         == InPart([P.ReasoningItem(hash, resp).id], resp.output[0].id, "")
  {
    hide P.ItemJson, P.ReasoningItem, P.Middle, Reaches, Advance;
    var item, message := P.ReasoningItem(hash, resp), resp.output[0];
    var done, added, part := MiddleIs(hash, resp);
    AddedOrDone([], done, item);
    AddedOrDone([item.id], added, message.(status := "in_progress", content := []));
    PartAdded([item.id], message, part);
    assert [] + [item.id] == [item.id];
    Steps(InItem([], item.id), done, added, part);
  }

  lemma PartAdded(closed: seq<string>, item: P.OutputItem, raw: P.Raw)
    requires raw.kind == "response.content_part.added"
    requires "item_id" in raw.fields && raw.fields["item_id"] == J.Text(item.id)
    requires "output_index" in raw.fields && raw.fields["output_index"] == J.Int(|closed|)
    ensures Advance(InItem(closed, item.id), raw) == InPart(closed, item.id, "")
  {
    J.IntTruncates(|closed|);
  }

  /** The three events that end a message with one part. */
  lemma PartDone(closed: seq<string>, item: P.OutputItem, text: string, said: P.Raw, part: P.Raw)
    requires said == P.Raw("response.output_text.done", map[
      "item_id" := J.Text(item.id), "output_index" := J.Int(|closed|), "content_index" := J.Int(0), "text" := J.Text(text)])
    requires part == P.Raw("response.content_part.done", map[
      "item_id" := J.Text(item.id), "output_index" := J.Int(|closed|), "content_index" := J.Int(0), "part" := P.ContentJson(P.ContentPart("output_text", text))])
    ensures Advance(Advance(InPart(closed, item.id, text), said), part) == InItem(closed, item.id)
  {
    J.IntTruncates(|closed|);
  }

  lemma ResponseDone(closed: seq<string>, resp: P.Response, raw: P.Raw)
    requires raw == P.Raw("response.completed", map["response" := P.ResponseJson(resp)])
    requires |closed| == |resp.output| && forall i | 0 <= i < |closed| :: resp.output[i].id == closed[i]
    ensures Advance(Between(closed), raw) == Ended
  {
    hide P.ItemJson;
    forall i | 0 <= i < |closed|
      ensures P.ItemJson(resp.output[i]).Object? && J.StringField(P.ItemJson(resp.output[i]).fields, "id") == closed[i]
    {
      ItemIs(resp.output[i]);
    }
  }

  lemma ClosingIs(hash: string -> string, resp: P.Response) returns (said: P.Raw, part: P.Raw, done: P.Raw, completed: P.Raw)
    requires SaysItself(resp)
    ensures P.Closing(hash, resp) == [said, part, done] + [completed]
    ensures said == P.Raw("response.output_text.done", map[
      "item_id" := J.Text(resp.output[0].id), "output_index" := J.Int(1), "content_index" := J.Int(0), "text" := J.Text(resp.outputText)])
    ensures part == P.Raw("response.content_part.done", map[
      "item_id" := J.Text(resp.output[0].id), "output_index" := J.Int(1), "content_index" := J.Int(0),
      "part" := P.ContentJson(P.ContentPart("output_text", resp.outputText))])
    ensures done == P.Raw("response.output_item.done", map["output_index" := J.Int(1), "item" := P.ItemJson(resp.output[0])])
    ensures completed == P.Raw("response.completed",
                               map["response" := P.ResponseJson(resp.(output := [P.ReasoningItem(hash, resp), resp.output[0]]))])
  {
    hide P.ItemJson, P.ReasoningItem, P.ResponseJson, P.ContentJson;
    var closing := P.Closing(hash, resp);
    said, part, done, completed := closing[0], closing[1], closing[2], closing[3];
  }

  lemma ClosingAdvances(hash: string -> string, resp: P.Response)
    requires SaysItself(resp)
    ensures Reaches(InPart([P.ReasoningItem(hash, resp).id], resp.output[0].id, resp.outputText), P.Closing(hash, resp)) == Ended
  {
    hide P.ItemJson, P.ReasoningItem, P.ResponseJson, P.ContentJson, P.Closing, Reaches, Advance;
    var item, message := P.ReasoningItem(hash, resp), resp.output[0];
    var inPart := InPart([item.id], message.id, resp.outputText);
    var said, part, done, completed := ClosingIs(hash, resp);
    PartDone([item.id], message, resp.outputText, said, part);
    AddedOrDone([item.id], done, message);
    assert [item.id] + [message.id] == [item.id, message.id];
    ResponseDone([item.id, message.id], resp.(output := [item, message]), completed);
    ReachesAppend(inPart, [said, part, done], [completed]);
    Steps(inPart, said, part, done);
    OneStep(Between([item.id, message.id]), completed);
  }

  /** The provider's stream keeps that order from its first event to its last, for every response whose message says what the response says, and so for every built one. */
  lemma StreamIsInOrder(hash: string -> string, resp: P.Response)
    requires SaysItself(resp)
    ensures Reaches(Start, P.RawEvents(hash, resp)) == Ended
  {
    hide Reaches, P.Opening, P.Middle, P.Closing, P.ReasoningDeltas, P.OutputDeltas, P.Chunks, P.ReasoningText, P.ReasoningItem;
    var item, message := P.ReasoningItem(hash, resp), resp.output[0];
    var said, deltas := P.ReasoningDeltas(item, P.Chunks(P.ReasoningText(resp.outputText))), P.OutputDeltas(message, P.Chunks(resp.outputText));
    OpeningAdvances(hash, resp);
    ReasoningStays(item, P.Chunks(P.ReasoningText(resp.outputText)));
    MiddleAdvances(hash, resp);
    DeltasSpell(item.id, message, P.Chunks(resp.outputText));
    P.ChunksSpell(resp.outputText);
    ClosingAdvances(hash, resp);
    var first := P.Opening(hash, resp) + said;
    ReachesAppend(Start, P.Opening(hash, resp), said);
    ReachesAppend(Start, first, P.Middle(hash, resp));
    ReachesAppend(Start, first + P.Middle(hash, resp), deltas);
    ReachesAppend(Start, first + P.Middle(hash, resp) + deltas, P.Closing(hash, resp));
  }
}
