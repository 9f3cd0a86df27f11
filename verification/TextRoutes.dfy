/**
 The three routes of the answer's text, one by one: whichever of its deltas, its done text and its completed
 message item are struck from the provider's stream, as long as one is left the answer is the same.
 */
module TextRoutes {
  import opened Accumulator
  import opened EndToEnd
  import opened Framing
  import opened Llm
  import opened Mapper
  import opened Sse
  import opened Strings
  import J = Json
  import P = Provider

  datatype Routes = Routes(deltas: bool, done: bool, item: bool)

  /** A response whose one message is the assistant's and says in its content what the response says, as every built one does. */
  predicate SaysItself(resp: P.Response) {
    P.SingleMessage(resp) && resp.output[0].role == "assistant" && resp.output[0].content[0] == P.ContentPart("output_text", resp.outputText)
  }

  /** The message item, unless it is struck, and the completion. */
  function LastBy(hash: string -> string, resp: P.Response, item: bool): seq<P.Raw>
    requires P.SingleMessage(resp)
  {
    (if item then [P.Closing(hash, resp)[2]] else []) + [P.Closing(hash, resp)[3]]
  }

  /** What the provider writes for a response behind its deltas, without the routes that are struck. */
  function ClosingBy(hash: string -> string, resp: P.Response, routes: Routes): seq<P.Raw>
    requires P.SingleMessage(resp)
  {
    var closing := P.Closing(hash, resp);
    (if routes.done then [closing[0]] else []) + ([closing[1]] + LastBy(hash, resp, routes.item))
  }

  function RawEventsBy(hash: string -> string, resp: P.Response, routes: Routes): seq<P.Raw>
    requires P.SingleMessage(resp)
  {
    P.Opening(hash, resp)
    + (P.ReasoningDeltas(P.ReasoningItem(hash, resp), P.Chunks(P.ReasoningText(resp.outputText)))
       + (P.Middle(hash, resp)
          + ((if routes.deltas then P.OutputDeltas(resp.output[0], P.Chunks(resp.outputText)) else []) + ClosingBy(hash, resp, routes))))
  }

  /** With all routes it is the provider's own stream. */
  lemma AllRoutes(hash: string -> string, resp: P.Response)
    requires P.SingleMessage(resp)
    ensures RawEventsBy(hash, resp, Routes(true, true, true)) == P.RawEvents(hash, resp)
  {
    hide P.Opening, P.Middle, P.ReasoningDeltas, P.OutputDeltas, P.Chunks, P.ReasoningText, P.ReasoningItem, P.ResponseJson, P.ItemJson, P.ContentJson;
    var closing := P.Closing(hash, resp);
    assert closing == [closing[0]] + ([closing[1]] + ([closing[2]] + [closing[3]]));
  }

  /** The pieces in which the text arrives. */
  function PiecesBy(text: string, routes: Routes): seq<string> {
    if routes.deltas then P.Chunks(text) else if text == "" || !(routes.done || routes.item) then [] else [text]
  }

  /** What is told of a text that arrives in some pieces. */
  function ToldBy(hash: string -> string, resp: P.Response, pieces: seq<string>): seq<Event> {
    ReasoningEvents(P.Chunks(P.ReasoningText(resp.outputText)))
    + [OutputItemDone(ReasoningPart(P.ReasoningItem(hash, resp)))] + TextEvents(pieces) + [Completed(resp.id)]
  }

  lemma OneOfferTaken(seen: set<string>, offer: Offer)
    requires Accepted(seen, offer)
    ensures Passed(seen, [offer]) == offer.text && SeenAfter(seen, [offer]) == seen + {KeyString(offer.key)}
  {
    hide KeyString;
    assert [offer][1..] == [] && offer.text + "" == offer.text;
  }

  /** The done text, behind nothing else of its part. */
  lemma DoneRead(codec: J.Codec, raws: seq<P.Raw>, n: nat, seen: set<string>, end: Fault, item: P.OutputItem, text: string)
    requires J.Faithful(codec) && raws != [] && raws[0].kind == "response.output_text.done"
    requires "item_id" in raws[0].fields && raws[0].fields["item_id"] == J.Text(item.id)
    requires "output_index" in raws[0].fields && raws[0].fields["output_index"] == J.Int(1)
    requires "content_index" in raws[0].fields && raws[0].fields["content_index"] == J.Int(0)
    requires "text" in raws[0].fields && raws[0].fields["text"] == J.Text(text)
    requires KeyString(ContentKey(item.id, 1, 0)) !in seen
    ensures Read(codec, raws, n, seen, end) ==
            if text == "" then Read(codec, raws[1..], n + 1, seen, end)
            else Behind(TextDelta(text), Read(codec, raws[1..], n + 1, seen + {KeyString(ContentKey(item.id, 1, 0))}, end))
  {
    hide P.Stamp, ItemPart, MessageOffers, ErrorMessage, Read, KeyString, J.Int, KeyOf, Passed, SeenAfter;
    ReadStep(codec, raws, n, seen, end);
    StampedField(raws[0], n, "text");
    PartKey(raws[0], n, item);
    var offer := Full(ContentKey(item.id, 1, 0), text);
    if text == "" {
      OneRefused(seen, offer);
    } else {
      OneOfferTaken(seen, offer);
    }
  }

  /** The one piece of content of such a message, as it is offered. */
  lemma MessageContent(item: P.OutputItem, text: string)
    requires item.kind == "message" && item.role == "assistant" && item.content == [P.ContentPart("output_text", text)]
    ensures P.ItemJson(item).Object?
    ensures var fields := P.ItemJson(item).fields;
            && J.StringField(fields, "role") == "assistant"
            && J.ArrayField(fields, "content") == [P.ContentJson(item.content[0])]
  {
    hide P.SummaryJson, P.ContentJson;
  }

  lemma ContentOffer(item: P.OutputItem, text: string)
    ensures ContentOffers(item.id, 1, [P.ContentJson(P.ContentPart("output_text", text))], 0) == [Full(ContentKey(item.id, 1, 0), text)]
  {
    var content := [P.ContentJson(P.ContentPart("output_text", text))];
    assert ContentOffers(item.id, 1, content, 1) == [];
  }

  /** The completed message item, behind nothing else of its part. */
  lemma MessageRead(codec: J.Codec, raws: seq<P.Raw>, n: nat, seen: set<string>, end: Fault, item: P.OutputItem, text: string)
    requires J.Faithful(codec) && raws != []
    requires raws[0] == P.Raw("response.output_item.done", map["output_index" := J.Int(1), "item" := P.ItemJson(item)])
    requires item.kind == "message" && item.role == "assistant" && item.content == [P.ContentPart("output_text", text)]
    requires KeyString(ContentKey(item.id, 1, 0)) !in seen
    ensures Read(codec, raws, n, seen, end) ==
            if text == "" then Read(codec, raws[1..], n + 1, seen, end)
            else Behind(TextDelta(text), Read(codec, raws[1..], n + 1, seen + {KeyString(ContentKey(item.id, 1, 0))}, end))
  {
    hide P.Stamp, P.ItemJson, P.ContentJson, ErrorMessage, Read, KeyString, J.Int, KeyOf, Passed, SeenAfter, ContentOffers;
    ReadStep(codec, raws, n, seen, end);
    ItemDone(raws[0], n, item, 1);
    ItemFields(item);
    MessageContent(item, text);
    ContentOffer(item, text);
    var offer := Full(ContentKey(item.id, 1, 0), text);
    if text == "" {
      OneRefused(seen, offer);
    } else {
      OneOfferTaken(seen, offer);
    }
  }

  /** The message item and the completion, by themselves. */
  lemma EndRead(codec: J.Codec, hash: string -> string, resp: P.Response, item: bool, n: nat, seen: set<string>, end: Fault)
    requires J.Faithful(codec) && SaysItself(resp)
    ensures var pieces := if item && KeyString(ContentKey(resp.output[0].id, 1, 0)) !in seen && resp.outputText != "" then [resp.outputText] else [];
            Read(codec, LastBy(hash, resp, item), n, seen, end) == Ahead(TextEvents(pieces), Trace([Completed(resp.id)], EndOfStream))
  {
    hide Read, J.Faithful, P.ResponseJson, P.ItemJson, P.ReasoningItem, P.ContentJson, KeyString, J.Int, Behind;
    var message := resp.output[0];
    var key := KeyString(ContentKey(message.id, 1, 0));
    var closing := P.Closing(hash, resp);
    var raws := LastBy(hash, resp, item);
    var whole := resp.(output := [P.ReasoningItem(hash, resp), message]);
    var ending := Trace([Completed(resp.id)], EndOfStream);
    NoneAhead(ending);
    if item {
      assert message.content == [message.content[0]];
      assert raws[1..] == [closing[3]];
      if key in seen {
        MessageDoneSkipped(codec, raws, n, seen, end, message);
      } else {
        MessageRead(codec, raws, n, seen, end, message, resp.outputText);
        OneAhead(resp.outputText, ending);
      }
      CompletedRead(codec, raws[1..], n + 1, seen, end, whole);
      CompletedRead(codec, raws[1..], n + 1, seen + {key}, end, whole);
    } else {
      CompletedRead(codec, raws, n, seen, end, whole);
    }
  }

  lemma NoneAhead(rest: Trace)
    ensures Ahead(TextEvents([]), rest) == rest
  {
    assert TextEvents([]) == [] && [] + rest.events == rest.events;
  }

  lemma OneAhead(text: string, rest: Trace)
    ensures Ahead(TextEvents([text]), rest) == Behind(TextDelta(text), rest)
  {
    assert TextEvents([text]) == [TextDelta(text)];
  }

  /** Everything behind the deltas: the text comes here exactly when it did not come before. */
  lemma ClosingByRead(codec: J.Codec, hash: string -> string, resp: P.Response, routes: Routes, n: nat, seen: set<string>, end: Fault)
    requires J.Faithful(codec) && SaysItself(resp)
    requires routes.deltas <==> KeyString(ContentKey(resp.output[0].id, 1, 0)) in seen
    ensures var pieces := if routes.deltas then [] else PiecesBy(resp.outputText, routes);
            Read(codec, ClosingBy(hash, resp, routes), n, seen, end) == Ahead(TextEvents(pieces), Trace([Completed(resp.id)], EndOfStream))
  {
    hide Read, J.Faithful, P.ResponseJson, P.ItemJson, P.ReasoningItem, P.ContentJson, KeyString, J.Int, Behind, Ahead, TextEvents, P.Chunks;
    var message := resp.output[0];
    var key := KeyString(ContentKey(message.id, 1, 0));
    var closing := P.Closing(hash, resp);
    var last := LastBy(hash, resp, routes.item);
    var raws := ClosingBy(hash, resp, routes);
    var rest := [closing[1]] + last;
    var ending := Trace([Completed(resp.id)], EndOfStream);
    assert rest[1..] == last;
    NoneAhead(ending);
    OneAhead(resp.outputText, ending);
    EndRead(codec, hash, resp, routes.item, n + 1, seen, end);
    EndRead(codec, hash, resp, routes.item, n + 2, seen, end);
    EndRead(codec, hash, resp, routes.item, n + 2, seen + {key}, end);
    if routes.done {
      assert raws[1..] == rest;
      if key in seen {
        OutputDoneSkipped(codec, raws, n, seen, end, message);
      } else {
        DoneRead(codec, raws, n, seen, end, message, resp.outputText);
      }
      IdleSkipped(codec, rest, n + 1, seen, end);
      IdleSkipped(codec, rest, n + 1, seen + {key}, end);
    } else {
      assert raws == rest;
      IdleSkipped(codec, rest, n, seen, end);
    }
  }

  lemma AheadTwice(a: seq<Event>, b: seq<Event>, rest: Trace)
    ensures Ahead(a, Ahead(b, rest)) == Ahead(a + b, rest)
  {
    assert a + (b + rest.events) == a + b + rest.events;
  }

  lemma AnswerRead(codec: J.Codec, hash: string -> string, resp: P.Response, routes: Routes, n: nat, end: Fault)
    requires J.Faithful(codec) && SaysItself(resp)
    ensures var answer := (if routes.deltas then P.OutputDeltas(resp.output[0], P.Chunks(resp.outputText)) else []) + ClosingBy(hash, resp, routes);
            Read(codec, answer, n, {}, end) == Ahead(TextEvents(PiecesBy(resp.outputText, routes)), Trace([Completed(resp.id)], EndOfStream))
  {
    hide Read, J.Faithful, KeyString, TextEvents, Ahead, P.OutputDeltas, P.Chunks, ClosingBy;
    var message := resp.output[0];
    var key := KeyString(ContentKey(message.id, 1, 0));
    var chunks := P.Chunks(resp.outputText);
    var ending := Trace([Completed(resp.id)], EndOfStream);
    if routes.deltas {
      ChunksExist(resp.outputText);
      OutputRead(codec, message, chunks, ClosingBy(hash, resp, routes), n, {}, end);
      ClosingByRead(codec, hash, resp, routes, n + |chunks|, {} + {key}, end);
      NoneAhead(ending);
    } else {
      assert [] + ClosingBy(hash, resp, routes) == ClosingBy(hash, resp, routes);
      ClosingByRead(codec, hash, resp, routes, n, {}, end);
    }
  }

  lemma RawsReadBy(codec: J.Codec, hash: string -> string, resp: P.Response, routes: Routes, end: Fault)
    requires J.Faithful(codec) && SaysItself(resp)
    ensures Read(codec, RawEventsBy(hash, resp, routes), 0, {}, end) == Trace(ToldBy(hash, resp, PiecesBy(resp.outputText, routes)), EndOfStream)
  {
    hide Read, J.Faithful, KeyString, ReasoningEvents, TextEvents, ReasoningPart, P.ReasoningText, P.ReasoningItem,
         P.Opening, P.Middle, P.ReasoningDeltas, P.OutputDeltas, P.Chunks, ClosingBy, PiecesBy;
    var thoughts := P.Chunks(P.ReasoningText(resp.outputText));
    var reasoning := P.ReasoningItem(hash, resp);
    var answer := (if routes.deltas then P.OutputDeltas(resp.output[0], P.Chunks(resp.outputText)) else []) + ClosingBy(hash, resp, routes);
    var middle := P.Middle(hash, resp) + answer;
    var thinking := P.ReasoningDeltas(reasoning, thoughts) + middle;
    OpeningRead(codec, hash, resp, thinking, 0, {}, end);
    ReasoningRead(codec, reasoning, thoughts, middle, 3, {}, end);
    MiddleRead(codec, hash, resp, answer, 3 + |thoughts|, {}, end);
    AnswerRead(codec, hash, resp, routes, 3 + |thoughts| + 3, end);
    var texts, ending := TextEvents(PiecesBy(resp.outputText, routes)), [Completed(resp.id)];
    var item := [OutputItemDone(ReasoningPart(reasoning))];
    assert ReasoningEvents(thoughts) + item + texts + ending == ReasoningEvents(thoughts) + (item + (texts + ending));
  }

  lemma KindsFitBy(hash: string -> string, resp: P.Response, routes: Routes)
    requires P.SingleMessage(resp)
    ensures forall i | 0 <= i < |RawEventsBy(hash, resp, routes)| :: OneLine(RawEventsBy(hash, resp, routes)[i].kind)
  {
    hide OneLine, P.ResponseJson, P.ItemJson, P.ReasoningItem, P.ContentJson, P.Chunks, P.ReasoningText, J.Int;
    PlainKinds();
    PlainPartKinds();
  }

  /** In whatever pieces the text arrives, the events accumulate to the answer. */
  lemma ToldByAccumulates(hash: string -> string, resp: P.Response, pieces: seq<string>)
    requires Concat(pieces) == resp.outputText
    ensures AbsorbAll([], ToldBy(hash, resp, pieces)) == Answer(hash, resp)
  {
    hide P.ReasoningText, P.ReasoningItem, ReasoningEvents, TextEvents, P.Chunks, Concat;
    var text := P.ReasoningText(resp.outputText);
    var head := ReasoningEvents(P.Chunks(text));
    var done := OutputItemDone(ReasoningPart(P.ReasoningItem(hash, resp)));
    ReasoningIsSummary(hash, resp);
    P.ChunksSpell(text);
    ReasoningAccumulates([], P.Chunks(text));
    assert AbsorbAll([], head) == [PlainPart(Reasoning, text)];
    AbsorbSnoc([], head, done);
    var reasoned := [WholeReasoning(hash, resp)];
    assert AbsorbAll([], head + [done]) == reasoned;
    AbsorbAllAppend([], head + [done], TextEvents(pieces));
    TextAccumulates(reasoned, pieces);
    AbsorbSnoc([], head + [done] + TextEvents(pieces), Completed(resp.id));
  }

  lemma PiecesSpell(text: string, routes: Routes)
    requires routes.deltas || routes.done || routes.item
    ensures Concat(PiecesBy(text, routes)) == text
  {
    P.ChunksSpell(text);
    assert [text][..0] == [] && "" + text == text;
  }

  /**
   By any route: when any of the three routes are struck from the provider's stream, but not all, what is
   written, read back, mapped and accumulated is still the whole answer, its text exactly the output text.
   */
  lemma AnyRouteDelivers(codec: J.Codec, hash: string -> string, resp: P.Response, routes: Routes, broken: bool)
    requires J.Faithful(codec) && SaysItself(resp) && (routes.deltas || routes.done || routes.item)
    ensures var read := Future(codec, WireAll(P.StreamLines(codec, P.StampAll(RawEventsBy(hash, resp, routes)))), broken, [], {});
            && read.final == EndOfStream
            && AbsorbAll([], read.events) == Answer(hash, resp)
            && TextOf(AbsorbAll([], read.events)) == resp.outputText
  {
    hide Frames, Lines, WireAll, Events, OneLine, J.Faithful, P.StreamLines, P.StampAll, RawEventsBy, SaysItself, ToldBy, FramesFrom, Answer, PiecesBy;
    SelfIsSingle(resp);
    KindsFitBy(hash, resp, routes);
    BodyFrames(codec, RawEventsBy(hash, resp, routes), broken);
    RawsReadBy(codec, hash, resp, routes, if broken then ReadFailure else EndOfStream);
    PiecesSpell(resp.outputText, routes);
    ToldByAccumulates(hash, resp, PiecesBy(resp.outputText, routes));
    ToldAccumulates(hash, resp);
  }

  lemma SelfIsSingle(resp: P.Response)
    requires SaysItself(resp)
    ensures P.SingleMessage(resp)
  {
  }

  /** Every response the provider builds says itself. */
  lemma BuiltSayThemselves(hash: string -> string, model: string, inputText: string, usage: J.Json)
    ensures SaysItself(P.BuildResponse(hash, model, inputText, usage))
  {
  }
}
