/**
 From the provider's response to the stored answer: the events it writes, read back, mapped and
 accumulated, are one reasoning part and the response's text.
 */
module EndToEnd {
  import opened Accumulator
  import opened Framing
  import opened Llm
  import opened Mapper
  import opened Sse
  import opened Strings
  import opened Wrappers
  import Storage
  import C = Chat
  import J = Json
  import P = Provider

  // ---------- from events to frames ----------

  /** The events numbered from `first` on. */
  function StampFrom(raws: seq<P.Raw>, first: nat): seq<P.StreamEvent> {
    seq(|raws|, i requires 0 <= i < |raws| => P.Stamp(raws[i], first + i))
  }

  /** The frames of those events and of the closing mark. */
  function FramesFrom(codec: J.Codec, raws: seq<P.Raw>, first: nat): seq<string>
    decreases |raws|
  {
    if raws == [] then [DONE] else [codec.encode(P.Stamp(raws[0], first).data)] + FramesFrom(codec, raws[1..], first + 1)
  }

  /** An event name that fits on a line. */
  predicate OneLine(kind: string) {
    (forall i | 0 <= i < |kind| :: kind[i] != '\n') && !HasSuffix(kind, "\r")
  }

  lemma PlainLine(head: string, tail: string)
    requires OneLine(head) && OneLine(tail)
    ensures Sendable(WireLine(head + tail, false))
  {
    if tail == "" {
      assert head + tail == head;
    } else {
      var line := head + tail;
      assert line[|line| - 1..] == tail[|tail| - 1..];
    }
  }

  lemma EncodedLine(codec: J.Codec, payload: J.Payload)
    requires J.Faithful(codec)
    ensures OneLine(codec.encode(payload)) && codec.encode(payload) != DONE
  {
    var text := codec.encode(payload);
    assert text[|text| - 1] == '}';
    assert DONE[|DONE| - 1] == ']';
  }

  /** The three lines of an event can be sent, and only its data means anything to the reader. */
  lemma EventSent(codec: J.Codec, event: P.StreamEvent)
    requires J.Faithful(codec) && OneLine(event.kind)
    ensures forall i | 0 <= i < 3 :: Sendable(P.EventLines(codec, event)[i])
    ensures IsIgnored("event: " + event.kind) && !IsIgnored("data: " + codec.encode(event.data)) && !IsIgnored("")
  {
    hide Sendable, OneLine, IsIgnored, HasSuffix, TrimPrefix;
    EncodedLine(codec, event.data);
    PlainHeads();
    EmptySent();
    PlainLine("event: ", event.kind);
    PlainLine("data: ", codec.encode(event.data));
    NameIgnored(event.kind);
    DataLine(codec.encode(event.data));
    NotIgnored("data: " + codec.encode(event.data));
    NotIgnored("");
  }

  lemma PlainHeads()
    ensures OneLine("event: ") && OneLine("data: ") && OneLine("[DONE]")
  {
  }

  lemma NoTexts()
    ensures LineTexts([]) == [] && Significant([]) == []
  {
  }

  lemma EmptySent()
    ensures Sendable(WireLine("", false))
  {
  }

  lemma NameIgnored(kind: string)
    ensures IsIgnored("event: " + kind)
  {
    assert ("event: " + kind)[..6] == "event:";
  }

  lemma TextsCons(line: WireLine, rest: seq<WireLine>)
    ensures LineTexts([line] + rest) == [line.text] + LineTexts(rest)
  {
    assert ([line] + rest)[1..] == rest;
  }

  lemma SignificantCons(text: string, rest: seq<string>)
    ensures Significant([text] + rest) == (if IsIgnored(text) then [] else [text]) + Significant(rest)
  {
    assert ([text] + rest)[1..] == rest;
  }

  lemma DoneSent(codec: J.Codec)
    ensures var lines := P.StreamLines(codec, []);
            && (forall i | 0 <= i < |lines| :: Sendable(lines[i]))
            && Significant(LineTexts(lines)) == DataLines([DONE])
  {
    hide Sendable, OneLine, IsIgnored, HasSuffix, TrimPrefix, Significant, LineTexts;
    PlainHeads();
    EmptySent();
    NoTexts();
    PlainLine("data: ", DONE);
    DataLine(DONE);
    NotIgnored("data: " + DONE);
    NotIgnored("");
    TextsCons(WireLine("data: [DONE]", false), [WireLine("", false)]);
    TextsCons(WireLine("", false), []);
    SignificantCons("data: [DONE]", [""]);
    SignificantCons("", []);
    assert "data: " + DONE == "data: [DONE]";
    assert [DONE][1..] == [];
    var blank := [WireLine("", false)];
    assert [WireLine("data: [DONE]", false)] + blank == P.StreamLines(codec, []);
    assert blank + [] == blank && [""] + [] == [""] && ["data: [DONE]"] + [""] == ["data: [DONE]", ""];
  }

  lemma SignificantEvent(lines: seq<WireLine>, rest: seq<WireLine>, name: string, data: string)
    requires lines == [WireLine(name, false), WireLine(data, false), WireLine("", false)]
    requires IsIgnored(name) && !IsIgnored(data) && !IsIgnored("")
    ensures Significant(LineTexts(lines + rest)) == [data, ""] + Significant(LineTexts(rest))
  {
    hide IsIgnored, LineTexts, Significant;
    var texts := LineTexts(rest);
    TextsCons(lines[2], rest);
    TextsCons(lines[1], [lines[2]] + rest);
    TextsCons(lines[0], [lines[1]] + ([lines[2]] + rest));
    assert lines + rest == [lines[0]] + ([lines[1]] + ([lines[2]] + rest));
    SignificantCons("", texts);
    SignificantCons(data, [""] + texts);
    SignificantCons(name, [data] + ([""] + texts));
  }

  lemma {:induction false} StreamSent(codec: J.Codec, raws: seq<P.Raw>, first: nat)
    requires J.Faithful(codec) && forall i | 0 <= i < |raws| :: OneLine(raws[i].kind)
    ensures var lines := P.StreamLines(codec, StampFrom(raws, first));
            && (forall i | 0 <= i < |lines| :: Sendable(lines[i]))
            && Significant(LineTexts(lines)) == DataLines(FramesFrom(codec, raws, first))
    decreases |raws|
  {
    hide J.Faithful, Sendable, IsIgnored, OneLine, Significant, LineTexts, P.Stamp;
    if raws == [] {
      DoneSent(codec);
    } else {
      var events := StampFrom(raws, first);
      var event := P.Stamp(raws[0], first);
      assert events[0] == event && events[1..] == StampFrom(raws[1..], first + 1);
      StreamSent(codec, raws[1..], first + 1);
      StampedKind(raws[0], first);
      EventSent(codec, event);
      var rest := P.StreamLines(codec, events[1..]);
      SignificantEvent(P.EventLines(codec, event), rest, "event: " + event.kind, "data: " + codec.encode(event.data));
      var frames := FramesFrom(codec, raws, first);
      assert frames[0] == codec.encode(event.data) && frames[1..] == FramesFrom(codec, raws[1..], first + 1);
    }
  }

  lemma StampedKind(raw: P.Raw, n: nat)
    ensures P.Stamp(raw, n).kind == raw.kind
  {
  }

  /** What is written for some events is framed as their encodings, in order, and the closing mark. */
  lemma BodyFrames(codec: J.Codec, raws: seq<P.Raw>, broken: bool)
    requires J.Faithful(codec) && forall i | 0 <= i < |raws| :: OneLine(raws[i].kind)
    ensures Frames(Lines(WireAll(P.StreamLines(codec, P.StampAll(raws))), broken), [], broken) == FramesFrom(codec, raws, 0)
  {
    hide Frames, Lines, WireAll, Sendable, Significant, LineTexts, OneLine, J.Faithful;
    assert P.StampAll(raws) == StampFrom(raws, 0);
    StreamSent(codec, raws, 0);
    FramingRoundTrip(P.StreamLines(codec, P.StampAll(raws)), FramesFrom(codec, raws, 0), broken);
  }

  // ---------- from frames to events ----------

  /** What the rest of a stream yields behind an event. */
  function Behind(event: Event, rest: Trace): Trace {
    Trace([event] + rest.events, rest.final)
  }

  /** The events of a body whose frames are those of `raws`. */
  function Read(codec: J.Codec, raws: seq<P.Raw>, n: nat, seen: set<string>, end: Fault): Trace {
    Events(codec, FramesFrom(codec, raws, n), seen, end)
  }

  lemma ReadStep(codec: J.Codec, raws: seq<P.Raw>, n: nat, seen: set<string>, end: Fault)
    requires J.Faithful(codec) && raws != []
    ensures var payload := P.Stamp(raws[0], n).data;
            var rest := Read(codec, raws[1..], n + 1, SeenAfter(seen, Offers(payload)), end);
            Read(codec, raws, n, seen, end) ==
              match MapPayload(seen, payload)
              case Skip => rest
              case Fail(message) => Trace([], StreamFailed(message))
              case Deliver(event) => if event.Completed? then Trace([event], EndOfStream) else Behind(event, rest)
  {
    hide MapPayload, Offers, SeenAfter, P.Stamp;
    var payload := P.Stamp(raws[0], n).data;
    EncodedLine(codec, payload);
    var frames := FramesFrom(codec, raws, n);
    assert frames[0] == codec.encode(payload) && frames[1..] == FramesFrom(codec, raws[1..], n + 1);
  }

  /** Stamping an event hides none of its own fields. */
  lemma StampedField(raw: P.Raw, n: nat, name: string)
    requires name != "type" && name != "sequence_number"
    ensures var data := P.Stamp(raw, n).data;
            (name in data <==> name in raw.fields) && (name in raw.fields ==> data[name] == raw.fields[name])
    ensures J.StringField(P.Stamp(raw, n).data, "type") == raw.kind
  {
  }

  /** Events the reader has no use for. */
  predicate Idle(kind: string) {
    kind == "response.created" || kind == "response.in_progress" || kind == "response.output_item.added"
    || kind == "response.content_part.added" || kind == "response.content_part.done"
  }

  lemma IdleSkipped(codec: J.Codec, raws: seq<P.Raw>, n: nat, seen: set<string>, end: Fault)
    requires J.Faithful(codec) && raws != [] && Idle(raws[0].kind)
    ensures Read(codec, raws, n, seen, end) == Read(codec, raws[1..], n + 1, seen, end)
  {
    hide P.Stamp, ItemPart, MessageOffers, KeyOf, ErrorMessage, Read;
    ReadStep(codec, raws, n, seen, end);
    StampedField(raws[0], n, "");
  }

  lemma ReasoningDeltaRead(codec: J.Codec, raws: seq<P.Raw>, n: nat, seen: set<string>, end: Fault, item: P.OutputItem, delta: string)
    requires J.Faithful(codec) && raws != [] && raws[0] == P.ReasoningDelta(item, delta)
    ensures Read(codec, raws, n, seen, end) == Behind(ReasoningDelta(delta), Read(codec, raws[1..], n + 1, seen, end))
  {
    hide P.Stamp, ItemPart, MessageOffers, KeyOf, ErrorMessage, Read;
    ReadStep(codec, raws, n, seen, end);
    StampedField(raws[0], n, "delta");
  }

  lemma OutputDeltaRead(codec: J.Codec, raws: seq<P.Raw>, n: nat, seen: set<string>, end: Fault, item: P.OutputItem, delta: string)
    requires J.Faithful(codec) && raws != [] && raws[0] == P.OutputDelta(item, delta)
    ensures Read(codec, raws, n, seen, end)
         == Behind(TextDelta(delta), Read(codec, raws[1..], n + 1, seen + {KeyString(ContentKey(item.id, 1, 0))}, end))
  {
    hide P.Stamp, ItemPart, MessageOffers, ErrorMessage, Read, KeyString, J.Int;
    ReadStep(codec, raws, n, seen, end);
    StampedField(raws[0], n, "delta");
    PartKey(raws[0], n, item);
    var offer := Delta(ContentKey(item.id, 1, 0), delta);
    assert [offer][1..] == [];
  }

  /** The content part that all output text of a response belongs to. */
  lemma PartKey(raw: P.Raw, n: nat, item: P.OutputItem)
    requires "item_id" in raw.fields && raw.fields["item_id"] == J.Text(item.id)
    requires "output_index" in raw.fields && raw.fields["output_index"] == J.Int(1)
    requires "content_index" in raw.fields && raw.fields["content_index"] == J.Int(0)
    ensures KeyOf(P.Stamp(raw, n).data) == ContentKey(item.id, 1, 0)
  {
    hide P.Stamp;
    StampedField(raw, n, "item_id");
    StampedField(raw, n, "output_index");
    StampedField(raw, n, "content_index");
    J.IntTruncates(1);
    J.IntTruncates(0);
  }

  lemma OutputDoneSkipped(codec: J.Codec, raws: seq<P.Raw>, n: nat, seen: set<string>, end: Fault, item: P.OutputItem)
    requires J.Faithful(codec) && raws != [] && raws[0].kind == "response.output_text.done"
    requires "item_id" in raws[0].fields && raws[0].fields["item_id"] == J.Text(item.id)
    requires "output_index" in raws[0].fields && raws[0].fields["output_index"] == J.Int(1)
    requires "content_index" in raws[0].fields && raws[0].fields["content_index"] == J.Int(0)
    requires KeyString(ContentKey(item.id, 1, 0)) in seen
    ensures Read(codec, raws, n, seen, end) == Read(codec, raws[1..], n + 1, seen, end)
  {
    hide P.Stamp, ItemPart, MessageOffers, ErrorMessage, Read, KeyString, J.Int, KeyOf;
    ReadStep(codec, raws, n, seen, end);
    StampedField(raws[0], n, "");
    PartKey(raws[0], n, item);
    var data := P.Stamp(raws[0], n).data;
    OneRefused(seen, Full(KeyOf(data), J.StringField(data, "text")));
  }

  lemma OneRefused(seen: set<string>, offer: Offer)
    requires !Accepted(seen, offer)
    ensures Passed(seen, [offer]) == "" && SeenAfter(seen, [offer]) == seen
  {
    hide KeyString;
    assert [offer][1..] == [];
  }

  /** A completed item's own JSON, seen through the accessors. */
  lemma ItemFields(item: P.OutputItem)
    ensures var fields := P.ItemJson(item).fields;
            && J.StringField(fields, "id") == item.id
            && J.StringField(fields, "type") == item.kind
            && J.StringField(fields, "encrypted_content") == item.encrypted
  {
    hide P.SummaryJson, P.ContentJson;
  }

  lemma ItemContent(item: P.OutputItem)
    ensures |J.ArrayField(P.ItemJson(item).fields, "content")| == |item.content|
  {
    hide P.SummaryJson, P.ContentJson;
  }

  lemma ItemSummary(item: P.OutputItem)
    ensures var summary := J.ArrayField(P.ItemJson(item).fields, "summary");
            && |summary| == |item.summary|
            && forall i | 0 <= i < |item.summary| :: summary[i] == P.SummaryJson(item.summary[i])
  {
    hide P.SummaryJson, P.ContentJson;
  }

  lemma ItemDone(raw: P.Raw, n: nat, item: P.OutputItem, index: int)
    requires raw == P.Raw("response.output_item.done", map["output_index" := J.Int(index), "item" := P.ItemJson(item)])
    ensures var data := P.Stamp(raw, n).data;
            && J.StringField(data, "type") == "response.output_item.done"
            && J.IntField(data, "output_index") == index
            && J.ObjectField(data, "item") == P.ItemJson(item).fields
  {
    hide P.Stamp, P.ItemJson;
    StampedField(raw, n, "output_index");
    StampedField(raw, n, "item");
    J.IntTruncates(index);
    ItemIsObject(item);
  }

  lemma ItemIsObject(item: P.OutputItem)
    ensures P.ItemJson(item).Object?
  {
  }

  /** The part a reasoning item of one summary text arrives as. */
  function ReasoningPart(item: P.OutputItem): Part {
    Part(Reasoning, "", item.id, item.summary, item.encrypted, NO_MEDIA)
  }

  lemma OneSummary(text: string)
    requires text != ""
    ensures SummaryTexts([P.SummaryJson(text)]) == [text]
  {
    assert [P.SummaryJson(text)][1..] == [];
  }

  lemma ReasoningDoneRead(codec: J.Codec, raws: seq<P.Raw>, n: nat, seen: set<string>, end: Fault, item: P.OutputItem)
    requires J.Faithful(codec) && raws != []
    requires raws[0] == P.Raw("response.output_item.done", map["output_index" := J.Int(0), "item" := P.ItemJson(item)])
    requires item.kind == "reasoning" && item.content == [] && |item.summary| == 1 && item.summary[0] != ""
    ensures Read(codec, raws, n, seen, end) == Behind(OutputItemDone(ReasoningPart(item)), Read(codec, raws[1..], n + 1, seen, end))
  {
    hide P.Stamp, P.ItemJson, P.SummaryJson, MessageOffers, ErrorMessage, Read, KeyString, J.Int, KeyOf;
    ReadStep(codec, raws, n, seen, end);
    ItemDone(raws[0], n, item, 0);
    ItemIsObject(item);
    ItemFields(item);
    ItemSummary(item);
    ItemContent(item);
    var summary := J.ArrayField(P.ItemJson(item).fields, "summary");
    assert summary == [P.SummaryJson(item.summary[0])];
    OneSummary(item.summary[0]);
    assert item.summary == [item.summary[0]];
  }

  lemma {:induction false} ContentRefused(seen: set<string>, item: string, output: int, content: seq<J.Json>)
    requires |content| == 1 && KeyString(ContentKey(item, output, 0)) in seen
    ensures Passed(seen, ContentOffers(item, output, content, 0)) == "" && SeenAfter(seen, ContentOffers(item, output, content, 0)) == seen
  {
    hide KeyString, J.StringField, Passed, SeenAfter;
    assert ContentOffers(item, output, content, 1) == [];
    NothingPassed(seen);
    if content[0].Object? {
      var offer := Full(ContentKey(item, output, 0), J.StringField(content[0].fields, "text"));
      OneRefused(seen, offer);
      assert [offer] + [] == [offer];
    }
    assert [] + ContentOffers(item, output, content, 1) == [];
  }

  lemma MessageDoneSkipped(codec: J.Codec, raws: seq<P.Raw>, n: nat, seen: set<string>, end: Fault, item: P.OutputItem)
    requires J.Faithful(codec) && raws != []
    requires raws[0] == P.Raw("response.output_item.done", map["output_index" := J.Int(1), "item" := P.ItemJson(item)])
    requires item.kind == "message" && |item.content| == 1 && KeyString(ContentKey(item.id, 1, 0)) in seen
    ensures Read(codec, raws, n, seen, end) == Read(codec, raws[1..], n + 1, seen, end)
  {
    hide P.Stamp, P.ItemJson, ErrorMessage, Read, KeyString, J.Int, KeyOf, Passed, SeenAfter, ContentOffers;
    ReadStep(codec, raws, n, seen, end);
    ItemDone(raws[0], n, item, 1);
    ItemIsObject(item);
    ItemFields(item);
    ItemContent(item);
    ContentRefused(seen, item.id, 1, J.ArrayField(P.ItemJson(item).fields, "content"));
    NothingPassed(seen);
  }

  lemma CompletedRead(codec: J.Codec, raws: seq<P.Raw>, n: nat, seen: set<string>, end: Fault, resp: P.Response)
    requires J.Faithful(codec) && raws != [] && raws[0] == P.Raw("response.completed", map["response" := P.ResponseJson(resp)])
    ensures Read(codec, raws, n, seen, end) == Trace([Completed(resp.id)], EndOfStream)
  {
    hide P.Stamp, ItemPart, MessageOffers, ErrorMessage, Read, KeyString, KeyOf, P.ResponseJson;
    ReadStep(codec, raws, n, seen, end);
    StampedField(raws[0], n, "response");
    ResponseId(resp);
  }

  lemma ResponseId(resp: P.Response)
    ensures P.ResponseJson(resp).Object? && J.StringField(P.ResponseJson(resp).fields, "id") == resp.id
  {
    hide P.ItemJson;
  }

  // ---------- the whole stream ----------

  function Ahead(events: seq<Event>, rest: Trace): Trace {
    Trace(events + rest.events, rest.final)
  }

  function ReasoningEvents(chunks: seq<string>): seq<Event> {
    seq(|chunks|, i requires 0 <= i < |chunks| => ReasoningDelta(chunks[i]))
  }

  function TextEvents(chunks: seq<string>): seq<Event> {
    seq(|chunks|, i requires 0 <= i < |chunks| => TextDelta(chunks[i]))
  }

  lemma BehindAhead(event: Event, events: seq<Event>, all: seq<Event>, rest: Trace)
    requires all == [event] + events
    ensures Behind(event, Ahead(events, rest)) == Ahead(all, rest)
  {
    assert [event] + (events + rest.events) == all + rest.events;
  }

  lemma {:induction false} ReasoningRead(
    codec: J.Codec, item: P.OutputItem, chunks: seq<string>, rest: seq<P.Raw>, n: nat, seen: set<string>, end: Fault)
    requires J.Faithful(codec)
    ensures Read(codec, P.ReasoningDeltas(item, chunks) + rest, n, seen, end)
         == Ahead(ReasoningEvents(chunks), Read(codec, rest, n + |chunks|, seen, end))
    decreases |chunks|
  {
    hide Read, J.Faithful, P.ReasoningDelta;
    var raws := P.ReasoningDeltas(item, chunks) + rest;
    if chunks == [] {
      assert raws == rest;
    } else {
      assert raws[1..] == P.ReasoningDeltas(item, chunks[1..]) + rest;
      ReasoningDeltaRead(codec, raws, n, seen, end, item, chunks[0]);
      ReasoningRead(codec, item, chunks[1..], rest, n + 1, seen, end);
      BehindAhead(ReasoningDelta(chunks[0]), ReasoningEvents(chunks[1..]), ReasoningEvents(chunks), Read(codec, rest, n + |chunks|, seen, end));
    }
  }

  lemma {:induction false} OutputRead(
    codec: J.Codec, item: P.OutputItem, chunks: seq<string>, rest: seq<P.Raw>, n: nat, seen: set<string>, end: Fault)
    requires J.Faithful(codec) && chunks != []
    ensures Read(codec, P.OutputDeltas(item, chunks) + rest, n, seen, end)
         == Ahead(TextEvents(chunks), Read(codec, rest, n + |chunks|, seen + {KeyString(ContentKey(item.id, 1, 0))}, end))
    decreases |chunks|
  {
    hide Read, J.Faithful, P.OutputDelta, KeyString;
    var raws := P.OutputDeltas(item, chunks) + rest;
    var later := seen + {KeyString(ContentKey(item.id, 1, 0))};
    OutputDeltaRead(codec, raws, n, seen, end, item, chunks[0]);
    if |chunks| == 1 {
      assert raws[1..] == rest;
      assert TextEvents(chunks) == [TextDelta(chunks[0])];
    } else {
      assert raws[1..] == P.OutputDeltas(item, chunks[1..]) + rest;
      OutputRead(codec, item, chunks[1..], rest, n + 1, later, end);
      assert later + {KeyString(ContentKey(item.id, 1, 0))} == later;
      BehindAhead(TextDelta(chunks[0]), TextEvents(chunks[1..]), TextEvents(chunks), Read(codec, rest, n + |chunks|, later, end));
    }
  }

  lemma OpeningRead(codec: J.Codec, hash: string -> string, resp: P.Response, rest: seq<P.Raw>, n: nat, seen: set<string>, end: Fault)
    requires J.Faithful(codec)
    ensures Read(codec, P.Opening(hash, resp) + rest, n, seen, end) == Read(codec, rest, n + 3, seen, end)
  {
    hide Read, J.Faithful, P.ResponseJson, P.ItemJson, P.ReasoningItem;
    var raws := P.Opening(hash, resp) + rest;
    IdleSkipped(codec, raws, n, seen, end);
    IdleSkipped(codec, raws[1..], n + 1, seen, end);
    IdleSkipped(codec, raws[1..][1..], n + 2, seen, end);
    assert raws[1..][1..][1..] == rest;
  }

  lemma ReasoningIsSummary(hash: string -> string, resp: P.Response)
    ensures var item := P.ReasoningItem(hash, resp);
            item.kind == "reasoning" && item.content == [] && item.summary == [P.ReasoningText(resp.outputText)] && item.summary[0] != ""
            && item.id != "" && item.encrypted != ""
  {
  }

  lemma MiddleRead(codec: J.Codec, hash: string -> string, resp: P.Response, rest: seq<P.Raw>, n: nat, seen: set<string>, end: Fault)
    requires J.Faithful(codec) && P.SingleMessage(resp)
    ensures Read(codec, P.Middle(hash, resp) + rest, n, seen, end)
         == Behind(OutputItemDone(ReasoningPart(P.ReasoningItem(hash, resp))), Read(codec, rest, n + 3, seen, end))
  {
    hide Read, J.Faithful, P.ResponseJson, P.ItemJson, P.ReasoningItem, P.ContentJson, ReasoningPart, P.ReasoningText;
    ReasoningIsSummary(hash, resp);
    var raws := P.Middle(hash, resp) + rest;
    ReasoningDoneRead(codec, raws, n, seen, end, P.ReasoningItem(hash, resp));
    IdleSkipped(codec, raws[1..], n + 1, seen, end);
    IdleSkipped(codec, raws[1..][1..], n + 2, seen, end);
    assert raws[1..][1..][1..] == rest;
  }

  lemma ClosingRead(codec: J.Codec, hash: string -> string, resp: P.Response, n: nat, seen: set<string>, end: Fault)
    requires J.Faithful(codec) && P.SingleMessage(resp) && KeyString(ContentKey(resp.output[0].id, 1, 0)) in seen
    ensures Read(codec, P.Closing(hash, resp), n, seen, end) == Trace([Completed(resp.id)], EndOfStream)
  {
    hide Read, J.Faithful, P.ResponseJson, P.ItemJson, P.ReasoningItem, P.ContentJson, KeyString, J.Int;
    var raws := P.Closing(hash, resp);
    OutputDoneSkipped(codec, raws, n, seen, end, resp.output[0]);
    IdleSkipped(codec, raws[1..], n + 1, seen, end);
    MessageDoneSkipped(codec, raws[1..][1..], n + 2, seen, end, resp.output[0]);
    CompletedRead(codec, raws[1..][1..][1..], n + 3, seen, end, resp.(output := [P.ReasoningItem(hash, resp), resp.output[0]]));
  }

  /** What a reader of the provider's stream is told about a response. */
  function Told(hash: string -> string, resp: P.Response): seq<Event> {
    ReasoningEvents(P.Chunks(P.ReasoningText(resp.outputText)))
    + [OutputItemDone(ReasoningPart(P.ReasoningItem(hash, resp)))]
    + TextEvents(P.Chunks(resp.outputText))
    + [Completed(resp.id)]
  }

  lemma RawsRead(codec: J.Codec, hash: string -> string, resp: P.Response, end: Fault)
    requires J.Faithful(codec) && P.SingleMessage(resp)
    ensures Read(codec, P.RawEvents(hash, resp), 0, {}, end) == Trace(Told(hash, resp), EndOfStream)
  {
    hide Read, J.Faithful, KeyString, ReasoningEvents, TextEvents, ReasoningPart, P.ReasoningText, P.ReasoningItem,
         P.Opening, P.Middle, P.Closing, P.ReasoningDeltas, P.OutputDeltas, P.Chunks;
    var item := resp.output[0];
    var reasoning := P.ReasoningItem(hash, resp);
    var thoughts, chunks := P.Chunks(P.ReasoningText(resp.outputText)), P.Chunks(resp.outputText);
    var closing := P.Closing(hash, resp);
    var answer := P.OutputDeltas(item, chunks) + closing;
    var middle := P.Middle(hash, resp) + answer;
    var thinking := P.ReasoningDeltas(reasoning, thoughts) + middle;
    assert P.RawEvents(hash, resp) == P.Opening(hash, resp) + thinking;
    ChunksExist(resp.outputText);
    var n := 3 + |thoughts| + 3;
    OpeningRead(codec, hash, resp, thinking, 0, {}, end);
    ReasoningRead(codec, reasoning, thoughts, middle, 3, {}, end);
    MiddleRead(codec, hash, resp, answer, 3 + |thoughts|, {}, end);
    OutputRead(codec, item, chunks, closing, n, {}, end);
    ClosingRead(codec, hash, resp, n + |chunks|, {} + {KeyString(ContentKey(item.id, 1, 0))}, end);
    var ending := [Completed(resp.id)];
    assert TextEvents(chunks) + ending == TextEvents(chunks) + ending;
    assert Told(hash, resp) == ReasoningEvents(thoughts) + ([OutputItemDone(ReasoningPart(reasoning))] + (TextEvents(chunks) + ending));
  }

  lemma ChunksExist(text: string)
    ensures P.Chunks(text) != []
  {
  }

  lemma KindsFit(hash: string -> string, resp: P.Response)
    requires P.SingleMessage(resp)
    ensures forall i | 0 <= i < |P.RawEvents(hash, resp)| :: OneLine(P.RawEvents(hash, resp)[i].kind)
  {
    hide OneLine, P.ResponseJson, P.ItemJson, P.ReasoningItem, P.ContentJson, P.Chunks, P.ReasoningText, J.Int;
    PlainKinds();
    PlainPartKinds();
  }

  lemma PlainKinds()
    ensures OneLine("response.created") && OneLine("response.in_progress") && OneLine("response.output_item.added")
    ensures OneLine("response.reasoning.delta") && OneLine("response.output_item.done")
  {
  }

  lemma PlainPartKinds()
    ensures OneLine("response.content_part.added") && OneLine("response.content_part.done") && OneLine("response.completed")
    ensures OneLine("response.output_text.delta") && OneLine("response.output_text.done")
  {
  }

  /**
   The provider's stream for a response, however the connection ends behind it, is read as the reasoning
   deltas, the completed reasoning item, the output deltas and the completion, and nothing else.
   */
  lemma StreamIsRead(codec: J.Codec, hash: string -> string, resp: P.Response, broken: bool)
    requires J.Faithful(codec) && P.SingleMessage(resp)
    ensures Future(codec, WireAll(P.StreamLines(codec, P.StampAll(P.RawEvents(hash, resp)))), broken, [], {})
         == Trace(Told(hash, resp), EndOfStream)
  {
    hide Frames, Lines, WireAll, Events, OneLine, J.Faithful, P.StreamLines, P.StampAll, P.RawEvents, P.SingleMessage, Told, FramesFrom;
    KindsFit(hash, resp);
    BodyFrames(codec, P.RawEvents(hash, resp), broken);
    RawsRead(codec, hash, resp, if broken then ReadFailure else EndOfStream);
  }

  // ---------- exactly once, over a stream ----------

  /** A payload that neither ends nor fails the stream. */
  predicate Ordinary(payload: J.Payload) {
    var kind := J.StringField(payload, "type");
    kind != "response.completed" && kind != "response.failed" && kind != "error"
  }

  function Encodings(codec: J.Codec, payloads: seq<J.Payload>): seq<string> {
    if payloads == [] then [] else [codec.encode(payloads[0])] + Encodings(codec, payloads[1..])
  }

  /** Everything a stream offers, whichever payloads it comes in. */
  function AllOffers(payloads: seq<J.Payload>): seq<Offer> {
    if payloads == [] then [] else Offers(payloads[0]) + AllOffers(payloads[1..])
  }

  lemma {:induction false} DeltaTextCons(event: Event, events: seq<Event>)
    ensures DeltaText([event] + events) == (if event.TextDelta? then event.delta else "") + DeltaText(events)
  {
    var all := [event] + events;
    if events == [] {
      assert all[..0] == [] && all[0] == event;
      assert DeltaText([]) == "";
    } else {
      var n := |events| - 1;
      assert all[..|all| - 1] == [event] + events[..n];
      DeltaTextCons(event, events[..n]);
    }
  }

  lemma MapsOrdinary(seen: set<string>, payload: J.Payload)
    requires Ordinary(payload)
    ensures !MapPayload(seen, payload).Fail?
    ensures MapPayload(seen, payload).Deliver? ==> !MapPayload(seen, payload).event.Completed?
  {
    hide Passed, Offers, ItemPart, ErrorMessage, J.StringField;
  }

  /** The text a stream delivers is exactly what the ledger lets through of all its offers, in order. */
  lemma {:induction false} StreamTextIsPassed(codec: J.Codec, payloads: seq<J.Payload>, seen: set<string>, end: Fault)
    requires J.Faithful(codec) && forall i | 0 <= i < |payloads| :: Ordinary(payloads[i])
    ensures var trace := Events(codec, Encodings(codec, payloads), seen, end);
            DeltaText(trace.events) == Passed(seen, AllOffers(payloads)) && trace.final == end
    decreases |payloads|
  {
    hide MapPayload, Offers, Passed, SeenAfter, Ordinary, DeltaText;
    if payloads == [] {
      NothingPassed(seen);
      NoText();
    } else {
      var payload, rest := payloads[0], payloads[1..];
      var frames := Encodings(codec, payloads);
      assert frames[0] == codec.encode(payload) && frames[1..] == Encodings(codec, rest);
      EncodedLine(codec, payload);
      MapsOrdinary(seen, payload);
      TextIsPassed(seen, payload);
      PassedAppend(seen, Offers(payload), AllOffers(rest));
      var later := SeenAfter(seen, Offers(payload));
      StreamTextIsPassed(codec, rest, later, end);
      var told := Events(codec, Encodings(codec, rest), later, end).events;
      match MapPayload(seen, payload)
      case Deliver(event) => DeltaTextCons(event, told);
      case Skip => assert "" + DeltaText(told) == DeltaText(told);
    }
  }

  lemma NoText()
    ensures DeltaText([]) == ""
  {
  }

  /**
   Exactly once, over a whole stream: when all that is offered belongs to one content part, and its deltas,
   done text and item text agree, the stream delivers the part's text once, whichever of the three routes are used.
   */
  lemma OnePartOnce(codec: J.Codec, payloads: seq<J.Payload>, end: Fault, key: ContentKey, text: string)
    requires J.Faithful(codec) && forall i | 0 <= i < |payloads| :: Ordinary(payloads[i])
    requires WellOrdered(AllOffers(payloads), key, text) && OnKey(AllOffers(payloads), key) == AllOffers(payloads) != []
    ensures DeltaText(Events(codec, Encodings(codec, payloads), {}, end).events) == text
  {
    hide Events, Passed, PassedFor, WellOrdered, DeltaText, OnKey;
    StreamTextIsPassed(codec, payloads, {}, end);
    ExactlyOnce(AllOffers(payloads), key, text);
    PassedForOnKey({}, {}, AllOffers(payloads), key);
  }

  /** With any number of parts: the delivered text is made of shares, and each well-ordered part's share is its text, once. */
  lemma EveryPartOnce(codec: J.Codec, payloads: seq<J.Payload>, end: Fault)
    requires J.Faithful(codec) && forall i | 0 <= i < |payloads| :: Ordinary(payloads[i])
    ensures var accepted := AcceptedOf({}, AllOffers(payloads));
            && DeltaText(Events(codec, Encodings(codec, payloads), {}, end).events) == Texts(accepted)
            && forall key, text | WellOrdered(AllOffers(payloads), key, text) ::
                 Texts(OnKey(accepted, key)) == if OnKey(AllOffers(payloads), key) == [] then "" else text
  {
    hide Events, Passed, AcceptedOf, Texts, WellOrdered, DeltaText, OnKey;
    var offers := AllOffers(payloads);
    StreamTextIsPassed(codec, payloads, {}, end);
    DeliveredInShares({}, offers, ContentKey("", 0, 0));
    forall key, text | WellOrdered(offers, key, text)
      ensures Texts(OnKey(AcceptedOf({}, offers), key)) == if OnKey(offers, key) == [] then "" else text
    {
      DeliveredOnce(offers, key, text);
    }
  }

  // ---------- what becomes of it ----------

  lemma {:induction false} AbsorbAllAppend(parts: seq<Part>, a: seq<Event>, b: seq<Event>)
    ensures AbsorbAll(parts, a + b) == AbsorbAll(AbsorbAll(parts, a), b)
    decreases |b|
  {
    if b == [] {
      assert a + b == a;
    } else {
      assert (a + b)[..|a + b| - 1] == a + b[..|b| - 1];
      AbsorbAllAppend(parts, a, b[..|b| - 1]);
    }
  }

  /** It makes no difference where a text is cut into deltas. */
  lemma DeltaTwice(parts: seq<Part>, kind: PartType, a: string, b: string)
    ensures AppendDelta(AppendDelta(parts, kind, a), kind, b) == AppendDelta(parts, kind, a + b)
  {
    if a == "" || b == "" {
      assert "" + b == b && a + "" == a;
    } else {
      var last := |parts| - 1;
      if last >= 0 && parts[last].kind == kind {
        assert parts[last].text + a + b == parts[last].text + (a + b);
      } else {
        assert parts + [PlainPart(kind, a + b)] == (parts + [PlainPart(kind, a)])[|parts| := PlainPart(kind, a + b)];
      }
    }
  }

  lemma {:induction false} ReasoningAccumulates(parts: seq<Part>, chunks: seq<string>)
    ensures AbsorbAll(parts, ReasoningEvents(chunks)) == AppendDelta(parts, Reasoning, Concat(chunks))
  {
    if chunks != [] {
      var n := |chunks| - 1;
      assert ReasoningEvents(chunks)[..n] == ReasoningEvents(chunks[..n]);
      ReasoningAccumulates(parts, chunks[..n]);
      DeltaTwice(parts, Reasoning, Concat(chunks[..n]), chunks[n]);
    }
  }

  lemma {:induction false} TextAccumulates(parts: seq<Part>, chunks: seq<string>)
    ensures AbsorbAll(parts, TextEvents(chunks)) == AppendDelta(parts, Text, Concat(chunks))
  {
    if chunks != [] {
      var n := |chunks| - 1;
      assert TextEvents(chunks)[..n] == TextEvents(chunks[..n]);
      TextAccumulates(parts, chunks[..n]);
      DeltaTwice(parts, Text, Concat(chunks[..n]), chunks[n]);
    }
  }

  /** The provider's reasoning as a reader should end up with it. */
  function WholeReasoning(hash: string -> string, resp: P.Response): Part {
    var item := P.ReasoningItem(hash, resp);
    var text := P.ReasoningText(resp.outputText);
    Part(Reasoning, text, item.id, [text], item.encrypted, NO_MEDIA)
  }

  /** The answer: the reasoning, and the output text unless it is empty. */
  function Answer(hash: string -> string, resp: P.Response): seq<Part> {
    [WholeReasoning(hash, resp)] + if resp.outputText == "" then [] else [PlainPart(Text, resp.outputText)]
  }

  /** The events told of a response accumulate to its reasoning and its text. */
  lemma ToldAccumulates(hash: string -> string, resp: P.Response)
    ensures AbsorbAll([], Told(hash, resp)) == Answer(hash, resp)
    ensures TextOf(Answer(hash, resp)) == resp.outputText
  {
    hide P.ReasoningText, P.ReasoningItem, ReasoningEvents, TextEvents, P.Chunks;
    var text := P.ReasoningText(resp.outputText);
    var thoughts, chunks := P.Chunks(text), P.Chunks(resp.outputText);
    var item := P.ReasoningItem(hash, resp);
    var head := ReasoningEvents(thoughts);
    var done := OutputItemDone(ReasoningPart(item));
    ReasoningIsSummary(hash, resp);
    P.ChunksSpell(text);
    P.ChunksSpell(resp.outputText);
    ReasoningAccumulates([], thoughts);
    assert AbsorbAll([], head) == [PlainPart(Reasoning, text)];
    AbsorbSnoc([], head, done);
    var reasoned := [WholeReasoning(hash, resp)];
    assert AbsorbAll([], head + [done]) == reasoned;
    AbsorbAllAppend([], head + [done], TextEvents(chunks));
    TextAccumulates(reasoned, chunks);
    AbsorbSnoc([], head + [done] + TextEvents(chunks), Completed(resp.id));
    TextOfSnoc([], reasoned[0]);
    TextOfSnoc(reasoned, PlainPart(Text, resp.outputText));
    assert [] + reasoned == reasoned && "" + "" == "" && "" + resp.outputText == resp.outputText;
  }

  /**
   End to end: what the provider writes for a response is read back as an answer whose text is exactly the
   response's output text, with one reasoning part in front that holds the provider's reasoning text, its
   identifier, its summary and its encrypted content.
   */
  lemma EndToEndText(codec: J.Codec, hash: string -> string, resp: P.Response, broken: bool)
    requires J.Faithful(codec) && P.SingleMessage(resp)
    ensures var read := Future(codec, WireAll(P.StreamLines(codec, P.StampAll(P.RawEvents(hash, resp)))), broken, [], {});
            && read.final == EndOfStream
            && AbsorbAll([], read.events) == Answer(hash, resp)
            && TextOf(AbsorbAll([], read.events)) == resp.outputText
  {
    hide Future, WireAll, P.StreamLines, P.StampAll, P.RawEvents, Told, Answer;
    StreamIsRead(codec, hash, resp, broken);
    ToldAccumulates(hash, resp);
  }

  /** Every response the provider builds is of the kind above, and its text is never empty. */
  lemma BuiltResponses(hash: string -> string, model: string, inputText: string, usage: J.Json)
    ensures var resp := P.BuildResponse(hash, model, inputText, usage);
            P.SingleMessage(resp) && resp.outputText == "Echo: " + inputText && resp.output[0].content[0].text == resp.outputText
            && |Answer(hash, resp)| == 2
  {
  }

  /** How the chat session sees a result of the client's stream. */
  function AsUpstream(r: Result<Event, Fault>): C.Upstream {
    match r
    case Success(event) => C.Item(event)
    case Failure(fault) => C.Broken(if fault == EndOfStream then Eof else Other)
  }

  /** The provider writes its response; the client opens the body. */
  method Respond(codec: J.Codec, hash: string -> string, resp: P.Response, broken: bool) returns (upstream: Stream)
    requires J.Faithful(codec) && P.SingleMessage(resp)
    ensures fresh(upstream) && upstream.Remaining() == Trace(Told(hash, resp), EndOfStream)
  {
    hide Future, WireAll, P.StreamLines, P.StampAll, P.RawEvents, Told, J.Faithful, P.SingleMessage;
    var events := P.BuildStreamEvents(hash, resp);
    var body := P.WriteStream(codec, events);
    upstream := new Stream(codec, body, broken);
    StreamIsRead(codec, hash, resp, broken);
  }

  /**
   A whole turn, from the provider's pen to the transcript: the session sends the prompt, the provider
   writes its response, and the turn stream reads it until it completes.
   */
  method StreamTurn(session: C.Session, meter: C.Meter, prompt: string, replaceFrom: Option<int>,
                    codec: J.Codec, hash: string -> string, resp: P.Response, broken: bool, fault: Option<nat>, now: nat)
    returns (r: Result<string, Cause>)
    requires J.Faithful(codec) && P.SingleMessage(resp)
    requires session.Valid() && !session.inFlight && TrimSpace(prompt) != "" && C.ReplaceFromIndex(session.messages, replaceFrom).Success?
    modifies session.Footprint(), meter
    ensures session.Valid() && !session.inFlight
    ensures r.Failure? <==> session.WriteFails(replaceFrom.Some?, fault)
    ensures r.Failure? ==> session.messages == old(session.messages)
    ensures r.Success? ==>
              && r.value == resp.id
              && session.messages == C.Extended(old(session.messages), replaceFrom.Some?, C.ReplaceFromIndex(old(session.messages), replaceFrom).value,
                                                TextMessage(User, TrimSpace(prompt)), Message(Assistant, Answer(hash, resp), Some(now)))
  {
    hide Future, WireAll, Told, Answer, J.Faithful, P.SingleMessage, AbsorbAll, Absorb, Stream.Remaining, Storage.Holds, C.Extended, TrimSpace, C.ReplaceFromIndex;
    var upstream := Respond(codec, hash, resp, broken);
    ToldAccumulates(hash, resp);
    ghost var told := Told(hash, resp);
    ToldShape(hash, resp, 0);
    NothingAbsorbed();
    var opening, sent := session.Send(meter, prompt, replaceFrom, None);
    var turn := opening.value;
    C.KeepInRange(session.messages, replaceFrom);
    ghost var k := 0;
    while true
      invariant fresh(turn) && turn.session == session && turn.meter == meter
      invariant turn.userMessage == TextMessage(User, TrimSpace(prompt)) && turn.replaceTail == replaceFrom.Some?
      invariant C.ReplaceFromIndex(session.messages, replaceFrom) == Success(turn.keepMessages)
      invariant k < |told| && upstream.Remaining() == Trace(told[k..], EndOfStream)
      invariant turn.Valid() && !turn.completed && !turn.finalized && !turn.recorded && turn.completedAt == None
      invariant turn.assistantParts == AbsorbAll([], told[..k])
      invariant session.messages == old(session.messages) && session.inFlight
      decreases |told| - k
    {
      ToldShape(hash, resp, k);
      ToldStep(told, k);
      var next := upstream.Next();
      var result := turn.Next(AsUpstream(next), fault, now);
      if result.Failure? {
        return Failure(result.error);
      }
      if result.value.Completed? {
        assert told[..k + 1] == told;
        CompletedAbsorbs(AbsorbAll([], told[..k]), resp.id);
        return Success(result.value.responseId);
      }
      k := k + 1;
    }
  }

  lemma ToldStep(told: seq<Event>, k: nat)
    requires k < |told|
    ensures told[k..] == [told[k]] + told[k + 1..]
    ensures forall event, later | told[k..] == [event] + later :: event == told[k] && later == told[k + 1..]
    ensures AbsorbAll([], told[..k + 1]) == Absorb(AbsorbAll([], told[..k]), told[k])
  {
    hide AbsorbAll, Absorb;
    assert told[..k + 1] == told[..k] + [told[k]];
    AbsorbSnoc([], told[..k], told[k]);
    forall event, later | told[k..] == [event] + later
      ensures event == told[k] && later == told[k + 1..]
    {
      assert ([event] + later)[0] == event && ([event] + later)[1..] == later;
    }
  }

  /** The completion is the last thing told, and no failure is. */
  lemma ToldShape(hash: string -> string, resp: P.Response, k: nat)
    ensures var told := Told(hash, resp);
            && |told| > 0
            && (k < |told| ==> !told[k].ErrorEvent? && (told[k].Completed? <==> k + 1 == |told|))
            && (k + 1 == |told| ==> told[k] == Completed(resp.id))
  {
    hide P.ReasoningText, P.ReasoningItem, P.Chunks, ReasoningPart;
  }
}
