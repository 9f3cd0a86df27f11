/** The deterministic provider: the event stream it writes for a response. */
module Provider {
  import opened Framing
  import opened Strings
  import J = Json

  // ---------- responses ----------

  datatype ContentPart = ContentPart(kind: string, text: string)

  datatype OutputItem = OutputItem(
    id: string, kind: string, status: string, role: string, content: seq<ContentPart>, summary: seq<string>, encrypted: string)

  datatype Response = Response(id: string, status: string, model: string, output: seq<OutputItem>, outputText: string, usage: J.Json)

  /** `deterministicID`, over any hash. */
  function DeterministicId(hash: string -> string, prefix: string, seed: string): (id: string)
    ensures id != ""
  {
    prefix + "_" + hash(seed)
  }

  /** `buildResponse`, from the model and the normalized input text. */
  function BuildResponse(hash: string -> string, model: string, inputText: string, usage: J.Json): Response {
    var outputText := "Echo: " + inputText;
    var fingerprint := model + "\n" + inputText + "\n" + outputText;
    var item := OutputItem(DeterministicId(hash, "msg", fingerprint), "message", "completed", "assistant",
                           [ContentPart("output_text", outputText)], [], "");
    Response(DeterministicId(hash, "resp", fingerprint), "completed", model, [item], outputText, usage)
  }

  /** A response with one message of one content part, as every built response is. */
  predicate SingleMessage(resp: Response) {
    |resp.output| == 1 && resp.output[0].kind == "message" && |resp.output[0].content| == 1
  }

  // ---------- JSON, with empty fields omitted ----------

  function ContentJson(part: ContentPart): J.Json {
    J.Object(map["type" := J.Text(part.kind), "text" := J.Text(part.text), "annotations" := J.Array([])])
  }

  function SummaryJson(text: string): J.Json {
    J.Object(map["type" := J.Text("summary_text"), "text" := J.Text(text)])
  }

  function ItemJson(item: OutputItem): J.Json {
    J.Object(
      map["id" := J.Text(item.id), "type" := J.Text(item.kind), "status" := J.Text(item.status)]
      + (if item.role == "" then map[] else map["role" := J.Text(item.role)])
      + (if item.content == [] then map[] else map["content" := J.Array(seq(|item.content|, i requires 0 <= i < |item.content| => ContentJson(item.content[i])))])
      + (if item.summary == [] then map[] else map["summary" := J.Array(seq(|item.summary|, i requires 0 <= i < |item.summary| => SummaryJson(item.summary[i])))])
      + (if item.encrypted == "" then map[] else map["encrypted_content" := J.Text(item.encrypted)]))
  }

  function ResponseJson(resp: Response): J.Json {
    J.Object(map[
      "id" := J.Text(resp.id), "object" := J.Text("response"), "created_at" := J.Int(0), "status" := J.Text(resp.status),
      "model" := J.Text(resp.model),
      "output" := J.Array(seq(|resp.output|, i requires 0 <= i < |resp.output| => ItemJson(resp.output[i]))),
      "output_text" := J.Text(resp.outputText), "usage" := resp.usage])
  }

  // ---------- chunks ----------

  const CHUNK_RUNES: nat := 8

  function Chunks(text: string): seq<string> {
    if |text| <= CHUNK_RUNES then [text] else [text[..CHUNK_RUNES]] + Chunks(text[CHUNK_RUNES..])
  }

  /** The chunks spell the text; none is longer than eight, and none is empty unless the text is. */
  lemma {:induction false} ChunksSpell(text: string)
    ensures Concat(Chunks(text)) == text
    ensures forall i | 0 <= i < |Chunks(text)| :: |Chunks(text)[i]| <= CHUNK_RUNES && (text != "" ==> Chunks(text)[i] != "")
    decreases |text|
  {
    if |text| <= CHUNK_RUNES {
      assert Concat([text]) == Concat([]) + text by { assert [text][..0] == []; }
    } else {
      ChunksSpell(text[CHUNK_RUNES..]);
      ConcatAppend([text[..CHUNK_RUNES]], Chunks(text[CHUNK_RUNES..]));
      assert [text[..CHUNK_RUNES]][..0] == [];
      assert Concat([text[..CHUNK_RUNES]]) == text[..CHUNK_RUNES];
    }
  }

  /** `chunkText` */
  method ChunkText(text: string) returns (chunks: seq<string>)
    ensures chunks == Chunks(text)
  {
    if |text| == 0 {
      return [""];
    }
    chunks := [];
    var start := 0;
    assert text[0..] == text;
    while start < |text|
      invariant 0 <= start
      invariant if start < |text| then chunks + Chunks(text[start..]) == Chunks(text) else chunks == Chunks(text)
    {
      var end := if start + CHUNK_RUNES < |text| then start + CHUNK_RUNES else |text|;
      assert text[start..end] == text[start..][..end - start];
      assert start + CHUNK_RUNES < |text| ==> text[start..][CHUNK_RUNES..] == text[start + CHUNK_RUNES..];
      assert end == |text| ==> text[start..end] == text[start..];
      chunks := chunks + [text[start..end]];
      start := start + CHUNK_RUNES;
    }
  }

  // ---------- the events ----------

  /** An event before it is stamped with its type and number. */
  datatype Raw = Raw(kind: string, fields: J.Payload)

  datatype StreamEvent = StreamEvent(kind: string, data: J.Payload)

  function Stamp(raw: Raw, sequence: nat): StreamEvent {
    StreamEvent(raw.kind, raw.fields["type" := J.Text(raw.kind)]["sequence_number" := J.Int(sequence)])
  }

  function StampAll(raws: seq<Raw>): seq<StreamEvent> {
    seq(|raws|, i requires 0 <= i < |raws| => Stamp(raws[i], i))
  }

  function ReasoningText(outputText: string): string {
    if TrimSpace(outputText) == "" then "Preparing a concise fake response."
    else "Preparing a concise fake response before streaming the answer."
  }

  function ReasoningItem(hash: string -> string, resp: Response): OutputItem {
    var text := ReasoningText(resp.outputText);
    OutputItem(DeterministicId(hash, "rs", resp.id + "\n" + text), "reasoning", "completed", "", [], [text],
               DeterministicId(hash, "encrypted", resp.id))
  }

  function Opening(hash: string -> string, resp: Response): seq<Raw> {
    var inProgress := ResponseJson(resp.(status := "in_progress", output := [], outputText := ""));
    [Raw("response.created", map["response" := inProgress]),
     Raw("response.in_progress", map["response" := inProgress]),
     Raw("response.output_item.added", map[
       "output_index" := J.Int(0),
       "item" := ItemJson(ReasoningItem(hash, resp).(status := "in_progress", summary := [], encrypted := ""))])]
  }

  function ReasoningDelta(item: OutputItem, delta: string): Raw {
    Raw("response.reasoning.delta", map["item_id" := J.Text(item.id), "output_index" := J.Int(0), "delta" := J.Text(delta)])
  }

  function ReasoningDeltas(item: OutputItem, chunks: seq<string>): seq<Raw> {
    seq(|chunks|, i requires 0 <= i < |chunks| => ReasoningDelta(item, chunks[i]))
  }

  function Middle(hash: string -> string, resp: Response): seq<Raw>
    requires SingleMessage(resp)
  {
    var item := resp.output[0];
    [Raw("response.output_item.done", map["output_index" := J.Int(0), "item" := ItemJson(ReasoningItem(hash, resp))]),
     Raw("response.output_item.added", map["output_index" := J.Int(1), "item" := ItemJson(item.(status := "in_progress", content := []))]),
     Raw("response.content_part.added", map[
       "item_id" := J.Text(item.id), "output_index" := J.Int(1), "content_index" := J.Int(0),
       "part" := ContentJson(item.content[0].(text := ""))])]
  }

  function OutputDelta(item: OutputItem, delta: string): Raw {
    Raw("response.output_text.delta", map[
      "item_id" := J.Text(item.id), "output_index" := J.Int(1), "content_index" := J.Int(0), "delta" := J.Text(delta)])
  }

  function OutputDeltas(item: OutputItem, chunks: seq<string>): seq<Raw> {
    seq(|chunks|, i requires 0 <= i < |chunks| => OutputDelta(item, chunks[i]))
  }

  function Closing(hash: string -> string, resp: Response): seq<Raw>
    requires SingleMessage(resp)
  {
    var item := resp.output[0];
    [Raw("response.output_text.done", map[
       "item_id" := J.Text(item.id), "output_index" := J.Int(1), "content_index" := J.Int(0), "text" := J.Text(resp.outputText)]),
     Raw("response.content_part.done", map[
       "item_id" := J.Text(item.id), "output_index" := J.Int(1), "content_index" := J.Int(0), "part" := ContentJson(item.content[0])]),
     Raw("response.output_item.done", map["output_index" := J.Int(1), "item" := ItemJson(item)]),
     Raw("response.completed", map["response" := ResponseJson(resp.(output := [ReasoningItem(hash, resp), item]))])]
  }

  /** All events of a response, in order. */
  function RawEvents(hash: string -> string, resp: Response): seq<Raw>
    requires SingleMessage(resp)
  {
    Opening(hash, resp)
    + ReasoningDeltas(ReasoningItem(hash, resp), Chunks(ReasoningText(resp.outputText)))
    + Middle(hash, resp)
    + OutputDeltas(resp.output[0], Chunks(resp.outputText))
    + Closing(hash, resp)
  }

  /** The list of events and the number of the next one. */
  class EventList {
    var events: seq<StreamEvent>
    var sequence: nat

    constructor ()
      ensures events == [] && sequence == 0
    {
      events, sequence := [], 0;
    }

    method Next(kind: string, fields: J.Payload, ghost before: seq<Raw>)
      requires events == StampAll(before) && sequence == |before|
      modifies this
      ensures events == StampAll(before + [Raw(kind, fields)]) && sequence == |before| + 1
    {
      var data := fields["type" := J.Text(kind)];
      data := data["sequence_number" := J.Int(sequence)];
      sequence := sequence + 1;
      events := events + [StreamEvent(kind, data)];
    }

    method NextAll(raws: seq<Raw>, ghost before: seq<Raw>)
      requires events == StampAll(before) && sequence == |before|
      modifies this
      ensures events == StampAll(before + raws) && sequence == |before| + |raws|
    {
      hide StampAll;
      assert before + raws[..0] == before;
      for i := 0 to |raws|
        invariant events == StampAll(before + raws[..i]) && sequence == |before| + i
      {
        Next(raws[i].kind, raws[i].fields, before + raws[..i]);
        assert before + raws[..i] + [Raw(raws[i].kind, raws[i].fields)] == before + raws[..i + 1];
      }
      assert raws[..|raws|] == raws;
    }
  }

  /** `buildStreamEvents` */
  method BuildStreamEvents(hash: string -> string, resp: Response) returns (events: seq<StreamEvent>)
    requires SingleMessage(resp)
    ensures events == StampAll(RawEvents(hash, resp))
  {
    hide Opening, Middle, Closing, OutputDelta, ReasoningDelta, StampAll, Chunks, ReasoningText;
    var list := new EventList();
    NothingStamped();
    var reasoningText := ReasoningText(resp.outputText);
    var reasoning := ReasoningItem(hash, resp);
    list.NextAll(Opening(hash, resp), []);
    assert [] + Opening(hash, resp) == Opening(hash, resp);
    ghost var written := Opening(hash, resp);
    var deltas := ChunkText(reasoningText);
    assert written + ReasoningDeltas(reasoning, deltas)[..0] == written;
    for i := 0 to |deltas|
      invariant list.events == StampAll(written + ReasoningDeltas(reasoning, deltas)[..i]) && list.sequence == |written| + i
    {
      var raw := ReasoningDelta(reasoning, deltas[i]);
      list.Next(raw.kind, raw.fields, written + ReasoningDeltas(reasoning, deltas)[..i]);
      assert written + ReasoningDeltas(reasoning, deltas)[..i] + [raw] == written + ReasoningDeltas(reasoning, deltas)[..i + 1];
    }
    written := written + ReasoningDeltas(reasoning, deltas);
    assert ReasoningDeltas(reasoning, deltas)[..|deltas|] == ReasoningDeltas(reasoning, deltas);
    list.NextAll(Middle(hash, resp), written);
    written := written + Middle(hash, resp);
    var item := resp.output[0];
    deltas := ChunkText(resp.outputText);
    assert written + OutputDeltas(item, deltas)[..0] == written;
    for i := 0 to |deltas|
      invariant list.events == StampAll(written + OutputDeltas(item, deltas)[..i]) && list.sequence == |written| + i
    {
      var raw := OutputDelta(item, deltas[i]);
      list.Next(raw.kind, raw.fields, written + OutputDeltas(item, deltas)[..i]);
      assert written + OutputDeltas(item, deltas)[..i] + [raw] == written + OutputDeltas(item, deltas)[..i + 1];
    }
    written := written + OutputDeltas(item, deltas);
    assert OutputDeltas(item, deltas)[..|deltas|] == OutputDeltas(item, deltas);
    list.NextAll(Closing(hash, resp), written);
    events := list.events;
  }

  lemma NothingStamped()
    ensures StampAll([]) == []
  {
  }

  // ---------- writing ----------

  function EventLines(codec: J.Codec, event: StreamEvent): seq<WireLine> {
    [WireLine("event: " + event.kind, false), WireLine("data: " + codec.encode(event.data), false), WireLine("", false)]
  }

  function StreamLines(codec: J.Codec, events: seq<StreamEvent>): seq<WireLine> {
    if events == [] then [WireLine("data: [DONE]", false), WireLine("", false)]
    else EventLines(codec, events[0]) + StreamLines(codec, events[1..])
  }

  lemma {:induction false} WireAppend(a: seq<WireLine>, b: seq<WireLine>)
    ensures WireAll(a + b) == WireAll(a) + WireAll(b)
    decreases |a|
  {
    if a == [] {
      assert a + b == b && "" + WireAll(b) == WireAll(b);
    } else {
      WireAppend(a[1..], b);
      assert (a + b)[1..] == a[1..] + b;
    }
  }

  lemma WireEvent(codec: J.Codec, event: StreamEvent)
    ensures WireAll(EventLines(codec, event)) == "event: " + event.kind + "\n" + "data: " + codec.encode(event.data) + "\n\n"
  {
    var lines := EventLines(codec, event);
    assert lines[1..][1..][1..] == [];
    assert WireAll(lines[1..][1..]) == "\n" by { assert Wire(WireLine("", false)) == "\n"; assert "\n" + "" == "\n"; }
    assert "\n" + "\n" == "\n\n";
  }

  /** The body of a streamed response: every event by `writeSSEEvent`, then `writeSSEDone`. */
  method WriteStream(codec: J.Codec, events: seq<StreamEvent>) returns (body: string)
    ensures body == WireAll(StreamLines(codec, events))
  {
    hide WireAll, EventLines;
    body := "";
    assert events[0..] == events;
    assert "" + WireAll(StreamLines(codec, events)) == WireAll(StreamLines(codec, events));
    for i := 0 to |events|
      invariant body + WireAll(StreamLines(codec, events[i..])) == WireAll(StreamLines(codec, events))
    {
      assert events[i..][0] == events[i] && events[i..][1..] == events[i + 1..];
      WireAppend(EventLines(codec, events[i]), StreamLines(codec, events[i + 1..]));
      WireEvent(codec, events[i]);
      ghost var written := body;
      body := body + ("event: " + events[i].kind + "\n");
      body := body + ("data: " + codec.encode(events[i].data) + "\n\n");
      assert body == written + WireAll(EventLines(codec, events[i]));
    }
    WireDone();
    body := body + "data: [DONE]\n\n";
  }

  lemma WireDone()
    ensures WireAll([WireLine("data: [DONE]", false), WireLine("", false)]) == "data: [DONE]\n\n"
  {
    var lines := [WireLine("data: [DONE]", false), WireLine("", false)];
    assert lines[1..] == [WireLine("", false)] && lines[1..][1..] == [];
    assert Wire(WireLine("", false)) == "\n" && "\n" + "" == "\n";
  }
}
