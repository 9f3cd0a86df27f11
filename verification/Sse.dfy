/**
 Reading a provider's event stream: bytes to lines, lines to frames, frames to events. The reference reads
 the whole body in these three passes; the stream reads it a line at a time.
 */
module Sse {
  import opened Llm
  import opened Mapper
  import opened Strings
  import opened Wrappers
  import J = Json

  /** Why the stream stops yielding events. */
  datatype Fault = EndOfStream | ReadFailure | InvalidJson | StreamFailed(message: string)

  // ---------- pass one: lines ----------

  function TrimCr(line: string): string {
    TrimSuffix(line, "\r")
  }

  /** The lines of a body. What follows the last line feed is a line too, unless it is empty or reading broke off in it. */
  function Lines(body: string, broken: bool): seq<string>
    decreases |body|
  {
    var i := IndexChar(body, '\n');
    if i >= 0 then [TrimCr(body[..i])] + Lines(body[i + 1..], broken)
    else if body == "" || broken then []
    else [TrimCr(body)]
  }

  // ---------- pass two: frames ----------

  function JoinData(data: seq<string>): string {
    if data == [] then "" else if |data| == 1 then data[0] else data[0] + "\n" + JoinData(data[1..])
  }

  predicate IsIgnored(line: string) {
    HasPrefix(line, ":") || HasPrefix(line, "event:")
  }

  /** The data of the frames, given data lines already gathered. An incomplete frame counts at the end of a body, not at a failure. */
  function Frames(lines: seq<string>, data: seq<string>, broken: bool): seq<string>
    decreases |lines|
  {
    if lines == [] then if data == [] || broken then [] else [JoinData(data)]
    else if lines[0] == "" then (if data == [] then [] else [JoinData(data)]) + Frames(lines[1..], [], broken)
    else if !IsIgnored(lines[0]) && HasPrefix(lines[0], "data:") then
      Frames(lines[1..], data + [TrimPrefix(lines[0][5..], " ")], broken)
    else Frames(lines[1..], data, broken)
  }

  // ---------- pass three: events ----------

  /** The events of a stream in order, and the fault of the call after the last. */
  datatype Trace = Trace(events: seq<Event>, final: Fault)

  const DONE := "[DONE]"

  function Events(codec: J.Codec, frames: seq<string>, seen: set<string>, end: Fault): Trace
    decreases |frames|
  {
    if frames == [] then Trace([], end)
    else if frames[0] == DONE then Trace([], EndOfStream)
    else
      match codec.decode(frames[0])
      case None => Trace([], InvalidJson)
      case Some(payload) =>
        var later := SeenAfter(seen, Offers(payload));
        match MapPayload(seen, payload)
        case Skip => Events(codec, frames[1..], later, end)
        case Fail(message) => Trace([], StreamFailed(message))
        case Deliver(event) =>
          if event.Completed? then Trace([event], EndOfStream)
          else
            var rest := Events(codec, frames[1..], later, end);
            Trace([event] + rest.events, rest.final)
  }

  /** What a stream will yield from some state on. */
  function Future(codec: J.Codec, body: string, broken: bool, data: seq<string>, seen: set<string>): Trace {
    Events(codec, Frames(Lines(body, broken), data, broken), seen, if broken then ReadFailure else EndOfStream)
  }

  // ---------- the stream ----------

  class Stream {
    const codec: J.Codec
    /** Whether reading the body ends in a failure other than its end. */
    const broken: bool
    var body: string
    var data: seq<string>
    var done: bool
    var textSeen: set<string>

    constructor (codec: J.Codec, body: string, broken: bool)
      ensures this.codec == codec && this.broken == broken && this.body == body
      ensures data == [] && !done && textSeen == {}
      ensures Remaining() == Future(codec, body, broken, [], {})
    {
      this.codec, this.broken, this.body := codec, broken, body;
      data, done, textSeen := [], false, {};
    }

    /** All that is still to come. */
    ghost function Remaining(): Trace
      reads this
    {
      if done then Trace([], EndOfStream) else Future(codec, body, broken, data, textSeen)
    }

    /** The next line, or why there is none. */
    method ReadLine() returns (r: Result<string, Fault>)
      modifies this`body
      ensures r.Success? ==> Lines(old(body), broken) == [r.value] + Lines(body, broken) && |body| < |old(body)|
      ensures r.Failure? ==> Lines(old(body), broken) == [] && r.error == End()
      ensures r.Failure? ==> body == "" && Lines(body, broken) == []
    {
      hide Lines, TrimSuffix, TrimCr;
      var i := IndexChar(body, '\n');
      if i < 0 {
        NoLineFeed(body, broken);
        var line := body;
        body := "";
        if broken {
          return Failure(ReadFailure);
        }
        if line == "" {
          return Failure(EndOfStream);
        }
        line := TrimCr(line);
        return Success(line);
      }
      LineFeed(body, broken, i);
      var line := body[..i + 1];
      body := body[i + 1..];
      line := TrimSuffix(line, "\n");
      line := TrimSuffix(line, "\r");
      return Success(line);
    }

    /** Maps a decoded payload; marks what it passes on as seen. */
    method MapDecoded(payload: J.Payload) returns (outcome: Outcome)
      modifies this`done, this`textSeen
      ensures outcome == MapPayload(old(textSeen), payload)
      ensures textSeen == SeenAfter(old(textSeen), Offers(payload))
      ensures done == (old(done) || (outcome.Deliver? && outcome.event.Completed?))
    {
      hide KeyString, ItemPart, ErrorMessage, J.StringField;
      var kind := J.StringField(payload, "type");
      if kind == "response.output_text.delta" {
        OneOffer(textSeen, Delta(KeyOf(payload), J.StringField(payload, "delta")));
        textSeen := textSeen + {KeyString(KeyOf(payload))};
        return Deliver(TextDelta(J.StringField(payload, "delta")));
      } else if kind == "response.output_text.done" {
        var key := KeyString(KeyOf(payload));
        OneOffer(textSeen, Full(KeyOf(payload), J.StringField(payload, "text")));
        if key in textSeen {
          return Skip;
        }
        var text := J.StringField(payload, "text");
        if text == "" {
          return Skip;
        }
        textSeen := textSeen + {key};
        return Deliver(TextDelta(text));
      } else if IsReasoningDelta(kind) {
        return Deliver(ReasoningDelta(J.StringField(payload, "delta")));
      } else if kind == "response.output_item.done" {
        var part := ItemPart(payload);
        if part.kind == Untyped {
          var text := MissingMessageText(payload);
          if text == "" {
            return Skip;
          }
          return Deliver(TextDelta(text));
        }
        return Deliver(OutputItemDone(part));
      } else if kind == "response.completed" {
        done := true;
        return Deliver(Completed(J.StringField(J.ObjectField(payload, "response"), "id")));
      } else if kind == "response.failed" || kind == "error" {
        return Fail(ErrorMessage(payload));
      }
      return Skip;
    }

    /** The texts of a completed message that did not arrive before. */
    method MissingMessageText(payload: J.Payload) returns (text: string)
      modifies this`textSeen
      ensures text == Passed(old(textSeen), MessageOffers(payload))
      ensures textSeen == SeenAfter(old(textSeen), MessageOffers(payload))
    {
      hide KeyString, J.StringField, Passed, SeenAfter;
      text := "";
      var item := J.ObjectField(payload, "item");
      if J.StringField(item, "type") != "message" || J.StringField(item, "role") != "assistant" {
        NothingPassed(textSeen);
        return;
      }
      var content := J.ArrayField(item, "content");
      var outputIndex := J.IntField(payload, "output_index");
      var itemId := J.StringField(item, "id");
      ghost var offers := ContentOffers(itemId, outputIndex, content, 0);
      for i := 0 to |content|
        invariant Passed(old(textSeen), offers) == text + Passed(textSeen, ContentOffers(itemId, outputIndex, content, i))
        invariant SeenAfter(old(textSeen), offers) == SeenAfter(textSeen, ContentOffers(itemId, outputIndex, content, i))
      {
        NextContent(textSeen, itemId, outputIndex, content, i);
        if !content[i].Object? {
          continue;
        }
        var fields := content[i].fields;
        if J.StringField(fields, "type") != "output_text" && J.StringField(fields, "type") != "text" {
          continue;
        }
        var partText := J.StringField(fields, "text");
        if partText == "" {
          continue;
        }
        var key := KeyString(ContentKey(itemId, outputIndex, i));
        if key in textSeen {
          continue;
        }
        textSeen := textSeen + {key};
        text := text + partText;
      }
      NothingPassed(textSeen);
    }

    /** Hands the gathered data on as one payload. `later` and `end` stand for what the rest of the body holds. */
    method Dispatch(ghost later: seq<string>, ghost end: Fault) returns (r: Result<Option<Event>, Fault>)
      requires !done
      modifies this`data, this`done, this`textSeen
      ensures data == []
      ensures r == Success(None) ==> !done
      ensures old(data) == [] ==> r == Success(None) && textSeen == old(textSeen)
      ensures old(data) != [] ==>
                Events(codec, [JoinData(old(data))] + later, old(textSeen), end) == Continued(r, done, codec, later, textSeen, end)
    {
      if |data| == 0 {
        return Success(None);
      }
      hide Events, MapPayload, Offers, SeenAfter;
      var raw := JoinData(data);
      data := [];
      if raw == DONE {
        done := true;
        DoneFrame(codec, raw, textSeen);
        return Failure(EndOfStream);
      }
      var decoded := codec.decode(raw);
      PayloadFrame(codec, raw, textSeen);
      if decoded == None {
        return Failure(InvalidJson);
      }
      var outcome := MapDecoded(decoded.value);
      match outcome {
        case Skip => r := Success(None);
        case Deliver(event) => r := Success(Some(event));
        case Fail(message) => r := Failure(StreamFailed(message));
      }
    }

    ghost function End(): Fault {
      if broken then ReadFailure else EndOfStream
    }

    lemma RemainingIs()
      ensures Remaining() == if done then Trace([], EndOfStream)
                             else Events(codec, Frames(Lines(body, broken), data, broken), textSeen, End())
    {
    }

    /** The next event, or why there is none: exactly the next of what remains. */
    method Next() returns (r: Result<Event, Fault>)
      modifies this
      ensures r.Success? ==> old(Remaining()) == Trace([r.value] + Remaining().events, Remaining().final)
      ensures r.Failure? ==> old(Remaining()) == Trace([], r.error)
    {
      hide Remaining, End, Events, Lines, Frames, IsIgnored, TrimPrefix, JoinData, HasPrefix;
      RemainingIs();
      if done {
        return Failure(EndOfStream);
      }
      ghost var all := Remaining();
      while true
        invariant !done && all == Events(codec, Frames(Lines(body, broken), data, broken), textSeen, End())
        decreases |body|
      {
        ghost var lines := Lines(body, broken);
        var line := ReadLine();
        if line.Failure? {
          RemainingIs();
          r := AtEnd(line.error);
          return;
        }
        assert lines[1..] == Lines(body, broken);
        if line.value == "" {
          BlankLine(lines, data, broken);
          var dispatched := Dispatch(Frames(lines[1..], [], broken), End());
          RemainingIs();
          if dispatched.Failure? {
            return Failure(dispatched.error);
          }
          if dispatched.value.Some? {
            return Success(dispatched.value.value);
          }
          continue;
        }
        OtherLine(lines, data, broken);
        if IsIgnored(line.value) {
          continue;
        }
        if HasPrefix(line.value, "data:") {
          data := data + [TrimPrefix(line.value[5..], " ")];
        }
      }
    }

    /** The branch of `Next` for a line that could not be read: an incomplete frame still counts at the end of the body. */
    method AtEnd(fault: Fault) returns (r: Result<Event, Fault>)
      requires !done && Lines(body, broken) == [] && fault == End()
      modifies this`data, this`done, this`textSeen
      ensures r.Success? ==> old(Remaining()) == Trace([r.value] + Remaining().events, Remaining().final)
      ensures r.Failure? ==> old(Remaining()) == Trace([], r.error)
    {
      hide Events, Lines, Frames, JoinData, Remaining;
      RemainingIs();
      LastFrame(data, broken);
      LastFrame([], broken);
      NoFrames(codec, textSeen, End());
      if fault == EndOfStream {
        var last := Dispatch([], EndOfStream);
        NoFrames(codec, textSeen, End());
        RemainingIs();
        if last.Failure? {
          return Failure(last.error);
        }
        if last.value.Some? {
          return Success(last.value.value);
        }
        done := true;
        return Failure(EndOfStream);
      }
      return Failure(fault);
    }
  }

  /** The trace of a frame and what follows it, from the result of dispatching it. */
  function Continued(r: Result<Option<Event>, Fault>, done: bool, codec: J.Codec, later: seq<string>, seen: set<string>, end: Fault): Trace {
    match r
    case Failure(fault) => Trace([], fault)
    case Success(None) => Events(codec, later, seen, end)
    case Success(Some(event)) =>
      if done then Trace([event], EndOfStream)
      else
        var rest := Events(codec, later, seen, end);
        Trace([event] + rest.events, rest.final)
  }

  lemma BlankLine(lines: seq<string>, data: seq<string>, broken: bool)
    requires lines != [] && lines[0] == ""
    ensures data == [] ==> Frames(lines, data, broken) == Frames(lines[1..], [], broken)
    ensures data != [] ==> Frames(lines, data, broken) == [JoinData(data)] + Frames(lines[1..], [], broken)
  {
    assert [] + Frames(lines[1..], [], broken) == Frames(lines[1..], [], broken);
  }

  lemma OtherLine(lines: seq<string>, data: seq<string>, broken: bool)
    requires lines != [] && lines[0] != ""
    ensures HasPrefix(lines[0], "data:") ==> |lines[0]| >= 5
    ensures Frames(lines, data, broken) ==
            Frames(lines[1..],
                   if !IsIgnored(lines[0]) && HasPrefix(lines[0], "data:") then data + [TrimPrefix(lines[0][5..], " ")] else data,
                   broken)
  {
    hide IsIgnored, TrimPrefix;
  }

  lemma LastFrame(data: seq<string>, broken: bool)
    ensures Frames([], data, broken) == if data == [] || broken then [] else [JoinData(data)] + []
  {
  }

  lemma NothingPassed(seen: set<string>)
    ensures Passed(seen, []) == "" && SeenAfter(seen, []) == seen
  {
  }

  lemma NextContent(seen: set<string>, item: string, output: int, content: seq<J.Json>, i: nat)
    requires i < |content|
    ensures var rest := ContentOffers(item, output, content, i + 1);
            var key := ContentKey(item, output, i);
            if content[i].Object? && (J.StringField(content[i].fields, "type") == "output_text" || J.StringField(content[i].fields, "type") == "text")
            then
              var text := J.StringField(content[i].fields, "text");
              if text != "" && KeyString(key) !in seen then
                && Passed(seen, ContentOffers(item, output, content, i)) == text + Passed(seen + {KeyString(key)}, rest)
                && SeenAfter(seen, ContentOffers(item, output, content, i)) == SeenAfter(seen + {KeyString(key)}, rest)
              else
                && Passed(seen, ContentOffers(item, output, content, i)) == Passed(seen, rest)
                && SeenAfter(seen, ContentOffers(item, output, content, i)) == SeenAfter(seen, rest)
            else
              && Passed(seen, ContentOffers(item, output, content, i)) == Passed(seen, rest)
              && SeenAfter(seen, ContentOffers(item, output, content, i)) == SeenAfter(seen, rest)
  {
    hide KeyString, J.StringField;
    var rest := ContentOffers(item, output, content, i + 1);
    if content[i].Object? && (J.StringField(content[i].fields, "type") == "output_text" || J.StringField(content[i].fields, "type") == "text") {
      var offer := Full(ContentKey(item, output, i), J.StringField(content[i].fields, "text"));
      assert ([offer] + rest)[1..] == rest;
      assert "" + Passed(seen, rest) == Passed(seen, rest);
    } else {
      assert [] + rest == rest;
    }
  }

  lemma DoneFrame(codec: J.Codec, raw: string, seen: set<string>)
    requires raw == DONE
    ensures forall later: seq<string>, end: Fault :: Events(codec, [raw] + later, seen, end) == Trace([], EndOfStream)
  {
  }

  lemma PayloadFrame(codec: J.Codec, raw: string, seen: set<string>)
    requires raw != DONE
    ensures forall later: seq<string>, end: Fault ::
              Events(codec, [raw] + later, seen, end)
              == match codec.decode(raw)
                 case None => Trace([], InvalidJson)
                 case Some(payload) =>
                   match MapPayload(seen, payload)
                   case Skip => Events(codec, later, SeenAfter(seen, Offers(payload)), end)
                   case Fail(message) => Trace([], StreamFailed(message))
                   case Deliver(event) =>
                     if event.Completed? then Trace([event], EndOfStream)
                     else
                       var rest := Events(codec, later, SeenAfter(seen, Offers(payload)), end);
                       Trace([event] + rest.events, rest.final)
  {
    hide MapPayload, Offers, SeenAfter;
    assert forall later: seq<string> :: ([raw] + later)[1..] == later;
  }

  lemma OneOffer(seen: set<string>, offer: Offer)
    ensures Passed(seen, [offer]) == (if Accepted(seen, offer) then offer.text else "") && SeenAfter(seen, [offer]) == Mark(seen, offer)
  {
    hide KeyString;
    assert [offer][1..] == [];
    assert offer.text + "" == offer.text;
  }

  lemma LineFeed(body: string, broken: bool, i: nat)
    requires i == IndexChar(body, '\n')
    ensures Lines(body, broken) == [TrimSuffix(body[..i], "\r")] + Lines(body[i + 1..], broken)
    ensures TrimSuffix(body[..i + 1], "\n") == body[..i]
  {
    hide TrimSuffix, IndexChar;
    TrimFeed(body[..i]);
    assert body[..i + 1] == body[..i] + "\n";
  }

  lemma TrimFeed(line: string)
    ensures TrimSuffix(line + "\n", "\n") == line
  {
    assert (line + "\n")[|line|..] == "\n";
  }

  lemma NoLineFeed(body: string, broken: bool)
    requires IndexChar(body, '\n') < 0
    ensures Lines(body, broken) == (if body == "" || broken then [] else [TrimCr(body)])
    ensures Lines("", broken) == []
  {
  }

  lemma NoFrames(codec: J.Codec, seen: set<string>, end: Fault)
    ensures Events(codec, [], seen, end) == Trace([], end)
  {
  }
}
