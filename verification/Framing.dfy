/** What the reader makes of a body that a writer framed, and how long reading a body can take. */
module Framing {
  import opened Llm
  import opened Sse
  import opened Strings
  import J = Json

  // ---------- wire lines ----------

  /** A line as it is sent, ended by LF or by CR LF. */
  datatype WireLine = WireLine(text: string, crlf: bool)

  function Wire(line: WireLine): string {
    line.text + if line.crlf then "\r\n" else "\n"
  }

  function WireAll(lines: seq<WireLine>): string {
    if lines == [] then "" else Wire(lines[0]) + WireAll(lines[1..])
  }

  /** A line the reader gets back as it was: without line feeds, and, when ended by LF alone, without a CR at its end. */
  predicate Sendable(line: WireLine) {
    (forall i | 0 <= i < |line.text| :: line.text[i] != '\n') && (line.crlf || !HasSuffix(line.text, "\r"))
  }

  function LineTexts(lines: seq<WireLine>): seq<string> {
    if lines == [] then [] else [lines[0].text] + LineTexts(lines[1..])
  }

  lemma IndexCharFirst(s: string, rest: string, c: char)
    requires forall i | 0 <= i < |s| :: s[i] != c
    ensures IndexChar(s + [c] + rest, c) == |s|
  {
    var t := s + [c] + rest;
    assert t[|s|] == c && forall i | 0 <= i < |s| :: t[i] == s[i];
    IndexCharAt(t, c, |s|);
  }

  lemma TrimCrWire(text: string)
    ensures TrimCr(text + "\r") == text
    ensures !HasSuffix(text, "\r") ==> TrimCr(text) == text
    ensures HasSuffix(text, "\r") ==> |TrimCr(text)| == |text| - 1
  {
    assert (text + "\r")[|text|..] == "\r";
  }

  lemma LineSent(line: WireLine, rest: string, broken: bool)
    requires Sendable(line)
    ensures Lines(Wire(line) + rest, broken) == [line.text] + Lines(rest, broken)
  {
    hide TrimSuffix, HasSuffix, TrimCr;
    TrimCrWire(line.text);
    var body := Wire(line) + rest;
    if line.crlf {
      assert body == (line.text + "\r") + ['\n'] + rest;
      assert forall i | 0 <= i < |line.text + "\r"| :: (line.text + "\r")[i] != '\n';
      IndexCharFirst(line.text + "\r", rest, '\n');
      assert body[..|line.text| + 1] == line.text + "\r" && body[|line.text| + 2..] == rest;
    } else {
      assert body == line.text + ['\n'] + rest;
      IndexCharFirst(line.text, rest, '\n');
      assert body[..|line.text|] == line.text && body[|line.text| + 1..] == rest;
    }
  }

  lemma {:induction false} LinesSent(lines: seq<WireLine>, rest: string, broken: bool)
    requires forall i | 0 <= i < |lines| :: Sendable(lines[i])
    ensures Lines(WireAll(lines) + rest, broken) == LineTexts(lines) + Lines(rest, broken)
  {
    hide Lines, Wire, Sendable;
    if lines == [] {
      assert WireAll(lines) + rest == rest && LineTexts(lines) + Lines(rest, broken) == Lines(rest, broken);
    } else {
      LinesSent(lines[1..], rest, broken);
      LineSent(lines[0], WireAll(lines[1..]) + rest, broken);
      assert WireAll(lines) + rest == Wire(lines[0]) + (WireAll(lines[1..]) + rest);
      assert LineTexts(lines) + Lines(rest, broken) == [lines[0].text] + (LineTexts(lines[1..]) + Lines(rest, broken));
    }
  }

  // ---------- frames ----------

  /** Comments and event names mean nothing to the reader. */
  function Significant(texts: seq<string>): seq<string> {
    if texts == [] then [] else (if IsIgnored(texts[0]) then [] else [texts[0]]) + Significant(texts[1..])
  }

  lemma {:induction false} FramesSignificant(texts: seq<string>, data: seq<string>, broken: bool)
    ensures Frames(texts, data, broken) == Frames(Significant(texts), data, broken)
    decreases |texts|
  {
    hide IsIgnored, TrimPrefix;
    if texts != [] {
      var line, rest := texts[0], texts[1..];
      NotIgnored(line);
      if IsIgnored(line) {
        OtherLine(texts, data, broken);
        FramesSignificant(rest, data, broken);
        assert Significant(texts) == Significant(rest);
      } else {
        assert Significant(texts)[0] == line && Significant(texts)[1..] == Significant(rest);
        FramesSignificant(rest, [], broken);
        FramesSignificant(rest, data, broken);
        if HasPrefix(line, "data:") {
          FramesSignificant(rest, data + [TrimPrefix(line[5..], " ")], broken);
        }
      }
    }
  }

  lemma NotIgnored(line: string)
    ensures line == "" || HasPrefix(line, "data:") ==> !IsIgnored(line)
  {
    if HasPrefix(line, "data:") {
      assert line[0] == "data:"[0];
    }
  }

  /** The lines that carry payloads, each in a frame of its own. */
  function DataLines(payloads: seq<string>): seq<string> {
    if payloads == [] then [] else ["data: " + payloads[0], ""] + DataLines(payloads[1..])
  }

  lemma DataLine(payload: string)
    ensures HasPrefix("data: " + payload, "data:") && TrimPrefix(("data: " + payload)[5..], " ") == payload
  {
    assert ("data: " + payload)[..5] == "data:";
    assert ("data: " + payload)[5..] == " " + payload;
    assert (" " + payload)[..1] == " " && (" " + payload)[1..] == payload;
  }

  lemma {:induction false} FramesOfData(payloads: seq<string>, broken: bool)
    ensures Frames(DataLines(payloads), [], broken) == payloads
  {
    hide IsIgnored, TrimPrefix, HasPrefix;
    if payloads != [] {
      var lines := DataLines(payloads);
      var p := payloads[0];
      DataLine(p);
      NotIgnored("data: " + p);
      FramesOfData(payloads[1..], broken);
      assert lines[0] == "data: " + p && lines[1..][0] == "" && lines[1..][1..] == DataLines(payloads[1..]);
      OtherLine(lines, [], broken);
      BlankLine(lines[1..], [p], broken);
      assert [] + [p] == [p];
    }
  }

  /**
   Any payloads framed one by one are recovered in order, unchanged by comment lines, event names and
   the choice of line ending, and whatever ends the body.
   */
  lemma FramingRoundTrip(lines: seq<WireLine>, payloads: seq<string>, broken: bool)
    requires (forall i | 0 <= i < |lines| :: Sendable(lines[i])) && Significant(LineTexts(lines)) == DataLines(payloads)
    ensures Frames(Lines(WireAll(lines), broken), [], broken) == payloads
  {
    hide Lines, WireAll, Sendable, Frames, Significant;
    LinesSent(lines, "", broken);
    assert WireAll(lines) + "" == WireAll(lines);
    NoLines(broken);
    assert LineTexts(lines) + [] == LineTexts(lines);
    FramesSignificant(LineTexts(lines), [], broken);
    FramesOfData(payloads, broken);
  }

  lemma NoLines(broken: bool)
    ensures Lines("", broken) == []
  {
  }

  lemma EmptyLine()
    ensures Lines("\n", false) == [""]
  {
    TrimCrWire("");
    NotCr();
    NoLines(false);
    assert "\n"[..0] == "" && "\n"[1..] == "";
  }

  lemma TwoLines(line: string)
    requires forall i | 0 <= i < |line| :: line[i] != '\n'
    ensures Lines(line + "\n\n", false) == [TrimCr(line), ""]
  {
    hide Lines, TrimSuffix;
    EmptyLine();
    assert line + "\n\n" == line + ['\n'] + "\n";
    IndexCharFirst(line, "\n", '\n');
    LineFeed(line + "\n\n", false, |line|);
    assert (line + "\n\n")[..|line|] == line && (line + "\n\n")[|line| + 1..] == "\n";
  }

  lemma FrameOf(kept: string)
    ensures Frames(["data: " + kept, ""], [], false) == [kept]
  {
    hide Frames;
    FramesOfData([kept], false);
    assert [kept][1..] == [];
    assert ["data: " + kept, ""] + DataLines([]) == ["data: " + kept, ""];
  }

  /** A payload without line feeds survives exactly when it does not end in a CR, which the reader takes for part of the line ending. */
  lemma TrailingCrIsLost(payload: string)
    requires forall i | 0 <= i < |payload| :: payload[i] != '\n'
    ensures Frames(Lines("data: " + payload + "\n\n", false), [], false) == [payload] <==> !HasSuffix(payload, "\r")
  {
    hide HasSuffix, TrimCr, Lines, Frames;
    DataHasNoLineFeed(payload);
    TrimCrWire(payload);
    DataHasNoCr();
    SuffixBehind("data: ", payload);
    TwoLines("data: " + payload);
    FrameOf(TrimCr(payload));
    assert [TrimCr(payload)][0] == TrimCr(payload) && [payload][0] == payload;
  }

  lemma DataHasNoLineFeed(payload: string)
    requires forall i | 0 <= i < |payload| :: payload[i] != '\n'
    ensures forall i | 0 <= i < |"data: " + payload| :: ("data: " + payload)[i] != '\n'
  {
  }

  lemma DataHasNoCr()
    ensures !HasSuffix("data: ", "\r")
  {
  }

  lemma NotCr()
    ensures !HasSuffix("", "\r")
  {
  }

  lemma SuffixBehind(head: string, tail: string)
    requires !HasSuffix(head, "\r")
    ensures HasSuffix(head + tail, "\r") <==> HasSuffix(tail, "\r")
    ensures TrimCr(head + tail) == head + TrimCr(tail)
  {
    if tail == "" {
      assert head + tail == head;
    } else {
      assert (head + tail)[|head + tail| - 1] == tail[|tail| - 1];
    }
  }

  // ---------- payloads of several lines ----------

  /** What stands between the line feeds of a payload. */
  function FeedLines(payload: string): (parts: seq<string>)
    ensures parts != []
    decreases |payload|
  {
    var i := IndexChar(payload, '\n');
    if i < 0 then [payload] else [payload[..i]] + FeedLines(payload[i + 1..])
  }

  lemma {:induction false} FeedLinesJoin(payload: string)
    ensures JoinData(FeedLines(payload)) == payload
    decreases |payload|
  {
    hide JoinData, IndexChar;
    var i := IndexChar(payload, '\n');
    if i >= 0 {
      var line, rest := payload[..i], payload[i + 1..];
      FeedLinesJoin(rest);
      JoinedApart([line], FeedLines(rest));
      OneDataLine(line);
      assert payload == line + "\n" + rest;
    } else {
      OneDataLine(payload);
    }
  }

  lemma OneDataLine(line: string)
    ensures JoinData([line]) == line
  {
  }

  /** Data lines put together one after the other are put together with a line feed between them. */
  lemma {:induction false} JoinedApart(a: seq<string>, b: seq<string>)
    requires a != [] && b != []
    ensures JoinData(a + b) == JoinData(a) + "\n" + JoinData(b)
  {
    assert (a + b)[1..] == a[1..] + b;
    if |a| == 1 {
      assert a[1..] + b == b;
    } else {
      JoinedApart(a[1..], b);
      assert a[0] + "\n" + (JoinData(a[1..]) + "\n" + JoinData(b)) == a[0] + "\n" + JoinData(a[1..]) + "\n" + JoinData(b);
    }
  }

  /** One space behind the colon belongs to the notation, and may be missing unless the text itself starts with one. */
  predicate IsDataLine(line: string, text: string) {
    line == "data: " + text || (line == "data:" + text && (text == "" || text[0] != ' '))
  }

  /** A payload on the wire: a data line for each of its lines. */
  predicate IsFrame(texts: seq<string>, payload: string) {
    var parts := FeedLines(payload);
    |texts| == |parts| && forall i | 0 <= i < |parts| :: IsDataLine(texts[i], parts[i])
  }

  /** Payloads on the wire, each in a frame of its own behind which a blank line stands. */
  predicate AreFrames(texts: seq<string>, payloads: seq<string>)
    decreases |payloads|
  {
    if payloads == [] then texts == []
    else
      var n := |FeedLines(payloads[0])|;
      n < |texts| && IsFrame(texts[..n], payloads[0]) && texts[n] == "" && AreFrames(texts[n + 1..], payloads[1..])
  }

  lemma DataLineRead(line: string, text: string)
    requires IsDataLine(line, text)
    ensures line != "" && HasPrefix(line, "data:") && TrimPrefix(line[5..], " ") == text
  {
    if line == "data: " + text {
      DataLine(text);
    } else {
      assert line[..5] == "data:" && line[5..] == text;
    }
  }

  /** The lines of a frame are gathered. */
  lemma {:induction false} Gathered(texts: seq<string>, parts: seq<string>, rest: seq<string>, data: seq<string>, broken: bool)
    requires |texts| == |parts| && forall i | 0 <= i < |parts| :: IsDataLine(texts[i], parts[i])
    ensures Frames(texts + rest, data, broken) == Frames(rest, data + parts, broken)
    decreases |texts|
  {
    hide IsDataLine, Frames, IsIgnored, HasPrefix, TrimPrefix;
    if texts == [] {
      assert texts + rest == rest && data + parts == data;
    } else {
      DataLineRead(texts[0], parts[0]);
      NotIgnored(texts[0]);
      OtherLine(texts + rest, data, broken);
      assert (texts + rest)[1..] == texts[1..] + rest;
      Gathered(texts[1..], parts[1..], rest, data + [parts[0]], broken);
      assert data + [parts[0]] + parts[1..] == data + parts;
    }
  }

  lemma {:induction false} FramesRead(texts: seq<string>, payloads: seq<string>, rest: seq<string>, broken: bool)
    requires AreFrames(texts, payloads)
    ensures Frames(texts + rest, [], broken) == payloads + Frames(rest, [], broken)
    decreases |payloads|
  {
    hide FeedLines, Frames, JoinData, IsDataLine;
    if payloads == [] {
      assert texts + rest == rest && [] + Frames(rest, [], broken) == Frames(rest, [], broken);
    } else {
      var parts := FeedLines(payloads[0]);
      var n := |parts|;
      var later := texts[n + 1..] + rest;
      assert texts + rest == texts[..n] + ([""] + later);
      Gathered(texts[..n], parts, [""] + later, [], broken);
      assert [] + parts == parts;
      assert ([""] + later)[1..] == later;
      BlankLine([""] + later, parts, broken);
      FeedLinesJoin(payloads[0]);
      FramesRead(texts[n + 1..], payloads[1..], rest, broken);
      assert payloads == [payloads[0]] + payloads[1..];
    }
  }

  /**
   Payloads of any number of lines are recovered in order, one frame each, with or without the space behind
   the colon. A last frame without its blank line counts when the body ends behind it, not when reading fails there.
   */
  lemma AnyFraming(lines: seq<WireLine>, texts: seq<string>, payloads: seq<string>, unfinished: seq<string>, last: string, broken: bool)
    requires (forall i | 0 <= i < |lines| :: Sendable(lines[i])) && Significant(LineTexts(lines)) == texts + unfinished
    requires AreFrames(texts, payloads)
    ensures unfinished == [] ==> Frames(Lines(WireAll(lines), broken), [], broken) == payloads
    ensures IsFrame(unfinished, last) ==> Frames(Lines(WireAll(lines), broken), [], broken) == payloads + if broken then [] else [last]
  {
    hide Lines, WireAll, Sendable, Frames, Significant, FeedLines, JoinData, IsDataLine, AreFrames;
    LinesSent(lines, "", broken);
    assert WireAll(lines) + "" == WireAll(lines);
    NoLines(broken);
    assert LineTexts(lines) + [] == LineTexts(lines);
    FramesSignificant(LineTexts(lines), [], broken);
    FramesRead(texts, payloads, unfinished, broken);
    LastFrame([], broken);
    if IsFrame(unfinished, last) {
      var parts := FeedLines(last);
      Gathered(unfinished, parts, [], [], broken);
      assert unfinished + [] == unfinished && [] + parts == parts;
      LastFrame(parts, broken);
      FeedLinesJoin(last);
      assert [last] + [] == [last];
    }
  }

  // ---------- how long reading takes ----------

  function LineFeeds(body: string): nat {
    if body == "" then 0 else (if body[0] == '\n' then 1 else 0) + LineFeeds(body[1..])
  }

  lemma {:induction false} LineFeedsSplit(body: string, i: nat)
    requires i < |body| && body[i] == '\n' && forall j | 0 <= j < i :: body[j] != '\n'
    ensures LineFeeds(body) == 1 + LineFeeds(body[i + 1..])
  {
    if i > 0 {
      LineFeedsSplit(body[1..], i - 1);
      assert body[1..][i..] == body[i + 1..];
    }
  }

  lemma {:induction false} LinesBounded(body: string, broken: bool)
    ensures |Lines(body, broken)| <= LineFeeds(body) + 1
    decreases |body|
  {
    hide TrimCr;
    var i := IndexChar(body, '\n');
    if i >= 0 {
      LineFeedsSplit(body, i);
      LinesBounded(body[i + 1..], broken);
    }
  }

  lemma {:induction false} FramesBounded(lines: seq<string>, data: seq<string>, broken: bool)
    ensures |Frames(lines, data, broken)| <= |lines| + if data == [] then 0 else 1
    decreases |lines|
  {
    hide IsIgnored, TrimPrefix, HasPrefix;
    if lines != [] {
      if lines[0] == "" {
        BlankLine(lines, data, broken);
        FramesBounded(lines[1..], [], broken);
      } else {
        OtherLine(lines, data, broken);
        FramesBounded(lines[1..], data, broken);
        FramesBounded(lines[1..], data + (if HasPrefix(lines[0], "data:") then [TrimPrefix(lines[0][5..], " ")] else []), broken);
      }
    }
  }

  lemma {:induction false} EventsBounded(codec: J.Codec, frames: seq<string>, seen: set<string>, end: Fault)
    ensures |Events(codec, frames, seen, end).events| <= |frames|
    decreases |frames|
  {
    hide Mapper.MapPayload, Mapper.Offers, Mapper.SeenAfter;
    if frames != [] && codec.decode(frames[0]).Some? {
      EventsBounded(codec, frames[1..], Mapper.SeenAfter(seen, Mapper.Offers(codec.decode(frames[0]).value)), end);
    }
  }

  /** On any body whatever, at most one call of `Next` per line feed and two more reach the end or an error. */
  lemma NextTerminates(codec: J.Codec, body: string, broken: bool)
    ensures |Future(codec, body, broken, [], {}).events| + 1 <= LineFeeds(body) + 2
  {
    hide Events, Frames, Lines;
    LinesBounded(body, broken);
    FramesBounded(Lines(body, broken), [], broken);
    EventsBounded(codec, Frames(Lines(body, broken), [], broken), {}, if broken then ReadFailure else EndOfStream);
  }

  /** Reads a stream to its end: every event, in order, and the fault that ends it. */
  method Drain(stream: Stream) returns (events: seq<Event>, final: Fault)
    modifies stream
    ensures Trace(events, final) == old(stream.Remaining())
  {
    hide Future;
    events := [];
    while true
      invariant old(stream.Remaining()) == Trace(events + stream.Remaining().events, stream.Remaining().final)
      decreases |stream.Remaining().events|
    {
      var r := stream.Next();
      if r.Failure? {
        return events, r.error;
      }
      events := events + [r.value];
    }
  }
}
