/** The values a chat turn is made of: parts, messages and upstream events. */
module Llm {
  import opened Wrappers

  datatype Role = System | User | Assistant

  /** `Untyped` is the empty type string of a part that was never filled in. */
  datatype PartType = Untyped | Text | Reasoning | Summary | Error | Image | Attachment

  /** The attachment fields of a part, which no operation of the model inspects. */
  datatype Media = Media(url: string, filename: string, mimeType: string, alt: string, width: int, height: int, size: int)

  const NO_MEDIA := Media("", "", "", "", 0, 0, 0)

  datatype Part = Part(kind: PartType, text: string, id: string, summary: seq<string>, encrypted: string, media: Media)

  function PlainPart(kind: PartType, text: string): Part {
    Part(kind, text, "", [], "", NO_MEDIA)
  }

  /** `completedAt` is `None` for the zero time. */
  datatype Message = Message(role: Role, parts: seq<Part>, completedAt: Option<nat>)

  function TextMessage(role: Role, text: string): Message {
    Message(role, [PlainPart(Text, text)], None)
  }

  /** The text of all text parts, in order. */
  function TextOf(parts: seq<Part>): string {
    if parts == [] then ""
    else TextOf(parts[..|parts| - 1]) + (if parts[|parts| - 1].kind == Text then parts[|parts| - 1].text else "")
  }

  /** Why a call on a stream or a session failed. */
  datatype Cause = Eof | UnexpectedEof | Canceled | EmptyPrompt | TurnInProgress | InvalidReplaceFrom | WriteFailed | Other

  datatype Event =
    | TextDelta(delta: string)
    | ReasoningDelta(delta: string)
    | OutputItemDone(part: Part)
    | Completed(responseId: string)
    | ErrorEvent(cause: Option<Cause>)
    | Unrecognized

  /** The transcript law of a conversation: user and assistant messages in turn, the user first. */
  predicate Alternates(messages: seq<Message>) {
    forall i | 0 <= i < |messages| :: messages[i].role == if i % 2 == 0 then User else Assistant
  }

  lemma TextOfSnoc(parts: seq<Part>, part: Part)
    ensures TextOf(parts + [part]) == TextOf(parts) + (if part.kind == Text then part.text else "")
  {
    assert (parts + [part])[..|parts|] == parts;
  }

  /** `Message.Text`: the builder loop over a message's parts. */
  method MessageText(message: Message) returns (text: string)
    ensures text == TextOf(message.parts)
  {
    text := "";
    for i := 0 to |message.parts|
      invariant text == TextOf(message.parts[..i])
    {
      TextOfSnoc(message.parts[..i], message.parts[i]);
      assert message.parts[..i + 1] == message.parts[..i] + [message.parts[i]];
      if message.parts[i].kind == PartType.Text {
        text := text + message.parts[i].text;
      }
    }
    assert message.parts[..|message.parts|] == message.parts;
  }
}
