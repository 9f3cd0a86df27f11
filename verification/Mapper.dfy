/**
 From provider payloads to stream events. The text of a content part can arrive by three routes: as
 deltas, as a done text, and inside the completed item; a ledger of seen parts keeps it from arriving twice.
 */
module Mapper {
  import opened Llm
  import opened Strings
  import J = Json

  // ---------- content keys ----------

  datatype ContentKey = ContentKey(item: string, output: int, content: int)

  /** `textContentKey` */
  function KeyString(key: ContentKey): string {
    key.item + "/" + Itoa(key.output) + "/" + Itoa(key.content)
  }

  /** Text without a slash, behind a slash, can be told apart from what precedes the slash. */
  lemma {:induction false} LastSlash(a: string, x: string, b: string, y: string)
    requires a + "/" + x == b + "/" + y
    requires (forall i | 0 <= i < |x| :: x[i] != '/') && forall i | 0 <= i < |y| :: y[i] != '/'
    ensures a == b && x == y
  {
    var s := a + "/" + x;
    assert s == b + "/" + y;
    assert s[|a|] == '/' && s[|b|] == '/';
    assert |a| == |b| by {
      assert forall i | |a| < i < |s| :: s[i] == x[i - |a| - 1] != '/';
      assert forall i | |b| < i < |s| :: s[i] == y[i - |b| - 1] != '/';
    }
    assert a == s[..|a|] && b == s[..|b|];
    assert x == s[|a| + 1..] && y == s[|b| + 1..];
  }

  lemma ItoaHasNoSlash(n: int)
    ensures forall i | 0 <= i < |Itoa(n)| :: Itoa(n)[i] != '/'
  {
    assert n >= 0 ==> '0' <= Decimal(n)[0];
  }

  /** Different content parts have different keys, even when item identifiers contain slashes. */
  lemma KeyStringInjective(a: ContentKey, b: ContentKey)
    requires KeyString(a) == KeyString(b)
    ensures a == b
  {
    ItoaHasNoSlash(a.output);
    ItoaHasNoSlash(a.content);
    ItoaHasNoSlash(b.output);
    ItoaHasNoSlash(b.content);
    LastSlash(a.item + "/" + Itoa(a.output), Itoa(a.content), b.item + "/" + Itoa(b.output), Itoa(b.content));
    LastSlash(a.item, Itoa(a.output), b.item, Itoa(b.output));
    ItoaInjective(a.output, b.output);
    ItoaInjective(a.content, b.content);
  }

  // ---------- offers ----------

  /** A piece of a content part's text: one delta, or the full text. */
  datatype Offer = Delta(key: ContentKey, text: string) | Full(key: ContentKey, text: string)

  /** Whether an offer is passed on: deltas always, full texts when nothing of their part was seen. */
  predicate Accepted(seen: set<string>, offer: Offer) {
    offer.Delta? || (offer.text != "" && KeyString(offer.key) !in seen)
  }

  function Mark(seen: set<string>, offer: Offer): set<string> {
    if Accepted(seen, offer) then seen + {KeyString(offer.key)} else seen
  }

  /** The ledger after some offers. */
  function SeenAfter(seen: set<string>, offers: seq<Offer>): set<string>
    decreases |offers|
  {
    if offers == [] then seen else SeenAfter(Mark(seen, offers[0]), offers[1..])
  }

  /** The text passed on for a list of offers, in order. */
  function Passed(seen: set<string>, offers: seq<Offer>): string
    decreases |offers|
  {
    if offers == [] then ""
    else (if Accepted(seen, offers[0]) then offers[0].text else "") + Passed(Mark(seen, offers[0]), offers[1..])
  }

  /** The part of that text which belongs to one content part. */
  function PassedFor(seen: set<string>, offers: seq<Offer>, key: ContentKey): string
    decreases |offers|
  {
    if offers == [] then ""
    else
      (if offers[0].key == key && Accepted(seen, offers[0]) then offers[0].text else "")
      + PassedFor(Mark(seen, offers[0]), offers[1..], key)
  }

  function OnKey(offers: seq<Offer>, key: ContentKey): seq<Offer> {
    if offers == [] then []
    else (if offers[0].key == key then [offers[0]] else []) + OnKey(offers[1..], key)
  }

  function Texts(offers: seq<Offer>): string {
    if offers == [] then "" else offers[0].text + Texts(offers[1..])
  }

  /** Other parts' offers make no difference to a part. */
  lemma {:induction false} PassedForOnKey(seen: set<string>, others: set<string>, offers: seq<Offer>, key: ContentKey)
    requires KeyString(key) in seen <==> KeyString(key) in others
    ensures PassedFor(seen, offers, key) == Passed(others, OnKey(offers, key))
    decreases |offers|
  {
    hide KeyString;
    if offers != [] {
      var offer := offers[0];
      if offer.key == key {
        var rest := OnKey(offers[1..], key);
        assert OnKey(offers, key)[0] == offer && OnKey(offers, key)[1..] == rest;
        PassedForOnKey(Mark(seen, offer), Mark(others, offer), offers[1..], key);
      } else {
        if KeyString(offer.key) == KeyString(key) {
          KeyStringInjective(offer.key, key);
        }
        PassedForOnKey(Mark(seen, offer), others, offers[1..], key);
        assert OnKey(offers, key) == OnKey(offers[1..], key);
      }
    }
  }

  lemma {:induction false} DeltasPass(seen: set<string>, deltas: seq<Offer>, fulls: seq<Offer>, key: ContentKey)
    requires (forall i | 0 <= i < |deltas| :: deltas[i].Delta? && deltas[i].key == key)
    requires (forall i | 0 <= i < |fulls| :: fulls[i].Full? && fulls[i].key == key) && deltas != []
    ensures Passed(seen, deltas + fulls) == Texts(deltas)
    decreases |deltas|
  {
    hide KeyString;
    assert (deltas + fulls)[1..] == deltas[1..] + fulls;
    var marked := Mark(seen, deltas[0]);
    if |deltas| == 1 {
      FullsRefused(marked, fulls, key);
      assert deltas[1..] + fulls == fulls;
    } else {
      DeltasPass(marked, deltas[1..], fulls, key);
    }
  }

  lemma {:induction false} FullsRefused(seen: set<string>, fulls: seq<Offer>, key: ContentKey)
    requires KeyString(key) in seen && forall i | 0 <= i < |fulls| :: fulls[i].Full? && fulls[i].key == key
    ensures Passed(seen, fulls) == ""
    decreases |fulls|
  {
    hide KeyString;
    if fulls != [] {
      FullsRefused(seen, fulls[1..], key);
    }
  }

  lemma {:induction false} FullsPassOnce(seen: set<string>, fulls: seq<Offer>, key: ContentKey, text: string)
    requires KeyString(key) !in seen && forall i | 0 <= i < |fulls| :: fulls[i] == Full(key, text)
    ensures Passed(seen, fulls) == if fulls == [] then "" else text
    decreases |fulls|
  {
    hide KeyString;
    if fulls != [] {
      if text == "" {
        FullsPassOnce(seen, fulls[1..], key, text);
      } else {
        FullsRefused(Mark(seen, fulls[0]), fulls[1..], key);
        assert text + "" == text;
      }
    }
  }

  /** Of a part's own offers the first `n` are deltas that spell the text, and the others repeat it in full. */
  ghost predicate DeltasThenFull(mine: seq<Offer>, n: nat, key: ContentKey, text: string) {
    && n <= |mine|
    && (forall i | 0 <= i < n :: mine[i].Delta? && mine[i].key == key)
    && (forall i | n <= i < |mine| :: mine[i] == Full(key, text))
    && (n > 0 ==> Texts(mine[..n]) == text)
  }

  /** A part's offers are well ordered when its deltas come before its full texts and all tell the same text. */
  ghost predicate WellOrdered(offers: seq<Offer>, key: ContentKey, text: string) {
    exists n: nat :: DeltasThenFull(OnKey(offers, key), n, key, text)
  }

  /**
   Exactly once: whatever else is offered in between, and whichever of the three routes are used, a
   well-ordered part's text is passed on once if it is offered at all.
   */
  lemma ExactlyOnce(offers: seq<Offer>, key: ContentKey, text: string)
    requires WellOrdered(offers, key, text)
    ensures PassedFor({}, offers, key) == if OnKey(offers, key) == [] then "" else text
  {
    hide KeyString, Passed, PassedFor;
    var mine := OnKey(offers, key);
    var n: nat :| DeltasThenFull(mine, n, key, text);
    PassedForOnKey({}, {}, offers, key);
    assert mine == mine[..n] + mine[n..];
    if n == 0 {
      assert mine[n..] == mine;
      FullsPassOnce({}, mine, key, text);
    } else {
      DeltasPass({}, mine[..n], mine[n..], key);
    }
  }

  // ---------- what is delivered ----------

  /** The offers passed on, in order. */
  function AcceptedOf(seen: set<string>, offers: seq<Offer>): seq<Offer>
    decreases |offers|
  {
    if offers == [] then []
    else (if Accepted(seen, offers[0]) then [offers[0]] else []) + AcceptedOf(Mark(seen, offers[0]), offers[1..])
  }

  lemma OfferTextsCons(offer: Offer, rest: seq<Offer>)
    ensures Texts([offer] + rest) == offer.text + Texts(rest)
  {
    assert ([offer] + rest)[1..] == rest;
  }

  lemma OnKeyCons(offer: Offer, rest: seq<Offer>, key: ContentKey)
    ensures OnKey([offer] + rest, key) == (if offer.key == key then [offer] else []) + OnKey(rest, key)
  {
    assert ([offer] + rest)[1..] == rest;
  }

  /** The delivered text is the text of the accepted offers, and a part's share of it that of its own. */
  lemma {:induction false} DeliveredInShares(seen: set<string>, offers: seq<Offer>, key: ContentKey)
    ensures Passed(seen, offers) == Texts(AcceptedOf(seen, offers))
    ensures PassedFor(seen, offers, key) == Texts(OnKey(AcceptedOf(seen, offers), key))
    decreases |offers|
  {
    hide Accepted, Mark, Texts, OnKey;
    if offers == [] {
      NoOffers(key);
    } else {
      var offer := offers[0];
      var rest := AcceptedOf(Mark(seen, offer), offers[1..]);
      DeliveredInShares(Mark(seen, offer), offers[1..], key);
      if Accepted(seen, offer) {
        OfferTextsCons(offer, rest);
        OnKeyCons(offer, rest, key);
        if offer.key == key {
          OfferTextsCons(offer, OnKey(rest, key));
        } else {
          assert [] + OnKey(rest, key) == OnKey(rest, key);
        }
      } else {
        assert [] + rest == rest;
      }
      assert "" + Texts(rest) == Texts(rest) && "" + Texts(OnKey(rest, key)) == Texts(OnKey(rest, key));
    }
  }

  lemma NoOffers(key: ContentKey)
    ensures Texts([]) == "" && OnKey([], key) == []
  {
  }

  /**
   Exactly once, in what is delivered: among the accepted offers, in the order in which their texts make up
   the delivered text, those of a well-ordered part spell its text once.
   */
  lemma DeliveredOnce(offers: seq<Offer>, key: ContentKey, text: string)
    requires WellOrdered(offers, key, text)
    ensures Passed({}, offers) == Texts(AcceptedOf({}, offers))
    ensures Texts(OnKey(AcceptedOf({}, offers), key)) == if OnKey(offers, key) == [] then "" else text
  {
    hide Passed, PassedFor, AcceptedOf, OnKey, Texts, WellOrdered;
    DeliveredInShares({}, offers, key);
    ExactlyOnce(offers, key, text);
  }

  // ---------- payloads ----------

  datatype Outcome = Deliver(event: Event) | Skip | Fail(message: string)

  function KeyOf(payload: J.Payload): ContentKey {
    ContentKey(J.StringField(payload, "item_id"), J.IntField(payload, "output_index"), J.IntField(payload, "content_index"))
  }

  /** The full texts in a completed message item, by their position among its content. */
  function ContentOffers(item: string, output: int, content: seq<J.Json>, i: nat): seq<Offer>
    requires i <= |content|
    decreases |content| - i
  {
    if i == |content| then []
    else
      (if content[i].Object? && (J.StringField(content[i].fields, "type") == "output_text" || J.StringField(content[i].fields, "type") == "text")
       then [Full(ContentKey(item, output, i), J.StringField(content[i].fields, "text"))]
       else [])
      + ContentOffers(item, output, content, i + 1)
  }

  function MessageOffers(payload: J.Payload): seq<Offer> {
    var item := J.ObjectField(payload, "item");
    if J.StringField(item, "type") != "message" || J.StringField(item, "role") != "assistant" then []
    else ContentOffers(J.StringField(item, "id"), J.IntField(payload, "output_index"), J.ArrayField(item, "content"), 0)
  }

  /** `textFromContentArray` */
  function ContentText(items: seq<J.Json>): string {
    if items == [] then ""
    else (if items[0].Object? then J.StringField(items[0].fields, "text") else "") + ContentText(items[1..])
  }

  /** `reasoningSummaryText` */
  function SummaryTexts(items: seq<J.Json>): seq<string> {
    if items == [] then []
    else
      (if items[0].Object? && J.StringField(items[0].fields, "text") != "" then [J.StringField(items[0].fields, "text")] else [])
      + SummaryTexts(items[1..])
  }

  /** `outputItemPart`: the part of a completed reasoning item, untyped for any other item. */
  function ItemPart(payload: J.Payload): Part {
    var item := J.ObjectField(payload, "item");
    if J.StringField(item, "type") != "reasoning" then PlainPart(Untyped, "")
    else Part(Reasoning, ContentText(J.ArrayField(item, "content")), J.StringField(item, "id"),
              SummaryTexts(J.ArrayField(item, "summary")), J.StringField(item, "encrypted_content"), NO_MEDIA)
  }

  /** `streamError` */
  function ErrorMessage(payload: J.Payload): string {
    var direct := J.StringField(J.ObjectField(payload, "error"), "message");
    var nested := J.StringField(J.ObjectField(J.ObjectField(payload, "response"), "error"), "message");
    if nested != "" then nested else if direct != "" then direct else "stream failed"
  }

  predicate IsReasoningDelta(kind: string) {
    kind == "response.reasoning.delta" || kind == "response.reasoning_summary_text.delta" || kind == "response.reasoning_text.delta"
  }

  /** The text offers in a payload. */
  function Offers(payload: J.Payload): seq<Offer> {
    var kind := J.StringField(payload, "type");
    if kind == "response.output_text.delta" then [Delta(KeyOf(payload), J.StringField(payload, "delta"))]
    else if kind == "response.output_text.done" then [Full(KeyOf(payload), J.StringField(payload, "text"))]
    else if kind == "response.output_item.done" && ItemPart(payload).kind == Untyped then MessageOffers(payload)
    else []
  }

  /** What becomes of a payload, given what was seen before. */
  function MapPayload(seen: set<string>, payload: J.Payload): Outcome {
    var kind := J.StringField(payload, "type");
    if kind == "response.output_text.delta" then Deliver(TextDelta(J.StringField(payload, "delta")))
    else if IsReasoningDelta(kind) then Deliver(ReasoningDelta(J.StringField(payload, "delta")))
    else if kind == "response.output_item.done" && ItemPart(payload).kind != Untyped then Deliver(OutputItemDone(ItemPart(payload)))
    else if kind == "response.completed" then Deliver(Completed(J.StringField(J.ObjectField(payload, "response"), "id")))
    else if kind == "response.failed" || kind == "error" then Fail(ErrorMessage(payload))
    else if Passed(seen, Offers(payload)) != "" then Deliver(TextDelta(Passed(seen, Offers(payload))))
    else Skip
  }

  /** The text of the event made from a payload is the text its offers pass on. */
  lemma TextIsPassed(seen: set<string>, payload: J.Payload)
    ensures match MapPayload(seen, payload)
            case Deliver(TextDelta(delta)) => delta == Passed(seen, Offers(payload))
            case _ => Passed(seen, Offers(payload)) == ""
  {
    hide KeyString, MessageOffers, ItemPart, KeyOf, J.StringField, ErrorMessage;
    if J.StringField(payload, "type") == "response.output_text.delta" {
      var offer := Delta(KeyOf(payload), J.StringField(payload, "delta"));
      assert [offer][1..] == [];
      assert offer.text + "" == offer.text;
    }
  }

  lemma {:induction false} PassedAppend(seen: set<string>, a: seq<Offer>, b: seq<Offer>)
    ensures Passed(seen, a + b) == Passed(seen, a) + Passed(SeenAfter(seen, a), b)
    ensures SeenAfter(seen, a + b) == SeenAfter(SeenAfter(seen, a), b)
    decreases |a|
  {
    hide Accepted, Mark;
    if a == [] {
      assert a + b == b;
      assert "" + Passed(seen, b) == Passed(seen, b);
    } else {
      assert (a + b)[1..] == a[1..] + b;
      var marked := Mark(seen, a[0]);
      PassedAppend(marked, a[1..], b);
      var head := if Accepted(seen, a[0]) then a[0].text else "";
      assert head + (Passed(marked, a[1..]) + Passed(SeenAfter(marked, a[1..]), b))
          == head + Passed(marked, a[1..]) + Passed(SeenAfter(marked, a[1..]), b);
    }
  }

  // ---------- which payload offers and delivers what ----------

  predicate Is(payload: J.Payload, name: string, text: string) {
    name in payload && payload[name] == J.Text(text)
  }

  /** A piece of a message's content that holds answer text. */
  predicate HoldsText(content: J.Json) {
    content.Object? && (Is(content.fields, "type", "output_text") || Is(content.fields, "type", "text"))
  }

  /** What the text content at position `c` offers. */
  predicate IsOfferOf(offer: Offer, item: string, output: int, content: seq<J.Json>, c: int) {
    && 0 <= c < |content| && HoldsText(content[c])
    && offer == Full(ContentKey(item, output, c), J.StringField(content[c].fields, "text"))
  }

  /** The offers are those of the text content from position `i` on, each under its own position, in order. */
  ghost predicate OffersOfContent(offers: seq<Offer>, item: string, output: int, content: seq<J.Json>, i: nat) {
    && (forall k | 0 <= k < |offers| :: offers[k].key.content >= i && IsOfferOf(offers[k], item, output, content, offers[k].key.content))
    && (forall k, l | 0 <= k < l < |offers| :: offers[k].key.content < offers[l].key.content)
    && (forall c | i <= c < |content| && HoldsText(content[c]) :: exists k | 0 <= k < |offers| :: offers[k].key.content == c)
  }

  lemma OneMoreOffer(head: Offer, rest: seq<Offer>, item: string, output: int, content: seq<J.Json>, i: nat)
    requires i < |content| && OffersOfContent(rest, item, output, content, i + 1) && IsOfferOf(head, item, output, content, i)
    ensures OffersOfContent([head] + rest, item, output, content, i)
  {
    hide IsOfferOf, HoldsText;
    assert head.key.content == i by { HeadKey(head, item, output, content, i); }
    var offers := [head] + rest;
    forall c | i <= c < |content| && HoldsText(content[c])
      ensures exists k | 0 <= k < |offers| :: offers[k].key.content == c
    {
      if c > i {
        var k :| 0 <= k < |rest| && rest[k].key.content == c;
        assert offers[k + 1] == rest[k];
      } else {
        assert offers[0].key.content == c;
      }
    }
  }

  lemma HeadKey(head: Offer, item: string, output: int, content: seq<J.Json>, i: nat)
    requires IsOfferOf(head, item, output, content, i)
    ensures head.key.content == i
  {
  }

  lemma ContentUnfold(item: string, output: int, content: seq<J.Json>, i: nat)
    requires i < |content|
    ensures var rest := ContentOffers(item, output, content, i + 1);
            if HoldsText(content[i]) then
              exists head :: IsOfferOf(head, item, output, content, i) && ContentOffers(item, output, content, i) == [head] + rest
            else ContentOffers(item, output, content, i) == rest
  {
    var rest := ContentOffers(item, output, content, i + 1);
    if HoldsText(content[i]) {
      var head := Full(ContentKey(item, output, i), J.StringField(content[i].fields, "text"));
      assert IsOfferOf(head, item, output, content, i) && ContentOffers(item, output, content, i) == [head] + rest;
    } else {
      assert [] + rest == rest;
    }
  }

  lemma {:induction false} ContentOffered(item: string, output: int, content: seq<J.Json>, i: nat)
    requires i <= |content|
    ensures OffersOfContent(ContentOffers(item, output, content, i), item, output, content, i)
    decreases |content| - i
  {
    hide ContentOffers, HoldsText, IsOfferOf;
    if i == |content| {
      NoContent(item, output, content);
    } else {
      ContentOffered(item, output, content, i + 1);
      ContentUnfold(item, output, content, i);
      var rest := ContentOffers(item, output, content, i + 1);
      if HoldsText(content[i]) {
        var head :| IsOfferOf(head, item, output, content, i) && ContentOffers(item, output, content, i) == [head] + rest;
        OneMoreOffer(head, rest, item, output, content, i);
      }
    }
  }

  lemma NoContent(item: string, output: int, content: seq<J.Json>)
    ensures ContentOffers(item, output, content, |content|) == []
  {
  }

  /** A completed message of the assistant offers its text content. */
  lemma AssistantMessageOffers(payload: J.Payload)
    requires Is(payload, "type", "response.output_item.done")
    requires Is(J.ObjectField(payload, "item"), "type", "message") && Is(J.ObjectField(payload, "item"), "role", "assistant")
    ensures var item := J.ObjectField(payload, "item");
            OffersOfContent(Offers(payload), J.StringField(item, "id"), J.IntField(payload, "output_index"), J.ArrayField(item, "content"), 0)
  {
    hide ContentOffers, J.IntField, OffersOfContent;
    var item := J.ObjectField(payload, "item");
    ContentOffered(J.StringField(item, "id"), J.IntField(payload, "output_index"), J.ArrayField(item, "content"), 0);
  }

  /** A completed item of any other type or role offers nothing. */
  lemma OtherItemOffers(payload: J.Payload)
    requires Is(payload, "type", "response.output_item.done")
    requires !(Is(J.ObjectField(payload, "item"), "type", "message") && Is(J.ObjectField(payload, "item"), "role", "assistant"))
    ensures Offers(payload) == []
  {
  }

  /** A delta and a done text offer themselves, under the item and the indexes they name; nothing else offers anything. */
  lemma TextOffers(payload: J.Payload)
    ensures var key := ContentKey(J.StringField(payload, "item_id"), J.IntField(payload, "output_index"), J.IntField(payload, "content_index"));
            && (Is(payload, "type", "response.output_text.delta") ==> Offers(payload) == [Delta(key, J.StringField(payload, "delta"))])
            && (Is(payload, "type", "response.output_text.done") ==> Offers(payload) == [Full(key, J.StringField(payload, "text"))])
            && (Offers(payload) == []
                || Is(payload, "type", "response.output_text.delta") || Is(payload, "type", "response.output_text.done")
                || Is(payload, "type", "response.output_item.done"))
  {
    hide MessageOffers, ItemPart, J.IntField;
  }

  /** Of full texts under different keys exactly those are accepted that say something and were not seen. */
  lemma {:induction false} UnseenAccepted(seen: set<string>, offers: seq<Offer>, offer: Offer)
    requires forall k | 0 <= k < |offers| :: offers[k].Full?
    requires forall k, l | 0 <= k < l < |offers| :: offers[k].key != offers[l].key
    ensures offer in AcceptedOf(seen, offers) <==> offer in offers && offer.text != "" && KeyString(offer.key) !in seen
    decreases |offers|
  {
    hide KeyString;
    if offers != [] {
      var head, rest := offers[0], offers[1..];
      UnseenAccepted(Mark(seen, head), rest, offer);
      assert offer in offers <==> offer == head || offer in rest;
      if offer in rest {
        var k :| 0 <= k < |rest| && rest[k] == offer;
        assert offers[k + 1] == offer && head.key != offer.key;
        if KeyString(head.key) == KeyString(offer.key) {
          KeyStringInjective(head.key, offer.key);
        }
      }
    }
  }

  /**
   What a completed message of the assistant delivers: of its text content, in order, each piece that says
   something and that did not arrive before, as one event, or nothing when there is none.
   */
  lemma MessageDelivers(seen: set<string>, payload: J.Payload)
    requires Is(payload, "type", "response.output_item.done")
    requires Is(J.ObjectField(payload, "item"), "type", "message") && Is(J.ObjectField(payload, "item"), "role", "assistant")
    ensures var accepted := AcceptedOf(seen, Offers(payload));
            && MapPayload(seen, payload) == (if Texts(accepted) == "" then Skip else Deliver(TextDelta(Texts(accepted))))
            && forall offer :: offer in accepted <==> offer in Offers(payload) && offer.text != "" && KeyString(offer.key) !in seen
  {
    hide KeyString, OffersOfContent, AcceptedOf, Texts, Offers, MapPayload;
    AssistantMessageOffers(payload);
    MessageIsMapped(seen, payload);
    DeliveredInShares(seen, Offers(payload), ContentKey("", 0, 0));
    var item := J.ObjectField(payload, "item");
    KeysDiffer(Offers(payload), J.StringField(item, "id"), J.IntField(payload, "output_index"), J.ArrayField(item, "content"));
    forall offer
      ensures offer in AcceptedOf(seen, Offers(payload)) <==> offer in Offers(payload) && offer.text != "" && KeyString(offer.key) !in seen
    {
      UnseenAccepted(seen, Offers(payload), offer);
    }
  }

  lemma MessageIsMapped(seen: set<string>, payload: J.Payload)
    requires Is(payload, "type", "response.output_item.done") && Is(J.ObjectField(payload, "item"), "type", "message")
    ensures var text := Passed(seen, Offers(payload)); MapPayload(seen, payload) == if text == "" then Skip else Deliver(TextDelta(text))
  {
    hide Passed, Offers, ErrorMessage;
  }

  lemma KeysDiffer(offers: seq<Offer>, item: string, output: int, content: seq<J.Json>)
    requires OffersOfContent(offers, item, output, content, 0)
    ensures forall k | 0 <= k < |offers| :: offers[k].Full?
    ensures forall k, l | 0 <= k < l < |offers| :: offers[k].key != offers[l].key
  {
    hide HoldsText;
    assert forall k | 0 <= k < |offers| :: IsOfferOf(offers[k], item, output, content, offers[k].key.content);
    assert forall k, l | 0 <= k < l < |offers| :: offers[k].key.content < offers[l].key.content;
  }

  /** Items that are neither reasoning nor messages of the assistant deliver nothing. */
  lemma OtherItemSkipped(seen: set<string>, payload: J.Payload)
    requires Is(payload, "type", "response.output_item.done") && !Is(J.ObjectField(payload, "item"), "type", "reasoning")
    requires !(Is(J.ObjectField(payload, "item"), "type", "message") && Is(J.ObjectField(payload, "item"), "role", "assistant"))
    ensures MapPayload(seen, payload) == Skip
  {
    OtherItemOffers(payload);
  }

  // ---------- completed reasoning, failures, and what is of no use ----------

  /** The text of every object, in order, the empty ones included and other values left out. */
  lemma {:induction false} ContentTextSpells(items: seq<J.Json>, texts: seq<string>)
    requires |texts| == |items|
    requires forall i | 0 <= i < |items| :: texts[i] == if items[i].Object? then J.StringField(items[i].fields, "text") else ""
    ensures ContentText(items) == Concat(texts)
    decreases |items|
  {
    hide J.StringField;
    if items == [] {
      assert Concat([]) == "";
    } else {
      ContentTextSpells(items[1..], texts[1..]);
      assert texts == [texts[0]] + texts[1..] && [texts[0]][..0] == [] && Concat([]) == "" && "" + texts[0] == texts[0];
      ConcatAppend([texts[0]], texts[1..]);
    }
  }

  function NonEmpty(texts: seq<string>): seq<string> {
    if texts == [] then [] else (if texts[0] == "" then [] else [texts[0]]) + NonEmpty(texts[1..])
  }

  /** The summary of a reasoning item: the texts of its objects that are not empty, in order. */
  lemma {:induction false} SummaryKeepsTexts(items: seq<J.Json>, texts: seq<string>)
    requires |texts| == |items|
    requires forall i | 0 <= i < |items| :: texts[i] == if items[i].Object? then J.StringField(items[i].fields, "text") else ""
    ensures SummaryTexts(items) == NonEmpty(texts)
    decreases |items|
  {
    hide J.StringField;
    if items != [] {
      SummaryKeepsTexts(items[1..], texts[1..]);
    }
  }

  /** A completed reasoning item is delivered with all it holds, whatever was seen. */
  lemma ReasoningDelivers(seen: set<string>, payload: J.Payload)
    requires Is(payload, "type", "response.output_item.done") && Is(J.ObjectField(payload, "item"), "type", "reasoning")
    ensures var item := J.ObjectField(payload, "item");
            MapPayload(seen, payload) ==
            Deliver(OutputItemDone(Part(Reasoning, ContentText(J.ArrayField(item, "content")), J.StringField(item, "id"),
                                        SummaryTexts(J.ArrayField(item, "summary")), J.StringField(item, "encrypted_content"), NO_MEDIA)))
  {
    hide ContentText, SummaryTexts;
  }

  /** The three names under which reasoning is streamed. */
  lemma ReasoningStreams(seen: set<string>, payload: J.Payload)
    requires Is(payload, "type", "response.reasoning.delta") || Is(payload, "type", "response.reasoning_summary_text.delta")
             || Is(payload, "type", "response.reasoning_text.delta")
    ensures MapPayload(seen, payload) == Deliver(ReasoningDelta(J.StringField(payload, "delta")))
  {
  }

  /** Failures end the stream, with the response's message before the payload's own and a stock message without either. */
  lemma FailureFails(seen: set<string>, payload: J.Payload)
    requires Is(payload, "type", "response.failed") || Is(payload, "type", "error")
    ensures MapPayload(seen, payload).Fail?
    ensures var own := J.StringField(J.ObjectField(payload, "error"), "message");
            var nested := J.StringField(J.ObjectField(J.ObjectField(payload, "response"), "error"), "message");
            && (nested != "" ==> MapPayload(seen, payload).message == nested)
            && (nested == "" && own != "" ==> MapPayload(seen, payload).message == own)
            && (nested == "" && own == "" ==> MapPayload(seen, payload).message == "stream failed")
  {
  }

  /** The completion carries the response's identifier. */
  lemma CompletionDelivers(seen: set<string>, payload: J.Payload)
    requires Is(payload, "type", "response.completed")
    ensures MapPayload(seen, payload) == Deliver(Completed(J.StringField(J.ObjectField(payload, "response"), "id")))
  {
  }

  /** Payloads of any other type are skipped. */
  lemma OthersSkipped(seen: set<string>, payload: J.Payload)
    requires forall name | name in {"response.output_text.delta", "response.output_text.done", "response.output_item.done", "response.completed",
                                    "response.failed", "error", "response.reasoning.delta", "response.reasoning_summary_text.delta",
                                    "response.reasoning_text.delta"} :: !Is(payload, "type", name)
    requires "type" in payload && payload["type"].Text?
    ensures MapPayload(seen, payload) == Skip
  {
    var kind := payload["type"].s;
    assert Is(payload, "type", kind);
    TextOffers(payload);
  }
}
