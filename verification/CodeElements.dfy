/**
 What the citation scanner takes for code and for a marker, by the characters: which tags open and close a
 `pre` or `code` element, which texts are markers, and what becomes of both.
 */
module CodeElements {
  import opened Citations
  import opened Strings

  // ---------- tags ----------

  /** A lower-case letter in either case. */
  predicate Letter(c: char, letter: char) {
    c == letter || c as int + 32 == letter as int
  }

  /** The word stands at position `i`, in any case. */
  predicate SpellsAt(tag: string, i: nat, word: string) {
    i + |word| <= |tag| && forall k | 0 <= k < |word| :: Letter(tag[i + k], word[k])
  }

  /** A name goes no further than position `e`: it is followed by no letter, digit or hyphen. */
  predicate NameStops(tag: string, e: nat) {
    e <= |tag| && (e < |tag| ==>
                     var c := tag[e]; !('a' <= c <= 'z') && !('A' <= c <= 'Z') && !('0' <= c <= '9') && c != '-')
  }

  predicate BlanksTo(tag: string, i: nat, j: nat) {
    i <= j <= |tag| && forall k | i <= k < j :: tag[k] == ' ' || tag[k] == '\t' || tag[k] == '\n' || tag[k] == '\r'
  }

  /** Behind optional blanks from position `i` on stands the name `pre` or `code`. */
  ghost predicate CodeNameFrom(tag: string, i: nat) {
    exists j: nat :: BlanksTo(tag, i, j)
                     && ((SpellsAt(tag, j, "pre") && NameStops(tag, j + 3)) || (SpellsAt(tag, j, "code") && NameStops(tag, j + 4)))
  }

  ghost predicate OpensCode(tag: string) {
    |tag| >= 1 && tag[0] == '<' && CodeNameFrom(tag, 1) && !HasSuffix(TrimSpace(tag), "/>")
  }

  ghost predicate ClosesCode(tag: string) {
    |tag| >= 2 && tag[0] == '<' && tag[1] == '/' && CodeNameFrom(tag, 2)
  }

  lemma {:induction false} SkipBlanksTo(tag: string, i: nat)
    requires i <= |tag|
    ensures var j := SkipBlanks(tag, i);
            BlanksTo(tag, i, j) && (j < |tag| ==> tag[j] != ' ' && tag[j] != '\t' && tag[j] != '\n' && tag[j] != '\r')
    decreases |tag| - i
  {
    if SkipBlanks(tag, i) > i {
      SkipBlanksTo(tag, i + 1);
    }
  }

  lemma {:induction false} NameEndStops(tag: string, i: nat)
    requires i <= |tag|
    ensures var e := NameEnd(tag, i); NameStops(tag, e) && forall k | i <= k < e :: IsNameChar(tag[k])
    decreases |tag| - i
  {
    if NameEnd(tag, i) > i {
      NameEndStops(tag, i + 1);
    }
  }

  /** A word that stands there, and no further, is the name. */
  lemma NameIs(tag: string, start: nat, word: string)
    requires start <= |tag| && word != "" && forall k | 0 <= k < |word| :: 'a' <= word[k] <= 'z'
    ensures Lower(tag[start..NameEnd(tag, start)]) == word <==> SpellsAt(tag, start, word) && NameStops(tag, start + |word|)
  {
    hide NameEnd;
    NameEndStops(tag, start);
    var e := NameEnd(tag, start);
    var name := tag[start..e];
    if Lower(name) == word {
      forall k | 0 <= k < |word|
        ensures Letter(tag[start + k], word[k])
      {
        assert Lower(name)[k] == word[k] && name[k] == tag[start + k];
      }
    }
    if SpellsAt(tag, start, word) && NameStops(tag, start + |word|) {
      forall i | start <= i < start + |word|
        ensures IsNameChar(tag[i])
      {
        assert Letter(tag[start + (i - start)], word[i - start]);
      }
      forall k | 0 <= k < |word|
        ensures Lower(name)[k] == word[k]
      {
        assert name[k] == tag[start + k] && Letter(tag[start + k], word[k]);
      }
      assert Lower(name) == word;
    }
  }

  lemma SpelledStart(tag: string, i: nat, j: nat, word: string)
    requires BlanksTo(tag, i, j) && word != "" && SpellsAt(tag, j, word) && 'a' <= word[0] <= 'z'
    ensures SkipBlanks(tag, i) == j
  {
    SkipBlanksTo(tag, i);
    assert Letter(tag[j + 0], word[0]);
  }

  /** The name the scanner reads is `pre` or `code` exactly when one of them stands there. */
  lemma CodeNameExactly(tag: string, i: nat)
    requires i <= |tag|
    ensures var start := SkipBlanks(tag, i);
            var name := Lower(tag[start..NameEnd(tag, start)]);
            name == "pre" || name == "code" <==> CodeNameFrom(tag, i)
  {
    hide SkipBlanks, NameEnd, Lower, SpellsAt, NameStops;
    SkipBlanksTo(tag, i);
    var start := SkipBlanks(tag, i);
    NameIs(tag, start, "pre");
    NameIs(tag, start, "code");
    forall j: nat | BlanksTo(tag, i, j) && SpellsAt(tag, j, "pre")
      ensures j == start
    {
      SpelledStart(tag, i, j, "pre");
    }
    forall j: nat | BlanksTo(tag, i, j) && SpellsAt(tag, j, "code")
      ensures j == start
    {
      SpelledStart(tag, i, j, "code");
    }
  }

  /**
   The depth rises by one exactly for a tag that opens a `pre` or `code` element and does not close itself, falls by
   one, but not below zero, exactly for one that closes such an element, and stays for every other.
   */
  lemma DepthExactly(tag: string, depth: nat)
    ensures DepthAfter(tag, depth) == if OpensCode(tag) then depth + 1 else if ClosesCode(tag) then if depth > 0 then depth - 1 else 0 else depth
  {
    hide SkipBlanks, NameEnd, Lower, CodeNameFrom, TrimSpace, HasSuffix;
    if |tag| >= 3 && tag[0] == '<' {
      CodeNameExactly(tag, 1);
      CodeNameExactly(tag, 2);
      if tag[1] == '/' {
        SlashIsNoName(tag);
      }
      EmptyName(tag, SkipBlanks(tag, 1));
      EmptyName(tag, SkipBlanks(tag, 2));
    } else if |tag| < 3 {
      TooShort(tag, 1);
      TooShort(tag, 2);
    }
  }

  lemma SlashIsNoName(tag: string)
    requires |tag| >= 2 && tag[1] == '/'
    ensures !CodeNameFrom(tag, 1)
  {
    forall j: nat | BlanksTo(tag, 1, j)
      ensures !SpellsAt(tag, j, "pre") && !SpellsAt(tag, j, "code")
    {
      assert j == 1;
      assert tag[j + 0] == '/';
      assert !Letter('/', "pre"[0]) && !Letter('/', "code"[0]);
    }
  }

  lemma EmptyName(tag: string, start: nat)
    requires start <= |tag|
    ensures NameEnd(tag, start) == start ==> Lower(tag[start..NameEnd(tag, start)]) == ""
  {
  }

  lemma TooShort(tag: string, i: nat)
    requires |tag| < 3
    ensures !CodeNameFrom(tag, i)
  {
  }

  /** How many code elements are open behind some tokens. */
  ghost function CodeDepth(tokens: seq<Token>, depth: nat): nat
    decreases |tokens|
  {
    if tokens == [] then depth
    else
      var head := tokens[0];
      CodeDepth(tokens[1..],
                if head.Plain? then depth
                else if OpensCode(head.text) then depth + 1
                else if ClosesCode(head.text) then if depth > 0 then depth - 1 else 0
                else depth)
  }

  lemma {:induction false} CodeDepthExactly(tokens: seq<Token>, depth: nat)
    ensures CodeDepth(tokens, depth) == DepthThrough(tokens, depth)
    decreases |tokens|
  {
    hide OpensCode, ClosesCode, DepthAfter;
    if tokens != [] {
      DepthExactly(tokens[0].text, depth);
      CodeDepthExactly(tokens[1..], DepthPast(tokens[0], depth));
    }
  }

  /**
   Tags and code elements are left alone, everywhere. In the decoration of any string, of its complete tags, its
   runs of text and its one final unclosed tag every complete tag stands unchanged and in order, and so does every
   run inside a `pre` or `code` element; the other runs and the unclosed tag are decorated.
   */
  lemma CodeKept(s: string) returns (tokens: seq<Token>, rest: string, pieces: seq<string>)
    ensures s == Spell(tokens) + rest && Parsed(tokens, rest) && Unclosed(rest)
    ensures |pieces| == |tokens| && Decorate(s, 0) == Concat(pieces) + Decorated(rest)
    ensures forall i | 0 <= i < |tokens| ::
              pieces[i] == if tokens[i].Markup? || CodeDepth(tokens[..i], 0) > 0 then tokens[i].text else Decorated(tokens[i].text)
  {
    hide Decorate, Decorated, Parsed, DepthThrough, CodeDepth, Concat, Spell;
    tokens, rest, pieces := TagsAndCodeKept(s, 0);
    forall i | 0 <= i < |tokens|
      ensures CodeDepth(tokens[..i], 0) == DepthThrough(tokens[..i], 0)
    {
      CodeDepthExactly(tokens[..i], 0);
    }
  }

  // ---------- whole elements ----------

  /** Attributes as they can stand in an opening tag: apart from the name, in one tag, and not closing it. */
  predicate IsAttributes(attributes: string) {
    && NameStops(attributes, 0) && (forall i | 0 <= i < |attributes| :: attributes[i] != '>')
    && (attributes == "" || attributes[|attributes| - 1] != '/')
  }

  lemma OpeningTag(name: string, attributes: string)
    requires (name == "pre" || name == "code") && IsAttributes(attributes)
    ensures OpensCode("<" + name + attributes + ">")
  {
    hide TrimSpace;
    var tag := "<" + name + attributes + ">";
    assert BlanksTo(tag, 1, 1);
    assert SpellsAt(tag, 1, name);
    assert tag[1 + |name|] == if attributes == "" then '>' else attributes[0];
    assert NameStops(tag, 1 + |name|);
    BracketsTrimmed(tag);
    assert tag[|tag| - 2] == if attributes == "" then name[|name| - 1] else attributes[|attributes| - 1];
    assert tag[|tag| - 2..][0] == tag[|tag| - 2];
  }

  lemma ClosingTag(name: string)
    requires name == "pre" || name == "code"
    ensures ClosesCode("</" + name + ">") && !OpensCode("</" + name + ">")
  {
    hide TrimSpace;
    var tag := "</" + name + ">";
    assert BlanksTo(tag, 2, 2);
    assert SpellsAt(tag, 2, name);
    assert tag[2 + |name|] == '>';
    SlashIsNoName(tag);
  }

  lemma BracketsTrimmed(tag: string)
    requires |tag| >= 2 && tag[0] == '<' && tag[|tag| - 1] == '>'
    ensures TrimSpace(tag) == tag
  {
    hide TrimSpace;
    var w := TrimSpaceAt(tag);
    var t := TrimSpace(tag);
    assert !IsSpace(tag[0]) && !IsSpace(tag[|tag| - 1]);
  }

  /** A code element without tags inside is copied as it is, markers and all, whatever its attributes, and what follows it is decorated as if it were not there. */
  lemma ElementUntouched(name: string, attributes: string, body: string, rest: string, depth: nat)
    requires (name == "pre" || name == "code") && IsAttributes(attributes) && forall i | 0 <= i < |body| :: body[i] != '<'
    ensures var tag, end := "<" + name + attributes + ">", "</" + name + ">";
            Decorate(tag + (body + (end + rest)), depth) == tag + (body + (end + Decorate(rest, depth)))
  {
    hide Decorate, DepthAfter, OpensCode, ClosesCode, IsAttributes;
    var tag, end := "<" + name + attributes + ">", "</" + name + ">";
    OpeningTag(name, attributes);
    ClosingTag(name);
    DepthExactly(tag, depth);
    DepthExactly(end, depth + 1);
    OneTag(name, attributes);
    assert (end + rest)[0] == '<';
    CodeUntouched(tag, body, end + rest, depth);
    DecorateToken(Markup(end), rest, depth + 1);
  }

  lemma OneTag(name: string, attributes: string)
    requires (name == "pre" || name == "code") && IsAttributes(attributes)
    ensures IsToken(Markup("<" + name + attributes + ">")) && IsToken(Markup("</" + name + ">"))
  {
    var tag, end := "<" + name + attributes + ">", "</" + name + ">";
    forall i | 0 <= i < |tag| - 1
      ensures tag[i] != '>'
    {
      if i > |name| {
        assert tag[i] == attributes[i - 1 - |name|];
      } else if i > 0 {
        assert tag[i] == name[i - 1];
      }
    }
  }

  // ---------- markers ----------

  predicate IsDigits(s: string) {
    s != "" && forall i | 0 <= i < |s| :: '0' <= s[i] <= '9'
  }

  predicate IsKind(kind: string) {
    kind == "search" || kind == "image" || kind == "news" || kind == "video" || kind == "ref" || kind == "file"
  }

  /** The text starts with a marker: `【turn`, digits, a kind, digits, `】`. */
  predicate StartsMarker(text: string, number: string, kind: string, index: string, rest: string) {
    IsDigits(number) && IsKind(kind) && IsDigits(index) && text == "【turn" + number + kind + index + "】" + rest
  }

  lemma {:induction false} DigitRunIs(digits: string, rest: string)
    requires (forall i | 0 <= i < |digits| :: '0' <= digits[i] <= '9') && (rest == "" || !('0' <= rest[0] <= '9'))
    ensures DigitRun(digits + rest) == |digits|
  {
    if digits == "" {
      assert digits + rest == rest;
    } else {
      assert (digits + rest)[1..] == digits[1..] + rest;
      DigitRunIs(digits[1..], rest);
    }
  }

  lemma KindListed(kind: string)
    ensures IsKind(kind) <==> exists k | 0 <= k < |KINDS| :: kind == KINDS[k]
  {
    assert KINDS[0] == "search" && KINDS[1] == "image" && KINDS[2] == "news" && KINDS[3] == "video" && KINDS[4] == "ref" && KINDS[5] == "file";
  }

  lemma MarkerId(number: string, kind: string, index: string)
    requires IsDigits(number) && IsKind(kind) && IsDigits(index)
    ensures IsCitationId("turn" + number + kind + index)
  {
    hide DigitRun, IsKindAndNumber, IsKind;
    KindListed(kind);
    var k :| 0 <= k < |KINDS| && kind == KINDS[k];
    var id, tail := "turn" + number + kind + index, kind + index;
    FourPieces("turn", number, kind, index);
    assert id == "turn" + (number + tail);
    assert id[4..] == number + tail;
    KindStarts(kind, index);
    DigitRunIs(number, tail);
    assert (number + tail)[|number|..] == tail;
    assert id[4 + |number|..] == tail;
    assert IsKindAndNumber(tail, KINDS[k]);
  }

  lemma KindStarts(kind: string, index: string)
    requires IsKind(kind) && IsDigits(index)
    ensures kind != "" && !('0' <= kind[0] <= '9') && (kind + index)[0] == kind[0] && IsKindAndNumber(kind + index, kind)
  {
    var tail := kind + index;
    assert tail[|kind|..] == index && index + "" == index;
    DigitRunIs(index, "");
  }

  /** What starts like a marker is taken for one, with exactly these pieces. */
  lemma MarkerTaken(text: string, number: string, kind: string, index: string, rest: string)
    requires StartsMarker(text, number, kind, index, rest)
    ensures CitationHere(text) && IdHere(text) == "turn" + number + kind + index && AfterCitation(text) == rest
  {
    hide IsCitationId, IndexChar, IsKind;
    var id := "turn" + number + kind + index;
    MarkerId(number, kind, index);
    IdChars(id);
    assert text == "【" + id + "】" + rest;
    forall i | 0 <= i < |id| + 1
      ensures text[i] != '】'
    {
      assert i > 0 ==> text[i] == id[i - 1];
    }
    IndexCharAt(text, '】', |id| + 1);
    assert text[1..|id| + 1] == id;
    assert text[|id| + 2..] == rest;
  }

  /** And nothing else is. */
  lemma MarkerHas(text: string) returns (number: string, kind: string, index: string)
    requires CitationHere(text)
    ensures StartsMarker(text, number, kind, index, AfterCitation(text))
  {
    hide IsCitationId, IndexChar, DigitRun, IsKindAndNumber;
    var end := IndexChar(text, '】');
    var id := text[1..end];
    number, kind, index := IdShape(id);
    KindListed(kind);
    IndexCharFound(text, '】');
    assert text[0] == OPENER[0];
    assert text == "【" + id + "】" + text[end + 1..];
  }

  lemma IndexCharFound(s: string, c: char)
    requires IndexChar(s, c) >= 0
    ensures IndexChar(s, c) < |s| && s[IndexChar(s, c)] == c
  {
  }

  /** A marker at the head of the text becomes the chip that carries its identifier, and decoration goes on behind it. */
  lemma MarkerBecomesChip(text: string, number: string, kind: string, index: string, rest: string)
    requires StartsMarker(text, number, kind, index, rest)
    ensures var id := "turn" + number + kind + index;
            Decorated(text) == "<span class=\"citation-chip\" data-citation=\"" + id + "\" title=\"" + id + "\">source</span>" + Decorated(rest)
  {
    hide CitationHere, Decorated, Chip;
    MarkerTaken(text, number, kind, index, rest);
    Unfold(text);
    ChipText("turn" + number + kind + index);
  }

  /** Without a marker at the head, the first character is copied. */
  lemma OtherCopied(text: string)
    requires text != "" && forall number, kind, index, rest :: !StartsMarker(text, number, kind, index, rest)
    ensures Decorated(text) == [text[0]] + Decorated(text[1..])
  {
    hide CitationHere, StartsMarker, Decorated;
    Unfold(text);
    if CitationHere(text) {
      var number, kind, index := MarkerHas(text);
    }
  }
}
