/** Turning citation markers in rendered HTML into chips, outside tags and code. */
module Citations {
  import opened Strings

  // ---------- markers ----------

  const OPENER := "【turn"
  const KINDS: seq<string> := ["search", "image", "news", "video", "ref", "file"]

  function DigitRun(s: string): (n: nat)
    ensures n <= |s| && forall i | 0 <= i < n :: '0' <= s[i] <= '9'
  {
    if s != "" && '0' <= s[0] <= '9' then 1 + DigitRun(s[1..]) else 0
  }

  predicate IsKindAndNumber(s: string, kind: string) {
    kind < s && DigitRun(s[|kind|..]) == |s| - |kind|
  }

  /** `turn`, a number, a kind, a number. */
  predicate IsCitationId(id: string) {
    "turn" <= id &&
    var n := DigitRun(id[4..]);
    n >= 1 && exists k | 0 <= k < |KINDS| :: IsKindAndNumber(id[4 + n..], KINDS[k])
  }

  /** A valid marker stands at the head of the text; its identifier runs to the first closing bracket. */
  predicate CitationHere(text: string) {
    OPENER <= text && IndexChar(text, '】') >= 1 && IsCitationId(text[1..IndexChar(text, '】')])
  }

  function IdHere(text: string): string
    requires CitationHere(text)
  {
    text[1..IndexChar(text, '】')]
  }

  function AfterCitation(text: string): (rest: string)
    requires CitationHere(text)
    ensures |rest| < |text|
  {
    text[IndexChar(text, '】') + 1..]
  }

  const CHIP_OPEN := "<span class=\"citation-chip\" data-citation=\""
  const CHIP_TITLE := "\" title=\""

  /** The opening tag of a chip. */
  function ChipTag(id: string): string {
    CHIP_OPEN + id + CHIP_TITLE + id + "\">"
  }

  function Chip(id: string): string {
    ChipTag(id) + "source</span>"
  }

  /** Every valid marker replaced by its chip. */
  function Decorated(text: string): string {
    if text == "" then ""
    else if CitationHere(text) then Chip(IdHere(text)) + Decorated(AfterCitation(text))
    else [text[0]] + Decorated(text[1..])
  }

  // ---------- tags ----------

  function SkipBlanks(tag: string, i: nat): (j: nat)
    requires i <= |tag|
    ensures i <= j <= |tag|
    decreases |tag| - i
  {
    if i < |tag| && (tag[i] == ' ' || tag[i] == '\t' || tag[i] == '\n' || tag[i] == '\r') then SkipBlanks(tag, i + 1) else i
  }

  predicate IsNameChar(c: char) {
    'a' <= c <= 'z' || 'A' <= c <= 'Z' || '0' <= c <= '9' || c == '-'
  }

  function NameEnd(tag: string, i: nat): (j: nat)
    requires i <= |tag|
    ensures i <= j <= |tag|
    decreases |tag| - i
  {
    if i < |tag| && IsNameChar(tag[i]) then NameEnd(tag, i + 1) else i
  }

  function Lower(s: string): (t: string)
    ensures |t| == |s|
  {
    seq(|s|, i requires 0 <= i < |s| => if 'A' <= s[i] <= 'Z' then ((s[i] as int) + 32) as char else s[i])
  }

  datatype Tag = Tag(name: string, closing: bool, selfClosing: bool)

  /** `htmlTagName` */
  function ParseTag(tag: string): Tag {
    if |tag| < 3 || tag[0] != '<' then Tag("", false, false)
    else
      var closing := tag[1] == '/';
      var start := SkipBlanks(tag, if closing then 2 else 1);
      var end := NameEnd(tag, start);
      if start == end then Tag("", closing, false)
      else Tag(Lower(tag[start..end]), closing, HasSuffix(TrimSpace(tag), "/>"))
  }

  /** How many `pre` and `code` elements are open after the tag. */
  function DepthAfter(tag: string, depth: nat): nat {
    var parsed := ParseTag(tag);
    if parsed.name != "pre" && parsed.name != "code" then depth
    else if parsed.closing then if depth > 0 then depth - 1 else 0
    else if parsed.selfClosing then depth
    else depth + 1
  }

  // ---------- the rewriting ----------

  /** Where the text before the next tag ends. */
  function TextEnd(s: string): (end: nat)
    ensures end <= |s| && forall i | 0 <= i < end :: s[i] != '<'
    ensures end < |s| ==> s[end] == '<'
  {
    var i := IndexChar(s, '<');
    if i < 0 then |s| else i
  }

  function Decorate(s: string, depth: nat): string
    decreases |s|
  {
    if s == "" then ""
    else if s[0] == '<' then
      var end := IndexChar(s, '>') + 1;
      if end == 0 then Decorated(s) else s[..end] + Decorate(s[end..], DepthAfter(s[..end], depth))
    else
      var end := TextEnd(s);
      (if depth > 0 then s[..end] else Decorated(s[..end])) + Decorate(s[end..], depth)
  }

  // ---------- facts about markers ----------

  lemma {:induction false} IndexCharPrefix(s: string, rest: string, c: char)
    ensures IndexChar(s, c) >= 0 ==> IndexChar(s + rest, c) == IndexChar(s, c)
    ensures IndexChar(s, c) < 0 ==> IndexChar(s + rest, c) == if IndexChar(rest, c) < 0 then -1 else |s| + IndexChar(rest, c)
  {
    if s == "" {
      assert s + rest == rest;
    } else if s[0] != c {
      IndexCharPrefix(s[1..], rest, c);
      assert (s + rest)[1..] == s[1..] + rest;
    }
  }

  /** A marker stays a marker when text is added behind it. */
  lemma CitationExtends(u: string, v: string)
    requires CitationHere(u)
    ensures CitationHere(u + v)
  {
    hide IsCitationId;
    IndexCharPrefix(u, v, '】');
    var e := IndexChar(u, '】');
    assert (u + v)[1..e] == u[1..e];
  }

  /** No marker starts anywhere in `w`, reading on into `t`. */
  ghost predicate Uncited(w: string, t: string) {
    forall i | 0 <= i < |w| :: !CitationHere((w + t)[i..])
  }

  lemma UncitedAlone(w: string, t: string)
    requires Uncited(w, t)
    ensures Uncited(w, "")
  {
    hide CitationHere;
    forall i | 0 <= i < |w|
      ensures !CitationHere((w + "")[i..])
    {
      assert (w + "")[i..] == w[i..];
      assert (w + t)[i..] == w[i..] + t;
      if CitationHere(w[i..]) {
        CitationExtends(w[i..], t);
      }
    }
  }

  lemma {:induction false} UncitedUnchanged(w: string)
    requires Uncited(w, "")
    ensures Decorated(w) == w
  {
    hide CitationHere;
    assert w + "" == w;
    if w != "" {
      assert w[0..] == w;
      assert !CitationHere(w);
      UncitedSuffix(w, 1);
      UncitedUnchanged(w[1..]);
    }
  }

  lemma UncitedSuffix(w: string, k: nat)
    requires Uncited(w, "") && k <= |w|
    ensures Uncited(w[k..], "")
  {
    hide CitationHere;
    assert w + "" == w && w[k..] + "" == w[k..];
    forall i | 0 <= i < |w[k..]|
      ensures !CitationHere(w[k..][i..])
    {
      assert w[k..][i..] == w[k + i..];
    }
  }

  lemma UncitedPrefix(w: string, k: nat)
    requires Uncited(w, "") && k <= |w|
    ensures Uncited(w[..k], "")
  {
    hide CitationHere;
    assert w[..k] + w[k..] == w + "";
    forall i | 0 <= i < k
      ensures !CitationHere((w[..k] + w[k..])[i..])
    {
      assert (w[..k] + w[k..])[i..] == (w + "")[i..];
    }
    UncitedAlone(w[..k], w[k..]);
  }

  lemma UncitedGrows(w: string, t: string)
    requires Uncited(w, t) && t != "" && !CitationHere(t)
    ensures Uncited(w + [t[0]], t[1..])
  {
    hide CitationHere;
    assert w + [t[0]] + t[1..] == w + t;
    assert (w + t)[|w|..] == t;
  }

  // ---------- facts about chips ----------

  predicate IsWordChar(c: char) {
    'a' <= c <= 'z' || '0' <= c <= '9'
  }

  lemma KindChars()
    ensures forall k, i | 0 <= k < |KINDS| && 0 <= i < |KINDS[k]| :: IsWordChar(KINDS[k][i])
  {
    assert forall i | 0 <= i < |"search"| :: IsWordChar("search"[i]);
    assert forall i | 0 <= i < |"image"| :: IsWordChar("image"[i]);
    assert forall i | 0 <= i < |"news"| :: IsWordChar("news"[i]);
    assert forall i | 0 <= i < |"video"| :: IsWordChar("video"[i]);
    assert forall i | 0 <= i < |"ref"| :: IsWordChar("ref"[i]);
    assert forall i | 0 <= i < |"file"| :: IsWordChar("file"[i]);
  }

  lemma IdShape(id: string) returns (number: string, kind: string, index: string)
    requires IsCitationId(id)
    ensures id == "turn" + number + kind + index
    ensures exists k | 0 <= k < |KINDS| :: kind == KINDS[k]
    ensures number != "" && forall i | 0 <= i < |number| :: '0' <= number[i] <= '9'
    ensures index != "" && forall i | 0 <= i < |index| :: '0' <= index[i] <= '9'
  {
    hide DigitRun, IsKindAndNumber;
    var n := DigitRun(id[4..]);
    var tail := id[4 + n..];
    var k :| 0 <= k < |KINDS| && IsKindAndNumber(tail, KINDS[k]);
    number, kind := id[4..][..n], KINDS[k];
    KindAndNumber(tail, kind);
    index := tail[|kind|..];
    assert id[4..] == number + tail;
    assert id == "turn" + (number + (kind + index));
    FourPieces("turn", number, kind, index);
  }

  lemma KindAndNumber(tail: string, kind: string)
    requires IsKindAndNumber(tail, kind)
    ensures kind < tail && tail == kind + tail[|kind|..] && forall i | 0 <= i < |tail[|kind|..]| :: '0' <= tail[|kind|..][i] <= '9'
  {
    hide DigitRun;
  }

  lemma FourPieces(a: string, b: string, c: string, d: string)
    ensures a + (b + (c + d)) == a + b + c + d
  {
  }

  /** Identifiers consist of letters and digits, so escaping them for HTML changes nothing. */
  lemma IdChars(id: string)
    requires IsCitationId(id)
    ensures forall i | 0 <= i < |id| :: IsWordChar(id[i])
  {
    hide IsCitationId;
    var number, kind, index := IdShape(id);
    KindChars();
    var k :| 0 <= k < |KINDS| && kind == KINDS[k];
    forall i | 0 <= i < |id|
      ensures IsWordChar(id[i])
    {
      var n := 4 + |number|;
      if i < 4 {
        assert id[i] == "turn"[i];
      } else if i < n {
        assert id[i] == number[i - 4];
      } else if i < n + |kind| {
        assert id[i] == kind[i - n];
      } else {
        assert id[i] == index[i - n - |kind|];
      }
    }
  }

  /** The first `>` of a chip, behind any text without one, is the last character of its opening tag. */
  lemma ChipTagEnds(b: string, id: string, x: string)
    requires IsCitationId(id) && forall i | 0 <= i < |b| :: b[i] != '>'
    ensures |ChipTag(id)| >= 2 && ChipTag(id)[0] == '<' && IndexChar(b + ChipTag(id) + x, '>') == |b| + |ChipTag(id)| - 1
  {
    hide IsCitationId;
    IdChars(id);
    var tag := ChipTag(id);
    var n, m := |CHIP_OPEN|, |CHIP_TITLE|;
    assert forall i | 0 <= i < n :: tag[i] == CHIP_OPEN[i] && CHIP_OPEN[i] != '>';
    assert forall i | 0 <= i < m :: CHIP_TITLE[i] != '>';
    forall i | 0 <= i < |tag| - 1
      ensures tag[i] != '>'
    {
      if n <= i < n + |id| {
        assert tag[i] == id[i - n];
      } else if n + |id| <= i < n + |id| + m {
        assert tag[i] == CHIP_TITLE[i - n - |id|];
      } else if n + |id| + m <= i < n + |id| + m + |id| {
        assert tag[i] == id[i - n - |id| - m];
      }
    }
    var s := b + tag + x;
    assert forall i | 0 <= i < |tag| :: s[|b| + i] == tag[i];
    forall i | 0 <= i < |b| + |tag| - 1
      ensures s[i] != '>'
    {
      assert i >= |b| ==> s[i] == tag[i - |b|];
    }
    IndexCharAt(s, '>', |b| + |tag| - 1);
  }

  /** A tag whose name is `span` leaves the depth alone. */
  lemma SpanTag(tag: string, start: nat, depth: nat)
    requires |tag| > start + 4 && tag[0] == '<'
    requires if tag[1] == '/' then start == 2 else start == 1
    requires tag[start] == 's' && tag[start + 1] == 'p' && tag[start + 2] == 'a' && tag[start + 3] == 'n' && !IsNameChar(tag[start + 4])
    ensures DepthAfter(tag, depth) == depth
  {
    assert SkipBlanks(tag, start) == start;
    assert NameEnd(tag, start + 4) == start + 4;
    assert NameEnd(tag, start + 3) == start + 4;
    assert NameEnd(tag, start + 2) == start + 4;
    assert NameEnd(tag, start + 1) == start + 4;
    assert NameEnd(tag, start) == start + 4;
    assert ParseTag(tag).name == Lower(tag[start..start + 4]);
    assert ParseTag(tag).name[0] == 's';
  }

  lemma SpanKeepsDepth(id: string, depth: nat)
    ensures DepthAfter(ChipTag(id), depth) == depth && DepthAfter("</span>", depth) == depth
  {
    hide DepthAfter, ChipTag;
    ChipTagIsSpan(id);
    SpanTag(ChipTag(id), 1, depth);
    SpanTag("</span>", 2, depth);
  }

  lemma ChipTagIsSpan(id: string)
    ensures |ChipTag(id)| > 6 && ChipTag(id)[..6] == "<span "
  {
    assert forall i | 0 <= i < 6 :: CHIP_OPEN[i] == "<span "[i];
    assert forall i | 0 <= i < 6 :: ChipTag(id)[i] == CHIP_OPEN[i];
  }

  lemma DecorateText(t: string, rest: string, depth: nat)
    requires t != "" && (forall i | 0 <= i < |t| :: t[i] != '<') && (rest == "" || rest[0] == '<')
    ensures Decorate(t + rest, depth) == (if depth > 0 then t else Decorated(t)) + Decorate(rest, depth)
  {
    var s := t + rest;
    assert s[..|t|] == t && s[|t|..] == rest;
    assert forall i | 0 <= i < |t| :: s[i] == t[i];
    assert rest != "" ==> s[|t|] == '<';
  }

  lemma DecorateTag(tag: string, rest: string, depth: nat)
    requires |tag| >= 2 && tag[0] == '<' && IndexChar(tag + rest, '>') == |tag| - 1
    ensures Decorate(tag + rest, depth) == tag + Decorate(rest, DepthAfter(tag, depth))
  {
    assert (tag + rest)[..|tag|] == tag && (tag + rest)[|tag|..] == rest;
  }

  /** The inside and the end of a chip are copied. */
  lemma AfterChipTag(x: string, depth: nat)
    ensures Decorate("source</span>" + x, depth) == "source</span>" + Decorate(x, depth)
  {
    hide DepthAfter, CitationHere, ChipTag, Decorate, Decorated;
    var t := "</span>" + x;
    assert "source</span>" + x == "source" + t;
    DecorateText("source", t, depth);
    SourceUncited();
    UncitedUnchanged("source");
    assert forall i | 0 <= i < 6 :: t[i] == "</span>"[i] != '>';
    IndexCharAt(t, '>', 6);
    DecorateTag("</span>", x, depth);
    SpanKeepsDepth("", depth);
    assert "source" + ("</span>" + Decorate(x, depth)) == "source</span>" + Decorate(x, depth);
  }

  lemma SourceUncited()
    ensures Uncited("source", "")
  {
    forall i | 0 <= i < |"source"|
      ensures !CitationHere(("source" + "")[i..])
    {
      assert ("source" + "")[i..][0] != '【';
    }
  }

  // ---------- decorating twice ----------

  /** Decorating plain text followed by a chip copies both, if what follows the chip is copied. */
  lemma ChipInTextStays(w: string, id: string, x: string)
    requires IsCitationId(id) && Uncited(w, "") && forall i | 0 <= i < |w| :: w[i] != '<'
    ensures Decorate(w + (Chip(id) + x), 0) == w + (Chip(id) + Decorate(x, 0))
  {
    hide CitationHere, IsCitationId, DepthAfter, Decorate, Decorated, Uncited, ChipTag;
    var tag := ChipTag(id);
    var y := "source</span>" + x;
    UncitedUnchanged(w);
    ChipTagEnds("", id, y);
    assert "" + tag + y == tag + y;
    assert Chip(id) + x == tag + y;
    if w != "" {
      DecorateText(w, tag + y, 0);
    } else {
      assert w + (tag + y) == tag + y;
    }
    DecorateTag(tag, y, 0);
    SpanKeepsDepth(id, 0);
    AfterChipTag(x, 0);
    assert tag + ("source</span>" + Decorate(x, 0)) == Chip(id) + Decorate(x, 0);
  }

  lemma Unfold(t: string)
    ensures t == "" ==> Decorated(t) == ""
    ensures t != "" && CitationHere(t) ==> Decorated(t) == Chip(IdHere(t)) + Decorated(AfterCitation(t))
    ensures t != "" && !CitationHere(t) ==> Decorated(t) == [t[0]] + Decorated(t[1..])
  {
  }

  lemma Assoc(a: string, b: string, c: string)
    ensures a + (b + c) == a + b + c
  {
  }

  lemma PlainTextStays(w: string, rest: string, depth: nat)
    requires Uncited(w, "") && (rest == "" || rest[0] == '<') && forall i | 0 <= i < |w| :: w[i] != '<'
    ensures Decorate(w + rest, depth) == w + Decorate(rest, depth)
  {
    hide CitationHere, Decorate, Decorated, Uncited;
    UncitedUnchanged(w);
    if w != "" {
      DecorateText(w, rest, depth);
    } else {
      assert w + rest == rest && w + Decorate(rest, depth) == Decorate(rest, depth);
    }
  }

  /** Decorated text, closed off by a tag or the end, decorates to itself. */
  lemma {:induction false} DecoratedTextStays(w: string, t: string, rest: string)
    requires Uncited(w, t) && (rest == "" || rest[0] == '<')
    requires (forall i | 0 <= i < |w| :: w[i] != '<') && forall i | 0 <= i < |t| :: t[i] != '<'
    ensures Decorate(w + (Decorated(t) + rest), 0) == w + (Decorated(t) + Decorate(rest, 0))
    decreases |t|
  {
    hide CitationHere, IsCitationId, DepthAfter, Decorate, Decorated, Uncited, Chip, IdHere, AfterCitation;
    Unfold(t);
    if t == "" {
      UncitedAlone(w, t);
      PlainTextStays(w, rest, 0);
      assert Decorated(t) + rest == rest && Decorated(t) + Decorate(rest, 0) == Decorate(rest, 0);
    } else if CitationHere(t) {
      var chip, t' := Chip(IdHere(t)), AfterCitation(t);
      UncitedAlone(w, t);
      HereIsId(t);
      ChipInTextStays(w, IdHere(t), Decorated(t') + rest);
      EmptyUncited(t');
      DecoratedTextStays("", t', rest);
      assert "" + (Decorated(t') + rest) == Decorated(t') + rest;
      assert "" + (Decorated(t') + Decorate(rest, 0)) == Decorated(t') + Decorate(rest, 0);
      Assoc(chip, Decorated(t'), rest);
      Assoc(chip, Decorated(t'), Decorate(rest, 0));
    } else {
      var tail := Decorated(t[1..]);
      UncitedGrows(w, t);
      DecoratedTextStays(w + [t[0]], t[1..], rest);
      Assoc([t[0]], tail, rest);
      Assoc([t[0]], tail, Decorate(rest, 0));
      Assoc(w, [t[0]], tail + rest);
      Assoc(w, [t[0]], tail + Decorate(rest, 0));
    }
  }

  lemma EmptyUncited(t: string)
    ensures Uncited("", t)
  {
  }

  lemma HereIsId(t: string)
    requires CitationHere(t)
    ensures IsCitationId(IdHere(t))
    ensures forall i | 0 <= i < |AfterCitation(t)| :: AfterCitation(t)[i] in t
  {
  }

  /** Text without markers and without a complete tag is copied at any depth. */
  lemma PlainStays(w: string, depth: nat)
    requires Uncited(w, "") && forall i | 0 <= i < |w| :: w[i] != '>'
    ensures Decorate(w, depth) == w
  {
    hide CitationHere, Decorated, Uncited;
    if w == "" {
    } else if w[0] == '<' {
      UncitedUnchanged(w);
    } else {
      var end := TextEnd(w);
      UncitedPrefix(w, end);
      UncitedUnchanged(w[..end]);
      UncitedSuffix(w, end);
      UncitedUnchanged(w[end..]);
      assert w[end..] != "" ==> w[end..][0] == w[end] == '<' && IndexChar(w[end..], '>') < 0;
      assert w[..end] + w[end..] == w;
    }
  }

  lemma TagSwallowsChip(b: string, id: string, x: string, depth: nat)
    requires IsCitationId(id) && (b == "" || b[0] == '<') && forall i | 0 <= i < |b| :: b[i] != '>'
    ensures Decorate(b + (Chip(id) + x), depth) == b + (Chip(id) + Decorate(x, DepthAfter(b + ChipTag(id), depth)))
  {
    hide CitationHere, IsCitationId, DepthAfter, Decorate, Decorated, ChipTag;
    var tag := b + ChipTag(id);
    var y := "source</span>" + x;
    var depth' := DepthAfter(tag, depth);
    ChipTagEnds(b, id, y);
    DecorateTag(tag, y, depth);
    AfterChipTag(x, depth');
    assert b + (Chip(id) + x) == tag + y;
    assert b + (Chip(id) + Decorate(x, depth')) == tag + ("source</span>" + Decorate(x, depth'));
  }

  /** An unclosed tag before a chip swallows the chip's own tag; everything is copied, at whatever depth follows. */
  lemma ChipInUnclosedStays(w: string, id: string, x: string, depth: nat) returns (depth': nat)
    requires IsCitationId(id) && Uncited(w, "") && forall i | 0 <= i < |w| :: w[i] != '>'
    ensures Decorate(w + (Chip(id) + x), depth) == w + (Chip(id) + Decorate(x, depth'))
  {
    hide CitationHere, IsCitationId, DepthAfter, Decorate, Decorated, Uncited, Chip;
    var end := TextEnd(w);
    var a, b := w[..end], w[end..];
    assert b != "" ==> b[0] == w[end];
    depth' := DepthAfter(b + ChipTag(id), depth);
    TagSwallowsChip(b, id, x, depth);
    UncitedPrefix(w, end);
    ChipHead(b, id, x);
    PlainTextStays(a, b + (Chip(id) + x), depth);
    Assoc(a, b, Chip(id) + x);
    Assoc(a, b, Chip(id) + Decorate(x, depth'));
    assert a + b == w;
  }

  lemma ChipHead(b: string, id: string, x: string)
    requires b == "" || b[0] == '<'
    ensures b + (Chip(id) + x) != "" && (b + (Chip(id) + x))[0] == '<'
  {
    assert Chip(id)[0] == CHIP_OPEN[0];
  }

  /** What follows an unclosed tag is decorated whatever the depth; once decorated it stays as it is. */
  lemma {:induction false} UnclosedStays(w: string, u: string, depth: nat)
    requires Uncited(w, u) && (forall i | 0 <= i < |w| :: w[i] != '>') && forall i | 0 <= i < |u| :: u[i] != '>'
    ensures Decorate(w + Decorated(u), depth) == w + Decorated(u)
    decreases |u|
  {
    hide CitationHere, IsCitationId, DepthAfter, Decorate, Decorated, Uncited, Chip, IdHere, AfterCitation;
    Unfold(u);
    if u == "" {
      UncitedAlone(w, u);
      PlainStays(w, depth);
      assert w + Decorated(u) == w;
    } else if CitationHere(u) {
      var u' := AfterCitation(u);
      UncitedAlone(w, u);
      HereIsId(u);
      var depth' := ChipInUnclosedStays(w, IdHere(u), Decorated(u'), depth);
      EmptyUncited(u');
      UnclosedStays("", u', depth');
      assert "" + Decorated(u') == Decorated(u');
    } else {
      UncitedGrows(w, u);
      UnclosedStays(w + [u[0]], u[1..], depth);
      Assoc(w, [u[0]], Decorated(u[1..]));
    }
  }

  /** Decorating keeps a leading `<`, so tokens begin where they began. */
  lemma KeepsHead(s: string, depth: nat)
    requires s == "" || s[0] == '<'
    ensures Decorate(s, depth) == "" || Decorate(s, depth)[0] == '<'
  {
  }

  lemma TextTwice(t: string, rest: string, depth: nat)
    requires t != "" && (rest == "" || rest[0] == '<') && forall i | 0 <= i < |t| :: t[i] != '<'
    requires Decorate(rest, depth) == rest
    ensures var out := (if depth > 0 then t else Decorated(t)) + rest; Decorate(out, depth) == out
  {
    hide CitationHere, DepthAfter, Decorate, Decorated, Uncited;
    if depth > 0 {
      DecorateText(t, rest, depth);
    } else {
      EmptyUncited(t);
      DecoratedTextStays("", t, rest);
      assert "" + (Decorated(t) + rest) == Decorated(t) + rest;
    }
  }

  lemma TagTwice(tag: string, rest: string, depth: nat)
    requires |tag| >= 2 && tag[0] == '<' && tag[|tag| - 1] == '>' && forall i | 0 <= i < |tag| - 1 :: tag[i] != '>'
    requires Decorate(rest, DepthAfter(tag, depth)) == rest
    ensures Decorate(tag + rest, depth) == tag + rest
  {
    hide DepthAfter, Decorate;
    assert forall i | 0 <= i < |tag| :: (tag + rest)[i] == tag[i];
    IndexCharAt(tag + rest, '>', |tag| - 1);
    DecorateTag(tag, rest, depth);
  }

  /**
   Decorating twice is decorating once, for every string: unclosed tags, nested or invalid markers and
   code included.
   */
  lemma {:induction false} DecorateIdempotent(s: string, depth: nat)
    ensures Decorate(Decorate(s, depth), depth) == Decorate(s, depth)
    decreases |s|
  {
    hide CitationHere, DepthAfter, Decorate, Decorated, Uncited, IndexChar, TextEnd;
    if s == "" {
      DecorateNothing(depth);
    } else if s[0] == '<' {
      var end := IndexChar(s, '>') + 1;
      if end == 0 {
        UnclosedTag(s, depth);
        EmptyUncited(s);
        UnclosedStays("", s, depth);
        assert "" + Decorated(s) == Decorated(s);
      } else {
        assert s == s[..end] + s[end..];
        DecorateTag(s[..end], s[end..], depth);
        DecorateIdempotent(s[end..], DepthAfter(s[..end], depth));
        TagTwice(s[..end], Decorate(s[end..], DepthAfter(s[..end], depth)), depth);
      }
    } else {
      var end := TextEnd(s);
      assert s[end..] != "" ==> s[end..][0] == s[end];
      assert s == s[..end] + s[end..];
      DecorateText(s[..end], s[end..], depth);
      DecorateIdempotent(s[end..], depth);
      KeepsHead(s[end..], depth);
      TextTwice(s[..end], Decorate(s[end..], depth), depth);
    }
  }

  // ---------- what is kept, everywhere ----------

  /** A complete tag, or a run of text up to the next `<`. */
  datatype Token = Markup(text: string) | Plain(text: string)

  predicate IsToken(token: Token) {
    var t := token.text;
    match token
    case Markup(_) => |t| >= 2 && t[0] == '<' && t[|t| - 1] == '>' && forall i | 0 <= i < |t| - 1 :: t[i] != '>'
    case Plain(_) => t != "" && forall i | 0 <= i < |t| :: t[i] != '<'
  }

  function Spell(tokens: seq<Token>): string {
    if tokens == [] then "" else tokens[0].text + Spell(tokens[1..])
  }

  predicate AtBoundary(rest: string) {
    rest == "" || rest[0] == '<'
  }

  /** The string `Spell(tokens) + rest` falls into these tokens and that rest: no run of text goes on behind its token. */
  predicate Parsed(tokens: seq<Token>, rest: string) {
    tokens == [] || (IsToken(tokens[0]) && (tokens[0].Plain? ==> AtBoundary(Spell(tokens[1..]) + rest)) && Parsed(tokens[1..], rest))
  }

  /** A final tag that is never closed, if any. */
  predicate Unclosed(rest: string) {
    rest == "" || (rest[0] == '<' && forall i | 0 <= i < |rest| :: rest[i] != '>')
  }

  /** How many `pre` and `code` tags are open behind some tokens. */
  function DepthThrough(tokens: seq<Token>, depth: nat): nat
    decreases |tokens|
  {
    if tokens == [] then depth else DepthThrough(tokens[1..], DepthPast(tokens[0], depth))
  }

  function DepthPast(token: Token, depth: nat): nat {
    if token.Markup? then DepthAfter(token.text, depth) else depth
  }

  /** Every string falls into tokens and an unclosed tag. */
  lemma {:induction false} Tokenize(s: string) returns (tokens: seq<Token>, rest: string)
    ensures s == Spell(tokens) + rest && Parsed(tokens, rest) && Unclosed(rest)
    decreases |s|
  {
    hide IndexChar, TextEnd;
    if s == "" || (s[0] == '<' && IndexChar(s, '>') < 0) {
      tokens, rest := [], s;
      assert "" + s == s;
    } else {
      var end := if s[0] == '<' then IndexChar(s, '>') + 1 else TextEnd(s);
      var head := if s[0] == '<' then Markup(s[..end]) else Plain(s[..end]);
      assert s == s[..end] + s[end..];
      assert head.Plain? ==> AtBoundary(s[end..]);
      assert IsToken(head);
      var later;
      later, rest := Tokenize(s[end..]);
      tokens := [head] + later;
      assert tokens[1..] == later;
      assert head.text + (Spell(later) + rest) == head.text + Spell(later) + rest;
    }
  }

  /** Nor can a string fall into others. */
  lemma {:induction false} OnlyOneParse(a: seq<Token>, x: string, b: seq<Token>, y: string)
    requires Spell(a) + x == Spell(b) + y && Parsed(a, x) && Parsed(b, y) && Unclosed(x) && Unclosed(y)
    ensures a == b && x == y
    decreases |a|
  {
    if a != [] {
      TokenCloses(a[0], Spell(a[1..]) + x);
      assert Spell(a) + x == a[0].text + (Spell(a[1..]) + x);
    }
    if b != [] {
      TokenCloses(b[0], Spell(b[1..]) + y);
      assert Spell(b) + y == b[0].text + (Spell(b[1..]) + y);
    }
    assert "" + x == x && "" + y == y;
    if a != [] && b != [] {
      var laterA, laterB := Spell(a[1..]) + x, Spell(b[1..]) + y;
      assert Spell(a) + x == a[0].text + laterA && Spell(b) + y == b[0].text + laterB;
      SameHead(a[0], laterA, b[0], laterB);
      OnlyOneParse(a[1..], x, b[1..], y);
      assert a == [a[0]] + a[1..] && b == [b[0]] + b[1..];
    }
  }

  lemma TokenCloses(token: Token, later: string)
    requires IsToken(token)
    ensures !Unclosed(token.text + later)
  {
    var t := token.text;
    assert (t + later)[0] == t[0] && (t + later)[|t| - 1] == t[|t| - 1];
  }

  lemma SameHead(a: Token, x: string, b: Token, y: string)
    requires IsToken(a) && IsToken(b) && a.text + x == b.text + y
    requires (a.Plain? ==> AtBoundary(x)) && (b.Plain? ==> AtBoundary(y))
    ensures a == b && x == y
  {
    var s, m, n := a.text + x, |a.text|, |b.text|;
    assert s[0] == a.text[0] && s[0] == b.text[0];
    assert forall i | 0 <= i < m :: s[i] == a.text[i];
    assert forall i | 0 <= i < n :: s[i] == b.text[i];
    assert x != "" ==> s[m] == x[0];
    assert y != "" ==> s[n] == y[0];
    assert s[..m] == a.text && s[..n] == b.text && s[m..] == x && s[n..] == y;
    assert m == n;
  }

  /** What becomes of one token: tags and code are kept. */
  function Treated(token: Token, depth: nat): string {
    if token.Markup? || depth > 0 then token.text else Decorated(token.text)
  }

  lemma DecorateToken(token: Token, rest: string, depth: nat)
    requires IsToken(token) && (token.Plain? ==> AtBoundary(rest))
    ensures Decorate(token.text + rest, depth) == Treated(token, depth) + Decorate(rest, DepthPast(token, depth))
  {
    hide Decorate, DepthAfter, Decorated;
    var t := token.text;
    if token.Markup? {
      assert forall i | 0 <= i < |t| :: (t + rest)[i] == t[i];
      IndexCharAt(t + rest, '>', |t| - 1);
      DecorateTag(t, rest, depth);
    } else {
      DecorateText(t, rest, depth);
    }
  }

  /** Some tokens are decorated one by one, each at its own depth, whatever comes behind them. */
  lemma {:induction false} DecorateTokens(tokens: seq<Token>, rest: string, depth: nat) returns (pieces: seq<string>)
    requires Parsed(tokens, rest)
    ensures |pieces| == |tokens| && Decorate(Spell(tokens) + rest, depth) == Concat(pieces) + Decorate(rest, DepthThrough(tokens, depth))
    ensures forall i | 0 <= i < |tokens| :: pieces[i] == Treated(tokens[i], DepthThrough(tokens[..i], depth))
    decreases |tokens|
  {
    hide Decorate, DepthPast, Treated, AtBoundary, IsToken, Concat;
    if tokens == [] {
      pieces := [];
      NoPieces();
      assert Spell(tokens) + rest == rest && "" + Decorate(rest, depth) == Decorate(rest, depth);
    } else {
      var head, later, past := tokens[0], Spell(tokens[1..]) + rest, DepthPast(tokens[0], depth);
      assert Spell(tokens) + rest == head.text + later;
      DecorateToken(head, later, depth);
      var others := DecorateTokens(tokens[1..], rest, past);
      pieces := [Treated(head, depth)] + others;
      ConcatCons(Treated(head, depth), others);
      var last := Decorate(rest, DepthThrough(tokens, depth));
      assert Treated(head, depth) + (Concat(others) + last) == Treated(head, depth) + Concat(others) + last;
      forall i | 0 <= i < |tokens|
        ensures pieces[i] == Treated(tokens[i], DepthThrough(tokens[..i], depth))
      {
        if i > 0 {
          assert tokens[..i][1..] == tokens[1..][..i - 1];
          assert tokens[i] == tokens[1..][i - 1] && pieces[i] == others[i - 1];
        }
      }
    }
  }

  lemma NoPieces()
    ensures Concat([]) == ""
  {
  }

  lemma ConcatCons(head: string, rest: seq<string>)
    ensures Concat([head] + rest) == head + Concat(rest)
  {
    ConcatAppend([head], rest);
    assert [head][..0] == [] && "" + head == head;
  }

  lemma {:induction false} ParsedAlone(tokens: seq<Token>, rest: string)
    requires Parsed(tokens, rest)
    ensures Parsed(tokens, "")
  {
    if tokens != [] {
      ParsedAlone(tokens[1..], rest);
      if tokens[1..] != [] {
        assert IsToken(tokens[1..][0]);
        assert (Spell(tokens[1..]) + rest)[0] == (Spell(tokens[1..]) + "")[0];
      }
    }
  }

  /** Decoration goes piece by piece: what stands behind complete tokens is decorated on its own, at the depth they leave. */
  lemma DecorateSplits(tokens: seq<Token>, rest: string, depth: nat)
    requires Parsed(tokens, rest)
    ensures Decorate(Spell(tokens) + rest, depth) == Decorate(Spell(tokens), depth) + Decorate(rest, DepthThrough(tokens, depth))
  {
    hide Decorate, Parsed, Treated, DepthThrough, Concat;
    var pieces := DecorateTokens(tokens, rest, depth);
    ParsedAlone(tokens, rest);
    var alone := DecorateTokens(tokens, "", depth);
    DecorateNothing(DepthThrough(tokens, depth));
    assert pieces == alone;
    assert Spell(tokens) + "" == Spell(tokens) && Concat(alone) + "" == Concat(alone);
  }

  /**
   Tags and code are left alone, everywhere. Any string falls, in exactly one way, into complete tags, runs
   of text and one final unclosed tag; in its decoration, in their order, every complete tag stands unchanged,
   every run inside `pre` or `code` stands unchanged, and every other run and the unclosed tag are decorated.
   */
  lemma TagsAndCodeKept(s: string, depth: nat) returns (tokens: seq<Token>, rest: string, pieces: seq<string>)
    ensures s == Spell(tokens) + rest && Parsed(tokens, rest) && Unclosed(rest)
    ensures forall a, x | s == Spell(a) + x && Parsed(a, x) && Unclosed(x) :: a == tokens && x == rest
    ensures |pieces| == |tokens| && Decorate(s, depth) == Concat(pieces) + Decorated(rest)
    ensures forall i | 0 <= i < |tokens| ::
              pieces[i] == if tokens[i].Markup? || DepthThrough(tokens[..i], depth) > 0 then tokens[i].text else Decorated(tokens[i].text)
  {
    hide Decorate, Decorated, Parsed, DepthThrough, Concat, Spell;
    tokens, rest := Tokenize(s);
    forall a, x | s == Spell(a) + x && Parsed(a, x) && Unclosed(x)
      ensures a == tokens && x == rest
    {
      OnlyOneParse(a, x, tokens, rest);
    }
    pieces := DecorateTokens(tokens, rest, depth);
    if rest == "" {
      DecorateNothing(DepthThrough(tokens, depth));
      Unfold("");
    } else {
      NoCloser(rest);
      UnclosedTag(rest, DepthThrough(tokens, depth));
    }
  }

  lemma NoCloser(rest: string)
    requires forall i | 0 <= i < |rest| :: rest[i] != '>'
    ensures IndexChar(rest, '>') < 0
  {
  }

  /** In particular, what stands between a tag that opens a `pre` or `code` and the next tag is copied, markers and all. */
  lemma CodeUntouched(tag: string, body: string, rest: string, depth: nat)
    requires |tag| >= 2 && tag[0] == '<' && tag[|tag| - 1] == '>' && forall i | 0 <= i < |tag| - 1 :: tag[i] != '>'
    requires DepthAfter(tag, depth) > 0
    requires (forall i | 0 <= i < |body| :: body[i] != '<') && (rest == "" || rest[0] == '<')
    ensures Decorate(tag + (body + rest), depth) == tag + (body + Decorate(rest, DepthAfter(tag, depth)))
  {
    hide DepthAfter, Decorate, Decorated;
    DecorateToken(Markup(tag), body + rest, depth);
    if body != "" {
      DecorateToken(Plain(body), rest, DepthAfter(tag, depth));
    } else {
      assert body + rest == rest && body + Decorate(rest, DepthAfter(tag, depth)) == Decorate(rest, DepthAfter(tag, depth));
    }
  }

  // ---------- the loops ----------

  datatype CitationMatch = CitationMatch(start: nat, end: nat, id: string)

  /** The valid markers from position `k` on, left to right. */
  function MatchesFrom(text: string, k: nat): seq<CitationMatch>
    requires k <= |text|
    decreases |text| - k
  {
    if k == |text| then []
    else if CitationHere(text[k..]) then
      var end := |text| - |AfterCitation(text[k..])|;
      [CitationMatch(k, end, IdHere(text[k..]))] + MatchesFrom(text, end)
    else MatchesFrom(text, k + 1)
  }

  lemma {:induction false} SkipTo(text: string, k: nat, m: nat)
    requires k <= m <= |text| && forall i | k <= i < m :: !CitationHere(text[i..])
    ensures MatchesFrom(text, k) == MatchesFrom(text, m)
    ensures Decorated(text[k..]) == text[k..m] + Decorated(text[m..])
    decreases m - k
  {
    hide CitationHere;
    if k < m {
      SkipTo(text, k + 1, m);
      assert text[k..][1..] == text[k + 1..];
      assert text[k..m] == [text[k]] + text[k + 1..m];
      Assoc([text[k]], text[k + 1..m], Decorated(text[m..]));
    } else {
      assert text[k..m] + Decorated(text[m..]) == Decorated(text[m..]);
    }
  }

  lemma NoneLeft(text: string, k: nat)
    requires k <= |text| && forall i | k <= i < |text| :: !CitationHere(text[i..])
    ensures MatchesFrom(text, k) == [] && Decorated(text[k..]) == text[k..]
  {
    hide CitationHere;
    SkipTo(text, k, |text|);
    assert text[|text|..] == "";
    assert text[k..|text|] + "" == text[k..];
  }

  lemma MatchHere(text: string, k: nat)
    requires k < |text| && CitationHere(text[k..])
    ensures var end := |text| - |AfterCitation(text[k..])|;
            && k < end <= |text| && text[end..] == AfterCitation(text[k..])
            && MatchesFrom(text, k) == [CitationMatch(k, end, IdHere(text[k..]))] + MatchesFrom(text, end)
            && Decorated(text[k..]) == Chip(IdHere(text[k..])) + Decorated(text[end..])
  {
    hide IsCitationId, Chip;
    Unfold(text[k..]);
  }

  /** Behind an opener, the marker's bracket is the first one after it. */
  lemma HeadClose(text: string, start: nat)
    requires start < |text| && OPENER <= text[start..]
    ensures var e := IndexChar(text[start + 1..], '】');
            && (e >= 0 ==> IndexChar(text[start..], '】') == e + 1 && text[start..][1..e + 1] == text[start + 1..start + 1 + e])
            && (e >= 0 ==> (CitationHere(text[start..]) <==> IsCitationId(text[start + 1..start + 1 + e])))
            && (e >= 0 && CitationHere(text[start..]) ==>
                  IdHere(text[start..]) == text[start + 1..start + 1 + e] && |text| - |AfterCitation(text[start..])| == start + e + 2)
  {
    hide IsCitationId;
    assert text[start..][0] == OPENER[0];
    assert text[start..][1..] == text[start + 1..];
  }

  lemma NoMarkerBefore(text: string, offset: nat, i: nat)
    requires offset <= i < |text|
    requires var r := Index(text[offset..], OPENER); r < 0 || i < offset + r
    ensures !CitationHere(text[i..])
  {
    hide IsCitationId, Index;
    assert text[offset..][i - offset..] == text[i..];
    assert !OccursAt(text[offset..], OPENER, i - offset);
  }

  /** Nothing is found before the next opener. */
  lemma SkipToOpener(text: string, offset: nat)
    requires offset <= |text|
    ensures var r := Index(text[offset..], OPENER);
            && (r < 0 ==> MatchesFrom(text, offset) == [])
            && (r >= 0 ==> offset + r < |text| && MatchesFrom(text, offset) == MatchesFrom(text, offset + r) && OPENER <= text[offset + r..])
  {
    hide CitationHere, IsCitationId, MatchesFrom, Decorated, Index;
    var r := Index(text[offset..], OPENER);
    var stop := if r < 0 then |text| else offset + r;
    forall i | offset <= i < stop
      ensures !CitationHere(text[i..])
    {
      NoMarkerBefore(text, offset, i);
    }
    if r < 0 {
      NoneLeft(text, offset);
    } else {
      SkipTo(text, offset, stop);
      assert text[offset..][r..] == text[stop..];
    }
  }

  lemma NoMarkerUnclosed(text: string, start: nat, i: nat)
    requires start <= i < |text| && IndexChar(text[start + 1..], '】') < 0
    ensures !CitationHere(text[i..])
  {
    assert forall k | 1 <= k < |text[i..]| :: text[i..][k] == text[i + k] == text[start + 1..][i + k - start - 1];
  }

  /** At an opener: a marker, or nothing here, or, without a closing bracket, nothing any more. */
  lemma AtOpener(text: string, start: nat)
    requires start < |text| && OPENER <= text[start..]
    ensures var e := IndexChar(text[start + 1..], '】');
            && (e < 0 ==> MatchesFrom(text, start) == [])
            && (e >= 0 ==>
                  var id := text[start + 1..start + 1 + e];
                  MatchesFrom(text, start) ==
                  if IsCitationId(id) then [CitationMatch(start, start + e + 2, id)] + MatchesFrom(text, start + e + 2)
                  else MatchesFrom(text, start + 1))
  {
    hide CitationHere, IsCitationId, MatchesFrom, Decorated, IdHere, AfterCitation;
    HeadClose(text, start);
    if IndexChar(text[start + 1..], '】') < 0 {
      forall i | start <= i < |text|
        ensures !CitationHere(text[i..])
      {
        NoMarkerUnclosed(text, start, i);
      }
      NoneLeft(text, start);
    } else if CitationHere(text[start..]) {
      MatchHere(text, start);
    } else {
      SkipTo(text, start, start + 1);
    }
  }

  /** `citationMatches` */
  method FindMatches(text: string) returns (matches: seq<CitationMatch>)
    ensures matches == MatchesFrom(text, 0)
  {
    hide IsCitationId, MatchesFrom, Index, IndexChar;
    matches := [];
    var offset := 0;
    while offset < |text|
      invariant 0 <= offset <= |text|
      invariant matches + MatchesFrom(text, offset) == MatchesFrom(text, 0)
      decreases |text| - offset
    {
      SkipToOpener(text, offset);
      var relativeStart := Index(text[offset..], OPENER);
      if relativeStart < 0 {
        return;
      }
      var start := offset + relativeStart;
      AtOpener(text, start);
      var idStart := start + 1;
      var relativeEnd := IndexChar(text[idStart..], '】');
      if relativeEnd < 0 {
        return;
      }
      var idEnd := idStart + relativeEnd;
      var end := idEnd + 1;
      var id := text[idStart..idEnd];
      if IsCitationId(id) {
        matches := matches + [CitationMatch(start, end, id)];
        offset := end;
        continue;
      }
      offset := idStart;
    }
    NoneLeft(text, offset);
  }

  /** `html.EscapeString` */
  function EscapeHtml(s: string): string {
    if s == "" then ""
    else
      (match s[0]
       case '<' => "&lt;"
       case '>' => "&gt;"
       case '&' => "&amp;"
       case '"' => "&#34;"
       case '\'' => "&#39;"
       case c => [c]) + EscapeHtml(s[1..])
  }

  lemma {:induction false} EscapeWord(s: string)
    requires forall i | 0 <= i < |s| :: IsWordChar(s[i])
    ensures EscapeHtml(s) == s
  {
    if s != "" {
      assert IsWordChar(s[0]);
      EscapeWord(s[1..]);
    }
  }

  lemma MatchFits(text: string, k: nat)
    requires k < |text| && CitationHere(text[k..])
    ensures EscapeHtml(IdHere(text[k..])) == IdHere(text[k..])
  {
    hide IsCitationId, CitationHere, IdHere;
    HereIsId(text[k..]);
    IdChars(IdHere(text[k..]));
    EscapeWord(IdHere(text[k..]));
  }

  /** Where the next match is, and what decorating does up to its end. */
  lemma {:induction false} NextMatch(text: string, k: nat)
    requires k <= |text|
    ensures MatchesFrom(text, k) == [] ==> Decorated(text[k..]) == text[k..]
    ensures MatchesFrom(text, k) != [] ==>
              var m := MatchesFrom(text, k)[0];
              && k <= m.start < m.end <= |text| && MatchesFrom(text, k)[1..] == MatchesFrom(text, m.end)
              && EscapeHtml(m.id) == m.id
              && Decorated(text[k..]) == text[k..m.start] + (Chip(m.id) + Decorated(text[m.end..]))
    decreases |text| - k
  {
    hide CitationHere, IsCitationId, EscapeHtml, Decorated, Chip, IdHere, AfterCitation;
    if k == |text| {
      NoneLeft(text, k);
    } else if CitationHere(text[k..]) {
      MatchHere(text, k);
      MatchFits(text, k);
      assert text[k..k] + Decorated(text[k..]) == Decorated(text[k..]);
    } else {
      NextMatch(text, k + 1);
      SkipTo(text, k, k + 1);
      if MatchesFrom(text, k) != [] {
        var m := MatchesFrom(text, k)[0];
        assert text[k..m.start] == text[k..k + 1] + text[k + 1..m.start];
        Assoc(text[k..k + 1], text[k + 1..m.start], Chip(m.id) + Decorated(text[m.end..]));
      } else {
        assert text[k..k + 1] + text[k + 1..] == text[k..];
      }
    }
  }

  /** `decorateCitationText` */
  method DecorateCitationText(input: string) returns (output: string)
    ensures output == Decorated(input)
  {
    hide MatchesFrom, Decorated, Chip, EscapeHtml;
    var matches := FindMatches(input);
    assert input[0..] == input;
    if |matches| == 0 {
      NextMatch(input, 0);
      return input;
    }
    output := "";
    var last := 0;
    for i := 0 to |matches|
      invariant 0 <= last <= |input|
      invariant MatchesFrom(input, last) == matches[i..]
      invariant output + Decorated(input[last..]) == Decorated(input)
    {
      NextMatch(input, last);
      var m := matches[i];
      ghost var before := output;
      output := output + input[last..m.start];
      output := output + CHIP_OPEN;
      output := output + EscapeHtml(m.id);
      output := output + CHIP_TITLE;
      output := output + EscapeHtml(m.id);
      output := output + "\">source</span>";
      Pieces(before, input[last..m.start], m.id, Decorated(input[m.end..]), output);
      last := m.end;
    }
    NextMatch(input, last);
    output := output + input[last..];
  }

  lemma Pieces(before: string, text: string, id: string, rest: string, output: string)
    requires output == before + text + CHIP_OPEN + id + CHIP_TITLE + id + "\">source</span>"
    ensures output + rest == before + (text + (Chip(id) + rest))
  {
    ChipText(id);
    hide Chip;
    assert CHIP_OPEN + id + CHIP_TITLE + id + "\">source</span>" == Chip(id);
    assert output == before + text + Chip(id);
  }

  lemma ChipText(id: string)
    ensures Chip(id) == CHIP_OPEN + id + CHIP_TITLE + id + "\">source</span>"
  {
  }

  lemma {:induction false} NoOpenerUnchanged(s: string, depth: nat)
    requires forall i | 0 <= i < |s| :: !CitationHere(s[i..])
    ensures Decorate(s, depth) == s
    decreases |s|
  {
    hide CitationHere, DepthAfter, Decorated;
    if s != "" {
      var end := if s[0] == '<' then IndexChar(s, '>') + 1 else TextEnd(s);
      assert s + "" == s;
      assert forall i | 0 <= i < |s| :: !CitationHere((s + "")[i..]);
      if s[0] == '<' && end == 0 {
        UncitedUnchanged(s);
      } else {
        assert forall i | 0 <= i < |s[end..]| :: s[end..][i..] == s[end + i..];
        NoOpenerUnchanged(s[end..], if s[0] == '<' then DepthAfter(s[..end], depth) else depth);
        UncitedPrefix(s, end);
        UncitedUnchanged(s[..end]);
        assert s[..end] + s[end..] == s;
      }
    }
  }

  lemma OpenerNeeded(input: string)
    requires !Contains(input, OPENER)
    ensures Decorate(input, 0) == input
  {
    hide CitationHere, Decorate;
    assert input[0..] == input;
    forall i | 0 <= i < |input|
      ensures !CitationHere(input[i..])
    {
      NoMarkerBefore(input, 0, i);
    }
    NoOpenerUnchanged(input, 0);
  }

  lemma UnclosedTag(s: string, depth: nat)
    requires s != "" && s[0] == '<' && IndexChar(s, '>') < 0
    ensures Decorate(s, depth) == Decorated(s)
  {
  }

  /** `decorateCitations` */
  method DecorateCitations(input: string) returns (output: string)
    ensures output == Decorate(input, 0)
  {
    hide Decorate, Decorated, DepthAfter, IndexChar, Contains;
    if !Contains(input, OPENER) {
      OpenerNeeded(input);
      return input;
    }
    output := "";
    var skipDepth := 0;
    var offset := 0;
    assert input[0..] == input;
    while offset < |input|
      invariant 0 <= offset <= |input|
      invariant output + Decorate(input[offset..], skipDepth) == Decorate(input, 0)
      decreases |input| - offset
    {
      ghost var s := input[offset..];
      if input[offset] == '<' {
        var end := IndexChar(input[offset..], '>');
        if end < 0 {
          UnclosedTag(s, skipDepth);
          var decorated := DecorateCitationText(input[offset..]);
          output := output + decorated;
          return;
        }
        end := end + offset + 1;
        var tag := input[offset..end];
        assert s == tag + input[end..];
        DecorateTag(tag, input[end..], skipDepth);
        Assoc(output, tag, Decorate(input[end..], DepthAfter(tag, skipDepth)));
        skipDepth := DepthAfter(tag, skipDepth);
        output := output + tag;
        offset := end;
        continue;
      }
      var nextTag := IndexChar(input[offset..], '<');
      var end := |input|;
      if nextTag >= 0 {
        end := offset + nextTag;
      }
      var text := input[offset..end];
      assert s == text + input[end..];
      assert forall i | 0 <= i < |text| :: text[i] == s[i];
      DecorateText(text, input[end..], skipDepth);
      var copied := text;
      if skipDepth == 0 {
        copied := DecorateCitationText(text);
      }
      Assoc(output, copied, Decorate(input[end..], skipDepth));
      output := output + copied;
      offset := end;
    }
    DecorateNothing(skipDepth);
    assert input[offset..] == "";
  }

  lemma DecorateNothing(depth: nat)
    ensures Decorate("", depth) == ""
  {
  }
}
