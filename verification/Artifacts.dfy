/** Cutting artifact directives out of markdown, and leaving a placeholder for each. */
module Artifacts {
  import opened Fences
  import opened Strings

  // ---------- lines ----------

  /** `strings.SplitAfter(input, "\n")` */
  function SplitLines(input: string): (lines: seq<string>)
    ensures lines != []
    decreases |input|
  {
    var i := IndexChar(input, '\n');
    if i < 0 then [input] else [input[..i + 1]] + SplitLines(input[i + 1..])
  }

  function Join(lines: seq<string>): string {
    if lines == [] then "" else lines[0] + Join(lines[1..])
  }

  lemma {:induction false} SplitJoins(input: string)
    ensures Join(SplitLines(input)) == input
    decreases |input|
  {
    var i := IndexChar(input, '\n');
    if i < 0 {
      assert [input][1..] == [];
      assert input + "" == input;
    } else {
      SplitJoins(input[i + 1..]);
      var lines := SplitLines(input);
      assert lines[1..] == SplitLines(input[i + 1..]);
      assert input[..i + 1] + input[i + 1..] == input;
    }
  }

  function LeadingSpaces(line: string): (n: nat)
    ensures n <= |line|
  {
    MarkerRun(line, ' ')
  }

  function StartsFence(line: string): Fence {
    var rest := line[LeadingSpaces(line)..];
    if LeadingSpaces(line) > 3 || |rest| < 3 || (rest[0] != '`' && rest[0] != '~') || MarkerRun(rest, rest[0]) < 3 then Outside
    else Inside(rest[0], MarkerRun(rest, rest[0]))
  }

  predicate ClosesFence(line: string, marker: char, length: nat) {
    var rest := line[LeadingSpaces(line)..];
    && LeadingSpaces(line) <= 3 && length <= |rest| && |rest| > 0 && rest[0] == marker
    && MarkerRun(rest, marker) >= length && TrimSpace(rest[MarkerRun(rest, marker)..]) == ""
  }

  predicate IsOpener(line: string) {
    var trimmed := TrimSpace(line[LeadingSpaces(line)..]);
    LeadingSpaces(line) <= 3 && (trimmed == ":::artifact" || HasPrefix(trimmed, ":::artifact "))
  }

  predicate IsCloser(line: string) {
    LeadingSpaces(line) <= 3 && TrimSpace(line[LeadingSpaces(line)..]) == ":::"
  }

  // ---------- what a correct extraction is ----------

  /** A line of the input is copied, or is part of one artifact. */
  datatype Segment = Copied(line: string) | Extracted(opener: string, content: seq<string>, closer: string)

  function SegmentLines(segment: Segment): seq<string> {
    match segment
    case Copied(line) => [line]
    case Extracted(opener, content, closer) => [opener] + content + [closer]
  }

  function LinesOf(segments: seq<Segment>): seq<string> {
    if segments == [] then [] else SegmentLines(segments[0]) + LinesOf(segments[1..])
  }

  /** The fence automaton runs over the copied lines; artifacts are invisible to it. */
  function FenceAfter(fence: Fence, segment: Segment): Fence {
    match segment
    case Extracted(_, _, _) => fence
    case Copied(line) =>
      match fence
      case Outside => StartsFence(line)
      case Inside(marker, length) => if ClosesFence(line, marker, length) then Outside else fence
  }

  predicate HasCloser(lines: seq<string>) {
    lines != [] && (IsCloser(lines[0]) || HasCloser(lines[1..]))
  }

  /**
   A segment in its place: an artifact is opened outside every fence by a line that opens none, and ends at
   the first closer; an opener is left in the text only inside a fence, or when nothing closes it.
   */
  ghost predicate Fits(fence: Fence, segment: Segment, later: seq<string>) {
    match segment
    case Extracted(opener, content, closer) =>
      fence == Outside && StartsFence(opener) == Outside && IsOpener(opener) && !HasCloser(content) && IsCloser(closer)
    case Copied(line) =>
      fence == Outside && StartsFence(line) == Outside && IsOpener(line) ==> !HasCloser(later)
  }

  ghost predicate WellCut(fence: Fence, segments: seq<Segment>)
    decreases |segments|
  {
    segments == [] || (WellCut(FenceAfter(fence, segments[0]), segments[1..]) && Fits(fence, segments[0], LinesOf(segments[1..])))
  }

  // ---------- the extraction ----------

  /** The first closer among the lines, or -1. */
  function FirstCloser(lines: seq<string>): (i: int)
    ensures -1 <= i < |lines|
  {
    if lines == [] then -1
    else if IsCloser(lines[0]) then 0
    else
      var rest := FirstCloser(lines[1..]);
      if rest < 0 then -1 else rest + 1
  }

  function Plan(fence: Fence, lines: seq<string>): seq<Segment>
    decreases |lines|
  {
    if lines == [] then []
    else
      var line := lines[0];
      var end := FirstCloser(lines[1..]);
      if fence == Outside && StartsFence(line) == Outside && IsOpener(line) && end >= 0 then
        [Extracted(line, lines[1..1 + end], lines[1 + end])] + Plan(Outside, lines[2 + end..])
      else [Copied(line)] + Plan(FenceAfter(fence, Copied(line)), lines[1..])
  }

  // ---------- the plan is the one correct extraction ----------

  lemma {:induction false} FirstCloserFinds(lines: seq<string>)
    ensures var e := FirstCloser(lines);
            && (e < 0 <==> !HasCloser(lines))
            && (e >= 0 ==> IsCloser(lines[e]) && !HasCloser(lines[..e]))
  {
    hide IsCloser;
    if lines != [] && !IsCloser(lines[0]) {
      FirstCloserFinds(lines[1..]);
      var e := FirstCloser(lines);
      if e >= 0 {
        assert lines[..e][1..] == lines[1..][..e - 1];
      }
    }
  }

  /** Lines without a closer, then a closer: the closer is the first one. */
  lemma {:induction false} FirstCloserIs(content: seq<string>, closer: string, rest: seq<string>)
    requires !HasCloser(content) && IsCloser(closer)
    ensures FirstCloser(content + [closer] + rest) == |content|
  {
    hide IsCloser;
    var lines := content + [closer] + rest;
    if content == [] {
      assert lines[0] == closer;
    } else {
      FirstCloserIs(content[1..], closer, rest);
      assert lines[1..] == content[1..] + [closer] + rest;
      assert lines[0] == content[0];
    }
  }

  lemma LinesOfCons(segment: Segment, rest: seq<Segment>)
    ensures LinesOf([segment] + rest) == SegmentLines(segment) + LinesOf(rest)
  {
    assert ([segment] + rest)[1..] == rest;
  }

  lemma PlanUnfold(fence: Fence, lines: seq<string>)
    ensures lines == [] ==> Plan(fence, lines) == []
    ensures lines != [] ==>
              var line, end := lines[0], FirstCloser(lines[1..]);
              Plan(fence, lines) ==
                if fence == Outside && StartsFence(line) == Outside && IsOpener(line) && end >= 0 then
                  [Extracted(line, lines[1..1 + end], lines[1 + end])] + Plan(Outside, lines[2 + end..])
                else [Copied(line)] + Plan(FenceAfter(fence, Copied(line)), lines[1..])
  {
    hide StartsFence, IsOpener, FenceAfter, FirstCloser;
  }

  lemma NoSegments()
    ensures LinesOf([]) == []
  {
  }

  lemma TakenApart(lines: seq<string>, end: nat)
    requires 1 + end < |lines|
    ensures lines == [lines[0]] + lines[1..1 + end] + [lines[1 + end]] + lines[2 + end..]
  {
  }

  lemma PutTogether(opener: string, content: seq<string>, closer: string, rest: seq<string>)
    ensures var lines := [opener] + content + [closer] + rest;
            && lines[0] == opener && lines[1..] == content + [closer] + rest && lines[1..1 + |content|] == content
            && lines[1 + |content|] == closer && lines[2 + |content|..] == rest
  {
  }

  /** Nothing is lost: the planned segments spell out the input lines, in order. */
  lemma {:induction false} PlanKeepsLines(fence: Fence, lines: seq<string>)
    ensures LinesOf(Plan(fence, lines)) == lines
    decreases |lines|
  {
    hide StartsFence, IsOpener, FenceAfter, FirstCloser, LinesOf, Plan;
    PlanUnfold(fence, lines);
    if lines == [] {
      NoSegments();
    } else {
      var line := lines[0];
      var end := FirstCloser(lines[1..]);
      if fence == Outside && StartsFence(line) == Outside && IsOpener(line) && end >= 0 {
        PlanKeepsLines(Outside, lines[2 + end..]);
        var segment := Extracted(line, lines[1..1 + end], lines[1 + end]);
        LinesOfCons(segment, Plan(Outside, lines[2 + end..]));
        TakenApart(lines, end);
      } else {
        PlanKeepsLines(FenceAfter(fence, Copied(line)), lines[1..]);
        LinesOfCons(Copied(line), Plan(FenceAfter(fence, Copied(line)), lines[1..]));
        assert lines == [line] + lines[1..];
      }
    }
  }

  lemma {:induction false} PlanWellCut(fence: Fence, lines: seq<string>)
    ensures WellCut(fence, Plan(fence, lines))
    decreases |lines|
  {
    hide StartsFence, IsOpener, IsCloser, LinesOf;
    if lines != [] {
      var line := lines[0];
      var end := FirstCloser(lines[1..]);
      FirstCloserFinds(lines[1..]);
      if fence == Outside && StartsFence(line) == Outside && IsOpener(line) && end >= 0 {
        PlanWellCut(Outside, lines[2 + end..]);
        assert lines[1..][..end] == lines[1..1 + end];
        assert Plan(fence, lines)[1..] == Plan(Outside, lines[2 + end..]);
      } else {
        var next := FenceAfter(fence, Copied(line));
        PlanWellCut(next, lines[1..]);
        PlanKeepsLines(next, lines[1..]);
        assert Plan(fence, lines)[1..] == Plan(next, lines[1..]);
      }
    }
  }

  /**
   Any division of the input lines into copied lines and artifacts that obeys the rules is the one that
   is made.
   */
  lemma {:induction false} OnlyOneCut(fence: Fence, segments: seq<Segment>)
    requires WellCut(fence, segments)
    ensures segments == Plan(fence, LinesOf(segments))
    decreases |segments|
  {
    hide StartsFence, IsOpener, IsCloser, FirstCloser, LinesOf, HasCloser;
    if segments == [] {
      NoSegments();
    } else {
      var head, rest := segments[0], segments[1..];
      OnlyOneCut(FenceAfter(fence, head), rest);
      assert segments == [head] + rest;
      LinesOfCons(head, rest);
      match head
      case Copied(line) =>
        assert ([line] + LinesOf(rest))[1..] == LinesOf(rest);
        FirstCloserFinds(LinesOf(rest));
      case Extracted(opener, content, closer) =>
        PutTogether(opener, content, closer, LinesOf(rest));
        FirstCloserIs(content, closer, LinesOf(rest));
    }
  }

  // ---------- markers ----------

  const MARKER := "PYTTECHAT_ARTIFACT_"

  function MarkerName(index: nat, suffix: nat): string {
    MARKER + Decimal(index) + if suffix == 0 then "" else "_" + Decimal(suffix)
  }

  lemma {:induction false} DecimalLength(n: nat)
    ensures n < Pow10(|Decimal(n)|)
    decreases n
  {
    if n >= 10 {
      DecimalLength(n / 10);
    } else {
      assert Pow10(1) == 10 * Pow10(0);
    }
  }

  lemma {:induction false} Pow10Grows(m: nat, n: nat)
    requires m <= n
    ensures Pow10(m) <= Pow10(n)
    decreases n
  {
    if m < n {
      Pow10Grows(m, n - 1);
    }
  }

  lemma ContainedIsShorter(input: string, sub: string)
    requires Contains(input, sub)
    ensures |sub| <= |input|
  {
  }

  /** A marker found in the input has a suffix bounded by the input's length: the search ends. */
  lemma SuffixBounded(input: string, index: nat, suffix: nat)
    requires Contains(input, MarkerName(index, suffix))
    ensures suffix < Pow10(|input|)
  {
    hide Contains;
    ContainedIsShorter(input, MarkerName(index, suffix));
    if suffix > 0 {
      DecimalLength(suffix);
      Pow10Grows(|Decimal(suffix)|, |input|);
    } else {
      Pow10Grows(0, |input|);
    }
  }

  /** The first suffix from `suffix` on whose marker the input does not contain. */
  function FreeSuffix(input: string, index: nat, suffix: nat): (s: nat)
    ensures s >= suffix && !Contains(input, MarkerName(index, s))
    ensures forall k | suffix <= k < s :: Contains(input, MarkerName(index, k))
    decreases if suffix < Pow10(|input|) then Pow10(|input|) - suffix else 0
  {
    if !Contains(input, MarkerName(index, suffix)) then suffix
    else
      SuffixBounded(input, index, suffix);
      FreeSuffix(input, index, suffix + 1)
  }

  function ArtifactMarker(input: string, index: nat): string {
    MarkerName(index, FreeSuffix(input, index, 0))
  }

  lemma {:induction false} DigitsThenTail(a: string, x: string, b: string, y: string)
    requires (forall i | 0 <= i < |a| :: '0' <= a[i] <= '9') && forall i | 0 <= i < |b| :: '0' <= b[i] <= '9'
    requires (x == "" || x[0] == '_') && (y == "" || y[0] == '_') && a + x == b + y
    ensures a == b && x == y
    decreases |a|
  {
    if a != "" && b != "" {
      assert a[0] == (a + x)[0] == (b + y)[0] == b[0];
      assert a[1..] + x == (a + x)[1..] == (b + y)[1..] == b[1..] + y;
      DigitsThenTail(a[1..], x, b[1..], y);
    } else {
      assert a == "" ==> a + x == x;
      assert b == "" ==> b + y == y;
    }
  }

  /** Different artifacts get different markers, and no marker occurs in the input. */
  lemma MarkersDistinct(input: string, i: nat, j: nat)
    ensures !Contains(input, ArtifactMarker(input, i))
    ensures i != j ==> ArtifactMarker(input, i) != ArtifactMarker(input, j)
  {
    hide Contains, FreeSuffix, Decimal;
    if ArtifactMarker(input, i) == ArtifactMarker(input, j) {
      var s, t := FreeSuffix(input, i, 0), FreeSuffix(input, j, 0);
      var x := if s == 0 then "" else "_" + Decimal(s);
      var y := if t == 0 then "" else "_" + Decimal(t);
      assert MARKER + Decimal(i) + x == MARKER + (Decimal(i) + x);
      assert MARKER + Decimal(j) + y == MARKER + (Decimal(j) + y);
      assert Decimal(i) + x == ArtifactMarker(input, i)[|MARKER|..] == Decimal(j) + y;
      DigitsThenTail(Decimal(i), x, Decimal(j), y);
      DecimalInjective(i, j);
    }
  }

  /** `artifactMarker` */
  method FindMarker(input: string, index: nat) returns (marker: string)
    ensures marker == ArtifactMarker(input, index)
  {
    marker := MARKER + Itoa(index);
    var suffix := 1;
    ghost var tried := 0;
    assert MarkerName(index, 0) == MARKER + Decimal(index);
    while Contains(input, marker)
      invariant suffix == tried + 1 && marker == MarkerName(index, tried)
      invariant FreeSuffix(input, index, 0) == FreeSuffix(input, index, tried)
      decreases if tried < Pow10(|input|) then Pow10(|input|) - tried else 0
    {
      SuffixBounded(input, index, tried);
      marker := MARKER + Itoa(index) + "_" + Itoa(suffix);
      tried := suffix;
      suffix := suffix + 1;
      assert MarkerName(index, tried) == MARKER + Decimal(index) + ("_" + Decimal(tried));
    }
  }

  // ---------- writing the markdown ----------

  datatype Placeholder = Placeholder(marker: string, opening: string, content: string)

  datatype Extraction = Extraction(markdown: string, artifacts: seq<Placeholder>)

  /** The blank line before a placeholder, as far as it is missing. */
  function Padding(markdown: string): string {
    if markdown == "" || HasSuffix(markdown, "\n\n") then ""
    else if HasSuffix(markdown, "\n") then "\n"
    else "\n\n"
  }

  /** What a segment adds to the markdown written so far. */
  function Piece(input: string, so: Extraction, segment: Segment): string {
    match segment
    case Copied(line) => line
    case Extracted(_, _, _) => Padding(so.markdown) + ArtifactMarker(input, |so.artifacts|) + "\n\n"
  }

  function Write(input: string, so: Extraction, segment: Segment): Extraction {
    Extraction(so.markdown + Piece(input, so, segment),
               match segment
               case Copied(_) => so.artifacts
               case Extracted(opener, content, _) =>
                 so.artifacts + [Placeholder(ArtifactMarker(input, |so.artifacts|), TrimSpace(opener), Join(content))])
  }

  function WriteAll(input: string, so: Extraction, segments: seq<Segment>): Extraction
    decreases |segments|
  {
    if segments == [] then so else WriteAll(input, Write(input, so, segments[0]), segments[1..])
  }

  /** The extraction of a whole input. */
  function Extract(input: string): Extraction {
    WriteAll(input, Extraction("", []), Plan(Outside, SplitLines(input)))
  }

  /** The openers and contents of the artifacts among the segments, in order. */
  function ArtifactsOf(segments: seq<Segment>): seq<(string, seq<string>)> {
    if segments == [] then []
    else
      (match segments[0]
       case Copied(_) => []
       case Extracted(opener, content, _) => [(opener, content)]) + ArtifactsOf(segments[1..])
  }

  /** Nothing stands before, or a blank line. */
  predicate SetApart(before: string) {
    before == "" || HasSuffix(before, "\n\n")
  }

  /** The marker of artifact `n` and a blank line, behind no more line feeds than it takes to set it apart. */
  predicate IsPlaceholder(input: string, n: nat, before: string, piece: string) {
    var line := ArtifactMarker(input, n) + "\n\n";
    if SetApart(before) then piece == line
    else if SetApart(before + "\n") then piece == "\n" + line
    else piece == "\n\n" + line
  }

  /** The number of artifacts among the segments. */
  function Count(segments: seq<Segment>): nat {
    |ArtifactsOf(segments)|
  }

  /** The pieces of the markdown behind `before`: copied lines as they are, and for each artifact the placeholder of its own number. */
  ghost predicate Pieces(input: string, n: nat, before: string, segments: seq<Segment>, pieces: seq<string>) {
    && |pieces| == |segments|
    && forall i | 0 <= i < |segments| ::
         if segments[i].Copied? then pieces[i] == segments[i].line
         else IsPlaceholder(input, n + Count(segments[..i]), before + Join(pieces[..i]), pieces[i])
  }

  lemma PieceIsPlaceholder(input: string, so: Extraction, segment: Segment)
    requires segment.Extracted?
    ensures IsPlaceholder(input, |so.artifacts|, so.markdown, Piece(input, so, segment))
  {
    hide ArtifactMarker;
    OneMoreFeed(so.markdown);
    var marker := ArtifactMarker(input, |so.artifacts|);
    assert "" + marker + "\n\n" == marker + "\n\n";
    assert "\n" + marker + "\n\n" == "\n" + (marker + "\n\n");
    assert "\n\n" + marker + "\n\n" == "\n\n" + (marker + "\n\n");
  }

  lemma OneMoreFeed(before: string)
    ensures SetApart(before + "\n") <==> HasSuffix(before, "\n")
  {
    var n := |before|;
    if n >= 1 {
      assert (before + "\n")[n - 1..] == [before[n - 1]] + "\n";
      assert before[n - 1..] == [before[n - 1]];
      assert "\n\n"[0] == '\n' && "\n"[0] == '\n';
    }
  }

  lemma CountCons(segments: seq<Segment>, i: nat)
    requires 1 <= i <= |segments|
    ensures Count(segments[..i]) == (if segments[0].Extracted? then 1 else 0) + Count(segments[1..][..i - 1])
  {
    assert segments[..i][1..] == segments[1..][..i - 1];
  }

  lemma PiecesCons(input: string, n: nat, before: string, segments: seq<Segment>, piece: string, rest: seq<string>)
    requires segments != []
    requires if segments[0].Copied? then piece == segments[0].line else IsPlaceholder(input, n, before, piece)
    requires Pieces(input, n + (if segments[0].Extracted? then 1 else 0), before + piece, segments[1..], rest)
    ensures Pieces(input, n, before, segments, [piece] + rest)
  {
    hide IsPlaceholder, Count, Join;
    var pieces := [piece] + rest;
    NoneBefore(segments);
    forall i | 0 <= i < |segments|
      ensures if segments[i].Copied? then pieces[i] == segments[i].line
              else IsPlaceholder(input, n + Count(segments[..i]), before + Join(pieces[..i]), pieces[i])
    {
      if i == 0 {
        assert pieces[..0] == [];
        EmptyJoin();
        assert before + "" == before;
      } else {
        CountCons(segments, i);
        assert pieces[..i] == [piece] + rest[..i - 1];
        JoinCons(piece, rest[..i - 1]);
        assert before + (piece + Join(rest[..i - 1])) == before + piece + Join(rest[..i - 1]);
        assert segments[i] == segments[1..][i - 1] && pieces[i] == rest[i - 1];
      }
    }
  }

  lemma NoneBefore(segments: seq<Segment>)
    ensures Count(segments[..0]) == 0
  {
  }

  lemma Wrote(input: string, so: Extraction, segment: Segment)
    ensures Write(input, so, segment).markdown == so.markdown + Piece(input, so, segment)
    ensures |Write(input, so, segment).artifacts| == |so.artifacts| + if segment.Extracted? then 1 else 0
    ensures segment.Copied? ==> Piece(input, so, segment) == segment.line
  {
    hide ArtifactMarker, Padding;
  }

  lemma NoPieces(input: string, n: nat, before: string)
    ensures Pieces(input, n, before, [], []) && Join([]) == ""
  {
  }

  lemma JoinCons(line: string, rest: seq<string>)
    ensures Join([line] + rest) == line + Join(rest)
  {
    assert ([line] + rest)[1..] == rest;
  }

  /** Written out, every copied line is itself, in order, and every artifact is the placeholder of its own number. */
  lemma {:induction false} WrittenInOrder(input: string, so: Extraction, segments: seq<Segment>) returns (pieces: seq<string>)
    ensures Pieces(input, |so.artifacts|, so.markdown, segments, pieces) && WriteAll(input, so, segments).markdown == so.markdown + Join(pieces)
    decreases |segments|
  {
    hide ArtifactMarker, TrimSpace, Padding, IsPlaceholder, Count, Join, Pieces, Piece, Write;
    if segments == [] {
      pieces := [];
      NoPieces(input, |so.artifacts|, so.markdown);
      assert so.markdown + "" == so.markdown;
    } else {
      var next := Write(input, so, segments[0]);
      var rest := WrittenInOrder(input, next, segments[1..]);
      var piece := Piece(input, so, segments[0]);
      pieces := [piece] + rest;
      Wrote(input, so, segments[0]);
      JoinCons(piece, rest);
      assert so.markdown + piece + Join(rest) == so.markdown + (piece + Join(rest));
      if segments[0].Extracted? {
        PieceIsPlaceholder(input, so, segments[0]);
      }
      PiecesCons(input, |so.artifacts|, so.markdown, segments, piece, rest);
    }
  }

  /** The placeholders of some artifacts, the first of which is number `n`. */
  function Placeholders(input: string, n: nat, found: seq<(string, seq<string>)>): seq<Placeholder> {
    seq(|found|, j requires 0 <= j < |found| => Placeholder(ArtifactMarker(input, n + j), TrimSpace(found[j].0), Join(found[j].1)))
  }

  lemma PlaceholdersCons(input: string, n: nat, head: (string, seq<string>), rest: seq<(string, seq<string>)>)
    ensures Placeholders(input, n, [head] + rest)
         == [Placeholder(ArtifactMarker(input, n), TrimSpace(head.0), Join(head.1))] + Placeholders(input, n + 1, rest)
  {
    hide ArtifactMarker, TrimSpace, Join;
  }

  /** The j-th artifact has the j-th marker, and the opener and the lines of its segment, verbatim. */
  lemma {:induction false} ArtifactsVerbatim(input: string, so: Extraction, segments: seq<Segment>)
    ensures WriteAll(input, so, segments).artifacts == so.artifacts + Placeholders(input, |so.artifacts|, ArtifactsOf(segments))
    decreases |segments|
  {
    hide ArtifactMarker, TrimSpace, Piece, Join, Placeholders;
    if segments == [] {
      PlaceholdersNone(input, |so.artifacts|);
    } else {
      var next := Write(input, so, segments[0]);
      var rest := ArtifactsOf(segments[1..]);
      ArtifactsVerbatim(input, next, segments[1..]);
      match segments[0]
      case Copied(_) =>
        assert [] + rest == rest;
      case Extracted(opener, content, _) =>
        PlaceholdersCons(input, |so.artifacts|, (opener, content), rest);
    }
  }

  lemma PlaceholdersNone(input: string, n: nat)
    ensures Placeholders(input, n, []) == []
  {
  }

  /**
   Extraction loses nothing. The input's lines are, in order, the lines of the planned segments: each is
   copied unchanged into the markdown, or is the opener, a verbatim content line or the closer of exactly
   one artifact; and the segments are the only ones that obey the rules for openers, closers and fences.
   */
  lemma ExtractionLosesNothing(input: string) returns (segments: seq<Segment>, pieces: seq<string>)
    ensures WellCut(Outside, segments) && Join(LinesOf(segments)) == input && LinesOf(segments) == SplitLines(input)
    ensures forall other | WellCut(Outside, other) && LinesOf(other) == SplitLines(input) :: other == segments
    ensures Pieces(input, 0, "", segments, pieces) && Extract(input).markdown == Join(pieces)
    ensures Extract(input).artifacts == Placeholders(input, 0, ArtifactsOf(segments))
    ensures forall j | 0 <= j < |Extract(input).artifacts| :: !Contains(input, Extract(input).artifacts[j].marker)
  {
    hide Plan, WellCut, LinesOf, Join, ArtifactMarker, Pieces, WriteAll, SplitLines, Contains, ArtifactsOf, TrimSpace;
    segments := Plan(Outside, SplitLines(input));
    SplitJoins(input);
    PlanKeepsLines(Outside, SplitLines(input));
    PlanWellCut(Outside, SplitLines(input));
    forall other | WellCut(Outside, other) && LinesOf(other) == SplitLines(input)
      ensures other == segments
    {
      OnlyOneCut(Outside, other);
    }
    pieces := WrittenInOrder(input, Extraction("", []), segments);
    assert "" + Join(pieces) == Join(pieces);
    ArtifactsVerbatim(input, Extraction("", []), segments);
    assert [] + Placeholders(input, 0, ArtifactsOf(segments)) == Placeholders(input, 0, ArtifactsOf(segments));
    forall j | 0 <= j < |Extract(input).artifacts|
      ensures !Contains(input, Extract(input).artifacts[j].marker)
    {
      MarkersDistinct(input, j, j);
    }
  }

  // ---------- the loop ----------

  lemma NoLine(input: string, so: Extraction, fence: Fence, lines: seq<string>)
    requires lines == []
    ensures WriteAll(input, so, Plan(fence, lines)) == so
  {
  }

  lemma CopyLine(input: string, so: Extraction, fence: Fence, lines: seq<string>)
    requires lines != []
    requires fence != Outside || StartsFence(lines[0]) != Outside || !IsOpener(lines[0]) || FirstCloser(lines[1..]) < 0
    ensures WriteAll(input, so, Plan(fence, lines))
            == WriteAll(input, Extraction(so.markdown + lines[0], so.artifacts), Plan(FenceAfter(fence, Copied(lines[0])), lines[1..]))
  {
    hide StartsFence, IsOpener, FirstCloser, FenceAfter;
    var rest := Plan(FenceAfter(fence, Copied(lines[0])), lines[1..]);
    assert ([Copied(lines[0])] + rest)[1..] == rest;
  }

  lemma ExtractLines(input: string, so: Extraction, lines: seq<string>)
    requires lines != [] && StartsFence(lines[0]) == Outside && IsOpener(lines[0]) && FirstCloser(lines[1..]) >= 0
    ensures var end := FirstCloser(lines[1..]);
            WriteAll(input, so, Plan(Outside, lines))
            == WriteAll(input, Write(input, so, Extracted(lines[0], lines[1..1 + end], lines[1 + end])), Plan(Outside, lines[2 + end..]))
  {
    hide StartsFence, IsOpener, FirstCloser, Write;
    var end := FirstCloser(lines[1..]);
    var head := Extracted(lines[0], lines[1..1 + end], lines[1 + end]);
    var rest := Plan(Outside, lines[2 + end..]);
    assert ([head] + rest)[1..] == rest;
  }

  lemma {:induction false} JoinSnoc(lines: seq<string>, line: string)
    ensures Join(lines + [line]) == Join(lines) + line
  {
    if lines == [] {
      assert [line][1..] == [] && lines + [line] == [line];
      assert line + "" == line && "" + line == line;
    } else {
      JoinSnoc(lines[1..], line);
      assert (lines + [line])[1..] == lines[1..] + [line];
      assert lines[0] + (Join(lines[1..]) + line) == lines[0] + Join(lines[1..]) + line;
    }
  }

  /** The inner loop: the lines up to the first closer, or -1. */
  method CollectContent(lines: seq<string>, i: nat) returns (end: int, content: string)
    requires i < |lines|
    ensures end == (if FirstCloser(lines[i + 1..]) < 0 then -1 else i + 1 + FirstCloser(lines[i + 1..]))
    ensures end >= 0 ==> i < end < |lines| && content == Join(lines[i + 1..end])
  {
    hide IsCloser, Join;
    content := "";
    end := -1;
    var j := i + 1;
    assert lines[i + 1..j] == [];
    EmptyJoin();
    while j < |lines|
      invariant i + 1 <= j <= |lines| && end == -1
      invariant content == Join(lines[i + 1..j])
      invariant FirstCloser(lines[i + 1..]) == if FirstCloser(lines[j..]) < 0 then -1 else FirstCloser(lines[j..]) + j - i - 1
    {
      assert lines[j..][0] == lines[j] && lines[j..][1..] == lines[j + 1..];
      if IsCloser(lines[j]) {
        end := j;
        return;
      }
      JoinSnoc(lines[i + 1..j], lines[j]);
      assert lines[i + 1..j + 1] == lines[i + 1..j] + [lines[j]];
      content := content + lines[j];
      j := j + 1;
    }
    assert lines[j..] == [];
  }

  lemma WroteArtifact(input: string, so: Extraction, opener: string, content: seq<string>, closer: string)
    ensures var marker := ArtifactMarker(input, |so.artifacts|);
            Write(input, so, Extracted(opener, content, closer))
            == Extraction(so.markdown + (Padding(so.markdown) + marker + "\n\n"), so.artifacts + [Placeholder(marker, TrimSpace(opener), Join(content))])
  {
    hide ArtifactMarker, TrimSpace, Padding, Join;
  }

  lemma SliceAgain(lines: seq<string>, i: nat, end: nat)
    requires i < end < |lines|
    ensures lines[i..][1..end - i] == lines[i + 1..end] && lines[i..][end - i + 1..] == lines[end + 1..]
    ensures lines[i..][end - i] == lines[end]
  {
  }

  lemma EmptyJoin()
    ensures Join([]) == ""
  {
  }

  /** `writeArtifactPlaceholder` */
  method WritePlaceholder(markdown: string, marker: string) returns (next: string)
    ensures next == markdown + (Padding(markdown) + marker + "\n\n")
  {
    next := markdown;
    if |next| > 0 {
      if HasSuffix(next, "\n\n") {
      } else if HasSuffix(next, "\n") {
        next := next + "\n";
      } else {
        next := next + "\n\n";
      }
    }
    next := next + marker;
    next := next + "\n\n";
  }

  /** `extractArtifactBlocks` */
  method ExtractArtifactBlocks(input: string) returns (extraction: Extraction)
    ensures extraction == Extract(input)
  {
    hide StartsFence, ClosesFence, IsOpener, FirstCloser, WriteAll, Plan, ArtifactMarker, TrimSpace, Padding, Write, Join;
    var lines := SplitLines(input);
    var markdown, artifacts := "", [];
    var fence := Outside;
    var i := 0;
    assert lines[0..] == lines;
    while i < |lines|
      invariant 0 <= i <= |lines|
      invariant WriteAll(input, Extraction(markdown, artifacts), Plan(fence, lines[i..])) == Extract(input)
      decreases |lines| - i
    {
      var line := lines[i];
      assert lines[i..][0] == line && lines[i..][1..] == lines[i + 1..];
      if fence.Inside? {
        CopyLine(input, Extraction(markdown, artifacts), fence, lines[i..]);
        markdown := markdown + line;
        if ClosesFence(line, fence.marker, fence.length) {
          fence := Outside;
        }
        i := i + 1;
        continue;
      }
      var nextFence := StartsFence(line);
      if nextFence.Inside? {
        CopyLine(input, Extraction(markdown, artifacts), fence, lines[i..]);
        fence := nextFence;
        markdown := markdown + line;
        i := i + 1;
        continue;
      }
      if !IsOpener(line) {
        CopyLine(input, Extraction(markdown, artifacts), fence, lines[i..]);
        markdown := markdown + line;
        i := i + 1;
        continue;
      }
      var end, content := CollectContent(lines, i);
      if end < 0 {
        CopyLine(input, Extraction(markdown, artifacts), fence, lines[i..]);
        markdown := markdown + line;
        i := i + 1;
        continue;
      }
      ExtractLines(input, Extraction(markdown, artifacts), lines[i..]);
      SliceAgain(lines, i, end);
      WroteArtifact(input, Extraction(markdown, artifacts), line, lines[i + 1..end], lines[end]);
      var marker := FindMarker(input, |artifacts|);
      markdown := WritePlaceholder(markdown, marker);
      artifacts := artifacts + [Placeholder(marker, TrimSpace(line), content)];
      i := end + 1;
    }
    NoLine(input, Extraction(markdown, artifacts), fence, lines[i..]);
    return Extraction(markdown, artifacts);
  }
}
