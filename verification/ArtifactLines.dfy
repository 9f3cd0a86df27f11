/**
 Artifact directives by the characters of their lines: which lines open and close an artifact or a fence, and
 the one division of a text that these lines allow.
 */
module ArtifactLines {
  import opened Artifacts
  import opened Fences
  import opened Strings

  /** Four spaces at the head make a line code. */
  predicate Indented(line: string) {
    |line| >= 4 && line[0] == ' ' && line[1] == ' ' && line[2] == ' ' && line[3] == ' '
  }

  predicate Spaces(line: string, w: nat) {
    w <= |line| && forall i | 0 <= i < w :: line[i] == ' '
  }

  /** Behind white space `:::artifact`, and then nothing, white space, or a space and anything. */
  ghost predicate OpensArtifact(line: string) {
    !Indented(line)
    && exists w: nat :: WordAt(line, w, ":::artifact") && Blank(line[..w]) && (Blank(line[w + 11..]) || line[w + 11] == ' ')
  }

  /** `:::` and otherwise white space. */
  ghost predicate ClosesArtifact(line: string) {
    !Indented(line) && exists w: nat :: WordAt(line, w, ":::") && Blank(line[..w]) && Blank(line[w + 3..])
  }

  /** Directly behind at most three spaces a maximal run of at least three equal backticks or tildes, and then anything. */
  ghost predicate BeginsFence(line: string, marker: char, length: nat) {
    !Indented(line) && (marker == '`' || marker == '~') && length >= 3 && exists w: nat :: Spaces(line, w) && RunAt(line, w, length, marker)
  }

  /** Directly behind at most three spaces at least as many of the fence's markers, and then nothing but white space. */
  ghost predicate EndsFence(line: string, marker: char, length: nat) {
    !Indented(line) && exists w: nat, k: nat :: k >= length && Spaces(line, w) && RunAt(line, w, k, marker) && Blank(line[w + k..])
  }

  lemma LeadingExactly(line: string)
    ensures Spaces(line, LeadingSpaces(line)) && (LeadingSpaces(line) > 3 <==> Indented(line))
  {
  }

  lemma OpenerExactly(line: string)
    ensures IsOpener(line) <==> OpensArtifact(line)
  {
    hide TrimSpace, HasPrefix, Blank, WordAt, IsSpace;
    LeadingExactly(line);
    SpacesTrimmed(line, LeadingSpaces(line));
    WordsTrimmed();
    TrimmedStarts(line, ":::artifact");
    assert ":::artifact" + " " == ":::artifact ";
  }

  lemma CloserExactly(line: string)
    ensures IsCloser(line) <==> ClosesArtifact(line)
  {
    hide TrimSpace, Blank, WordAt, IsSpace;
    LeadingExactly(line);
    SpacesTrimmed(line, LeadingSpaces(line));
    WordsTrimmed();
    TrimmedIs(line, ":::");
  }

  lemma WordsTrimmed()
    ensures Trimmed(":::artifact") && Trimmed(":::")
  {
  }

  /** A run behind spaces only stands right behind the leading spaces. */
  lemma RunBehindSpaces(line: string, w: nat, k: nat, marker: char)
    requires k >= 1 && marker != ' '
    ensures Spaces(line, w) && RunAt(line, w, k, marker) <==>
            w == LeadingSpaces(line) && line[w..] != "" && line[w] == marker && MarkerRun(line[w..], marker) == k
  {
    hide MarkerRun;
    var n := LeadingSpaces(line);
    LeadingExactly(line);
    assert n == MarkerRun(line, ' ');
    if Spaces(line, w) && RunAt(line, w, k, marker) {
      assert line[w] == marker;
      assert w == n;
      ShiftedRun(line, w, k, marker);
      MarkerRunIs(line[w..], marker, k);
    }
    if w == n && MarkerRun(line[w..], marker) == k {
      MarkerRunIs(line[w..], marker, k);
      ShiftedRun(line, w, k, marker);
    }
  }

  lemma ShiftedRun(line: string, w: nat, k: nat, marker: char)
    requires w <= |line|
    ensures RunAt(line[w..], 0, k, marker) <==> RunAt(line, w, k, marker)
  {
    var rest := line[w..];
    if RunAt(rest, 0, k, marker) {
      forall i | w <= i < w + k
        ensures line[i] == marker
      {
        assert rest[i - w] == line[i];
      }
    }
  }

  lemma FenceBegunExactly(line: string, marker: char, length: nat)
    ensures StartsFence(line) == Inside(marker, length) <==> BeginsFence(line, marker, length)
  {
    hide MarkerRun, Spaces, RunAt;
    LeadingExactly(line);
    var n := LeadingSpaces(line);
    if (marker == '`' || marker == '~') && length >= 3 {
      RunBehindSpaces(line, n, length, marker);
      forall w: nat | Spaces(line, w) && RunAt(line, w, length, marker)
        ensures w == n
      {
        RunBehindSpaces(line, w, length, marker);
      }
    }
  }

  lemma FenceEndedExactly(line: string, marker: char, length: nat)
    requires length >= 1 && marker != ' '
    ensures ClosesFence(line, marker, length) <==> EndsFence(line, marker, length)
  {
    hide MarkerRun, Spaces, TrimSpace, Blank;
    LeadingExactly(line);
    var n := LeadingSpaces(line);
    var run := MarkerRun(line[n..], marker);
    assert line[n..][run..] == line[n + run..];
    BlankTrims(line[n + run..]);
    if ClosesFence(line, marker, length) {
      RunBehindSpaces(line, n, run, marker);
      assert run >= length && Spaces(line, n) && RunAt(line, n, run, marker) && Blank(line[n + run..]);
    }
    forall w: nat, k: nat | k >= length && Spaces(line, w) && RunAt(line, w, k, marker) && Blank(line[w + k..])
      ensures w == n && k == run && line[n..] != "" && line[n] == marker
    {
      RunBehindSpaces(line, w, k, marker);
    }
  }

  // ---------- a division by lines ----------

  predicate Sensible(fence: Fence) {
    fence.Inside? ==> fence.length >= 3 && (fence.marker == '`' || fence.marker == '~')
  }

  /** The fence a copied line leads to, from the one it stands in. */
  ghost predicate Leads(before: Fence, line: string, after: Fence) {
    match before
    case Outside => forall marker, length :: after == Inside(marker, length) <==> BeginsFence(line, marker, length)
    case Inside(marker, length) => after == if EndsFence(line, marker, length) then Outside else before
  }

  ghost predicate NoneCloses(lines: seq<string>) {
    forall line | line in lines :: !ClosesArtifact(line)
  }

  /**
   A segment in its place, between two fences: an artifact stands outside of fences, runs from a line that opens one to the
   first line that closes one and is invisible to fences; a line that could open one is copied only in a fence or when
   no later line closes it.
   */
  ghost predicate Placed(before: Fence, segment: Segment, later: seq<string>, after: Fence) {
    match segment
    case Extracted(opener, content, closer) =>
      before == Outside && after == Outside && OpensArtifact(opener) && NoneCloses(content) && ClosesArtifact(closer)
    case Copied(line) =>
      Leads(before, line, after) && (before == Outside && OpensArtifact(line) ==> NoneCloses(later))
  }

  /** The fences before and behind every segment of a division. */
  ghost predicate Divided(before: Fence, segments: seq<Segment>, fences: seq<Fence>) {
    && |fences| == |segments| + 1 && fences[0] == before
    && forall i: nat | i < |segments| :: Placed(fences[i], segments[i], LinesOf(segments[i + 1..]), fences[i + 1])
  }

  lemma {:induction false} NoneClosesExactly(lines: seq<string>)
    ensures NoneCloses(lines) <==> !HasCloser(lines)
  {
    hide ClosesArtifact, IsCloser;
    if lines != [] {
      CloserExactly(lines[0]);
      NoneClosesExactly(lines[1..]);
      assert lines == [lines[0]] + lines[1..];
    }
  }

  /** A line that opens an artifact begins no fence. */
  lemma OpenerBeginsNone(line: string)
    requires OpensArtifact(line)
    ensures StartsFence(line) == Outside
  {
    hide IsSpace;
    var w: nat :| WordAt(line, w, ":::artifact") && Blank(line[..w]);
    assert line[w + 0] == ":::artifact"[0];
    forall i | 0 <= i < w
      ensures IsSpace(line[i])
    {
      assert line[..w][i] == line[i];
    }
    forall marker, length: nat, v: nat | length >= 3 && (marker == '`' || marker == '~')
      ensures !Spaces(line, v) || !RunAt(line, v, length, marker)
    {
      MarkersShow(marker);
      assert RunAt(line, v, length, marker) ==> line[v] == marker;
    }
    var fence := StartsFence(line);
    if fence.Inside? {
      FenceBegunExactly(line, fence.marker, fence.length);
      assert false;
    }
  }

  lemma MarkersShow(marker: char)
    requires marker == '`' || marker == '~'
    ensures !IsSpace(marker)
  {
  }

  lemma LeadsExactly(before: Fence, line: string, after: Fence)
    requires Sensible(before)
    ensures Leads(before, line, after) <==> after == FenceAfter(before, Copied(line))
    ensures Sensible(FenceAfter(before, Copied(line)))
  {
    hide BeginsFence, EndsFence, StartsFence, ClosesFence;
    forall marker, length
      ensures StartsFence(line) == Inside(marker, length) <==> BeginsFence(line, marker, length)
    {
      FenceBegunExactly(line, marker, length);
    }
    if before.Inside? {
      FenceEndedExactly(line, before.marker, before.length);
    } else {
      var fence := StartsFence(line);
      if fence.Inside? {
        FenceBegunExactly(line, fence.marker, fence.length);
        assert BeginsFence(line, fence.marker, fence.length);
        BegunIsSensible(line, fence.marker, fence.length);
      }
    }
  }

  lemma BegunIsSensible(line: string, marker: char, length: nat)
    requires BeginsFence(line, marker, length)
    ensures Sensible(Inside(marker, length))
  {
  }

  lemma PlacedExactly(before: Fence, segment: Segment, later: seq<string>, after: Fence)
    requires Sensible(before)
    ensures Placed(before, segment, later, after) <==> Fits(before, segment, later) && after == FenceAfter(before, segment)
    ensures Sensible(FenceAfter(before, segment))
  {
    hide Leads, OpensArtifact, ClosesArtifact, StartsFence, IsOpener, IsCloser, HasCloser, NoneCloses;
    match segment
    case Extracted(opener, content, closer) =>
      OpenerExactly(opener);
      CloserExactly(closer);
      NoneClosesExactly(content);
      if OpensArtifact(opener) {
        OpenerBeginsNone(opener);
      }
    case Copied(line) =>
      LeadsExactly(before, line, after);
      OpenerExactly(line);
      NoneClosesExactly(later);
      if OpensArtifact(line) {
        OpenerBeginsNone(line);
      }
  }

  lemma {:induction false} WellCutDivides(before: Fence, segments: seq<Segment>) returns (fences: seq<Fence>)
    requires Sensible(before) && WellCut(before, segments)
    ensures Divided(before, segments, fences)
    decreases |segments|
  {
    hide Placed, Fits, FenceAfter, LinesOf;
    if segments == [] {
      fences := [before];
    } else {
      var after := FenceAfter(before, segments[0]);
      PlacedExactly(before, segments[0], LinesOf(segments[1..]), after);
      var rest := WellCutDivides(after, segments[1..]);
      fences := [before] + rest;
      forall i: nat | i < |segments|
        ensures Placed(fences[i], segments[i], LinesOf(segments[i + 1..]), fences[i + 1])
      {
        if i > 0 {
          assert Placed(rest[i - 1], segments[1..][i - 1], LinesOf(segments[1..][i..]), rest[i]);
          assert segments[1..][i..] == segments[i + 1..];
        }
      }
    }
  }

  lemma {:induction false} DividedIsWellCut(before: Fence, segments: seq<Segment>, fences: seq<Fence>)
    requires Sensible(before) && Divided(before, segments, fences)
    ensures WellCut(before, segments)
    decreases |segments|
  {
    hide Placed, Fits, FenceAfter, LinesOf;
    if segments != [] {
      PlacedExactly(fences[0], segments[0], LinesOf(segments[1..]), fences[1]);
      forall i: nat | i < |segments| - 1
        ensures Placed(fences[1..][i], segments[1..][i], LinesOf(segments[1..][i + 1..]), fences[1..][i + 1])
      {
        assert segments[1..][i + 1..] == segments[i + 1 + 1..];
        assert Placed(fences[i + 1], segments[i + 1], LinesOf(segments[i + 1 + 1..]), fences[i + 1 + 1]);
      }
      DividedIsWellCut(fences[1], segments[1..], fences[1..]);
    }
  }

  // ---------- the lines of a text ----------

  /** A line up to and with its line feed. */
  predicate FullLine(line: string) {
    line != "" && line[|line| - 1] == '\n' && forall k | 0 <= k < |line| - 1 :: line[k] != '\n'
  }

  predicate NoFeed(line: string) {
    forall k | 0 <= k < |line| :: line[k] != '\n'
  }

  /** Every line but the last is a full line, and the last has no line feed. */
  predicate AreLines(lines: seq<string>) {
    && lines != [] && (forall i | 0 <= i < |lines| - 1 :: FullLine(lines[i]))
    && NoFeed(lines[|lines| - 1])
  }

  lemma AreLinesCons(line: string, rest: seq<string>)
    requires FullLine(line) && rest != []
    ensures AreLines([line] + rest) <==> AreLines(rest)
  {
    hide FullLine;
    var lines := [line] + rest;
    assert forall i | 0 <= i < |rest| :: lines[i + 1] == rest[i];
    if AreLines(lines) {
      forall i | 0 <= i < |rest| - 1
        ensures FullLine(rest[i])
      {
        assert FullLine(lines[i + 1]);
      }
    }
    if AreLines(rest) {
      forall i | 0 <= i < |lines| - 1
        ensures FullLine(lines[i])
      {
        assert i > 0 ==> lines[i] == rest[i - 1];
      }
    }
  }

  lemma {:induction false} SplitAreLines(input: string)
    ensures AreLines(SplitLines(input))
    decreases |input|
  {
    hide AreLines;
    var i := IndexChar(input, '\n');
    if i >= 0 {
      SplitAreLines(input[i + 1..]);
      AreLinesCons(input[..i + 1], SplitLines(input[i + 1..]));
    } else {
      OneLine(input);
    }
  }

  lemma OneLine(line: string)
    requires NoFeed(line)
    ensures AreLines([line])
  {
  }

  lemma FullLineSplit(line: string, rest: string)
    requires FullLine(line)
    ensures SplitLines(line + rest) == [line] + SplitLines(rest)
  {
    hide SplitLines;
    var input, n := line + rest, |line| - 1;
    assert forall k | 0 <= k <= n :: input[k] == line[k];
    IndexCharAt(input, '\n', n);
    assert input[..n + 1] == line && input[n + 1..] == rest;
    SplitHead(input);
  }

  lemma SplitHead(input: string)
    ensures var i := IndexChar(input, '\n');
            SplitLines(input) == if i < 0 then [input] else [input[..i + 1]] + SplitLines(input[i + 1..])
  {
  }

  /** There is one way to take a text into lines. */
  lemma {:induction false} OneSplit(lines: seq<string>)
    requires AreLines(lines)
    ensures SplitLines(Join(lines)) == lines
    decreases |lines|
  {
    hide SplitLines, FullLine;
    var line, rest := lines[0], lines[1..];
    assert lines == [line] + rest;
    if rest == [] {
      assert Join(lines) == line + "" == line;
      SplitHead(line);
    } else {
      assert FullLine(line);
      AreLinesCons(line, rest);
      OneSplit(rest);
      FullLineSplit(line, Join(rest));
    }
  }

  /**
   Extraction, told by lines and characters alone. The lines of the input divide into copied lines and artifacts
   so that every artifact runs from a line that opens one, outside of fences, to the first line that closes one,
   and no copied line could open one; there is no other such division; and the artifacts and pieces of markdown are
   those of this one.
   */
  lemma ExtractionByLines(input: string) returns (segments: seq<Segment>, fences: seq<Fence>)
    ensures AreLines(LinesOf(segments)) && Join(LinesOf(segments)) == input
    ensures Divided(Outside, segments, fences)
    ensures forall others, marks | AreLines(LinesOf(others)) && Join(LinesOf(others)) == input && Divided(Outside, others, marks) :: others == segments
    ensures Extract(input).artifacts == Placeholders(input, 0, ArtifactsOf(segments))
    ensures exists pieces :: Pieces(input, 0, "", segments, pieces) && Extract(input).markdown == Join(pieces)
  {
    hide WellCut, Divided, AreLines, SplitLines, LinesOf, Join, Extract, Pieces, Placeholders, ArtifactsOf, Contains;
    var pieces;
    segments, pieces := ExtractionLosesNothing(input);
    fences := WellCutDivides(Outside, segments);
    SplitAreLines(input);
    forall others, marks | AreLines(LinesOf(others)) && Join(LinesOf(others)) == input && Divided(Outside, others, marks)
      ensures others == segments
    {
      DividedIsWellCut(Outside, others, marks);
      OneSplit(LinesOf(others));
    }
  }
}
