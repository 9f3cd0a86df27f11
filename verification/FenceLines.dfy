/**
 Fences by the characters of their lines: which lines open and close one, what that makes of a text line by
 line, and where the blocks of a streamed text end, told without the automaton that finds them.
 */
module FenceLines {
  import opened BlockStreaming
  import opened Fences
  import opened Strings

  // ---------- one line ----------

  /** Behind its leading white space a maximal run of at least three equal backticks or tildes, and then anything. */
  ghost predicate OpensFence(line: string, marker: char, length: nat) {
    (marker == '`' || marker == '~') && length >= 3
    && exists w: nat :: w <= |line| && Blank(line[..w]) && RunAt(line, w, length, marker)
  }

  /** Behind its leading white space at least as many of the fence's markers, and then nothing but white space. */
  ghost predicate ClosesFence(line: string, marker: char, length: nat) {
    exists k: nat, w: nat :: k >= length && w <= |line| && Blank(line[..w]) && RunAt(line, w, k, marker) && Blank(line[w + k..])
  }

  lemma OpensExactly(line: string, marker: char, length: nat)
    ensures OpenedBy(TrimSpace(line)) == Inside(marker, length) <==> OpensFence(line, marker, length)
  {
    hide TrimSpace, Blank;
    var t := TrimSpace(line);
    if marker == '`' || marker == '~' {
      if length >= 3 {
        RunInTrimmed(line, marker, length);
        MarkerRunIs(t, marker, length);
      }
    }
  }

  lemma OnlyMarkersOpen(line: string)
    ensures OpenedBy(TrimSpace(line)) == Outside || exists marker, length :: OpensFence(line, marker, length)
  {
    var fence := OpenedBy(TrimSpace(line));
    if fence.Inside? {
      OpensExactly(line, fence.marker, fence.length);
    }
  }

  /** What is left of a trimmed line behind its run is empty exactly when the line has only white space there. */
  lemma RestOfLine(line: string, w: nat, k: nat, marker: char)
    requires k >= 1 && !IsSpace(marker) && w <= |line| && Blank(line[..w]) && RunAt(line, w, k, marker)
    requires RunAt(TrimSpace(line), 0, k, marker)
    ensures |TrimSpace(line)| == k <==> Blank(line[w + k..])
  {
    hide TrimSpace, IsSpace;
    var v := TrimSpaceAt(line);
    var t := TrimSpace(line);
    forall i | 0 <= i < w
      ensures IsSpace(line[i])
    {
      assert line[..w][i] == line[i];
    }
    RunOfWhole(line, t, v, w, marker, k);
    var rest := line[w + k..];
    if |t| == k {
      forall i | 0 <= i < |rest|
        ensures IsSpace(rest[i])
      {
        assert rest[i] == line[w + k + i];
      }
    } else {
      assert t[|t| - 1] == line[v + (|t| - 1)] == rest[|t| - 1 - k];
    }
  }

  lemma TrimmedTail(t: string, k: nat)
    requires k <= |t| && Trimmed(t)
    ensures TrimSpace(t[k..]) == "" <==> |t| == k
  {
    hide TrimSpace, IsSpace;
    BlankTrims(t[k..]);
    if k < |t| {
      assert t[k..][|t| - 1 - k] == t[|t| - 1];
    } else {
      assert t[k..] == "";
    }
  }

  lemma ClosesExactly(line: string, marker: char, length: nat)
    requires length >= 1 && !IsSpace(marker)
    ensures Closes(TrimSpace(line), marker, length) <==> ClosesFence(line, marker, length)
  {
    hide TrimSpace, IsSpace, Blank;
    var t := TrimSpace(line);
    var _ := TrimSpaceAt(line);
    var run := MarkerRun(t, marker);
    TrimmedTail(t, run);
    MarkerRunIs(t, marker, run);
    if Closes(t, marker, length) {
      RunInTrimmed(line, marker, run);
      var w: nat :| w <= |line| && Blank(line[..w]) && RunAt(line, w, run, marker);
      RestOfLine(line, w, run, marker);
      assert run >= length && w <= |line| && Blank(line[..w]) && RunAt(line, w, run, marker) && Blank(line[w + run..]);
    }
    forall k: nat, w: nat | k >= length && w <= |line| && Blank(line[..w]) && RunAt(line, w, k, marker) && Blank(line[w + k..])
      ensures Closes(t, marker, length)
    {
      RunInTrimmed(line, marker, k);
      MarkerRunIs(t, marker, k);
      RestOfLine(line, w, k, marker);
    }
  }

  // ---------- a text, line by line ----------

  /** The characters from `a` to `b` are a whole line with its line feed. */
  predicate LineAt(text: string, a: nat, b: nat) {
    && a < b <= |text| && StartsLine(text, a) && text[b - 1] == '\n' && forall i | a <= i < b - 1 :: text[i] != '\n'
  }

  predicate StartsLine(text: string, a: nat) {
    a <= |text| && (a == 0 || text[a - 1] == '\n')
  }

  /** The fence a line leads to, from the one it is read in. */
  ghost predicate Leads(before: Fence, line: string, after: Fence) {
    match before
    case Outside => forall marker, length :: after == Inside(marker, length) <==> OpensFence(line, marker, length)
    case Inside(marker, length) => after == if ClosesFence(line, marker, length) then Outside else before
  }

  /** A fence for the start of every line: none at first, and from line to line as the lines lead. */
  ghost predicate Fenced(text: string, fences: seq<Fence>) {
    && |fences| == |text| + 1 && fences[0] == Outside
    && forall a: nat, b: nat | LineAt(text, a, b) :: Leads(fences[a], text[a..b], fences[b])
  }

  predicate Sensible(fence: Fence) {
    fence.Inside? ==> fence.length >= 3 && (fence.marker == '`' || fence.marker == '~')
  }

  lemma LeadsExactly(before: Fence, line: string, after: Fence)
    requires Sensible(before)
    ensures Leads(before, line, after) <==> after == AfterLine(before, line)
    ensures Sensible(AfterLine(before, line))
  {
    hide OpenedBy, Closes, OpensFence, ClosesFence, TrimSpace;
    match before
    case Outside =>
      var found := OpenedBy(TrimSpace(line));
      forall marker, length
        ensures found == Inside(marker, length) <==> OpensFence(line, marker, length)
      {
        OpensExactly(line, marker, length);
      }
      OpenedSensible(TrimSpace(line));
      if Leads(before, line, after) && after != found {
        SameFence(after, found);
      }
    case Inside(marker, length) => ClosesExactly(line, marker, length);
  }

  lemma OpenedSensible(trimmed: string)
    ensures Sensible(OpenedBy(trimmed))
  {
  }

  lemma SameFence(a: Fence, b: Fence)
    requires forall marker, length :: a == Inside(marker, length) <==> b == Inside(marker, length)
    ensures a == b
  {
    if a.Inside? {
      assert b == Inside(a.marker, a.length);
    } else if b.Inside? {
      assert a == Inside(b.marker, b.length);
    }
  }

  /** The start of the line that ends at `p`. */
  function LineStart(text: string, p: nat): (a: nat)
    requires p < |text|
    ensures a <= p && StartsLine(text, a) && forall i | a <= i < p :: text[i] != '\n'
  {
    if p == 0 || text[p - 1] == '\n' then p else LineStart(text, p - 1)
  }

  /** At the start of every line the automaton is in the fence that the lines before lead to. */
  lemma {:induction false} FenceAtLine(text: string, fences: seq<Fence>, p: nat)
    requires Fenced(text, fences) && StartsLine(text, p)
    ensures ScanText(text[..p]) == Scan(fences[p], "") && Sensible(fences[p])
    decreases p
  {
    hide ScanText, AfterLine, Marks, Closes, TrimSpace, Leads;
    if p == 0 {
      ScanNothing();
      assert text[..0] == "";
    } else {
      var a := LineStart(text, p - 1);
      FenceAtLine(text, fences, a);
      assert LineAt(text, a, p);
      LineRead(text, a, p);
      LeadsExactly(fences[a], text[a..p], fences[p]);
    }
  }

  /** Every text has such fences. */
  lemma FencesExist(text: string) returns (fences: seq<Fence>)
    ensures Fenced(text, fences)
  {
    hide ScanText, AfterLine, Marks, Closes, TrimSpace, Leads;
    fences := seq(|text| + 1, p requires 0 <= p <= |text| => ScanText(text[..p]).fence);
    assert text[..0] == "";
    ScanNothing();
    forall a: nat, b: nat | LineAt(text, a, b)
      ensures Leads(fences[a], text[a..b], fences[b])
    {
      ScanAtLine(text, a);
      LineRead(text, a, b);
      LeadsExactly(fences[a], text[a..b], fences[b]);
    }
  }

  lemma {:induction false} ScanAtLine(text: string, p: nat)
    requires StartsLine(text, p)
    ensures ScanText(text[..p]).line == "" && Sensible(ScanText(text[..p]).fence)
    decreases p
  {
    hide ScanText, AfterLine, Marks, Closes, TrimSpace, Leads;
    if p == 0 {
      ScanNothing();
      assert text[..0] == "";
    } else {
      var a := LineStart(text, p - 1);
      ScanAtLine(text, a);
      LineRead(text, a, p);
      LeadsExactly(ScanText(text[..a]).fence, text[a..p], Outside);
    }
  }

  // ---------- where blocks end ----------

  /** A blank line outside every fence. */
  ghost predicate BlankLine(text: string, fences: seq<Fence>, a: nat, b: nat)
    requires |fences| == |text| + 1
  {
    LineAt(text, a, b) && fences[a] == Outside && Blank(text[a..b])
  }

  /** A line that closes the fence it is read in. */
  ghost predicate ClosingLine(text: string, fences: seq<Fence>, a: nat, b: nat)
    requires |fences| == |text| + 1
  {
    LineAt(text, a, b) && fences[a].Inside? && ClosesFence(text[a..b], fences[a].marker, fences[a].length)
  }

  lemma LineMarks(text: string, fences: seq<Fence>, a: nat, b: nat)
    requires Fenced(text, fences) && LineAt(text, a, b)
    ensures Marks(text)[b - 1] == BlankEnd <==> BlankLine(text, fences, a, b)
    ensures Marks(text)[b - 1] == FenceEnd <==> ClosingLine(text, fences, a, b)
  {
    hide ScanText, AfterLine, Marks, Closes, TrimSpace, Leads, ClosesFence;
    FenceAtLine(text, fences, a);
    LineRead(text, a, b);
    BlankTrims(text[a..b]);
    if fences[a].Inside? {
      ClosesExactly(text[a..b], fences[a].marker, fences[a].length);
    }
  }

  lemma EndsAreFeeds(text: string, p: nat)
    requires 1 <= p <= |text| && (Marks(text)[p - 1] == BlankEnd || Marks(text)[p - 1] == FenceEnd)
    ensures text[p - 1] == '\n'
  {
    hide ScanText, Closes, TrimSpace, Marks;
    MarkAt(text, p);
  }

  /** A block boundary is the end of a blank line outside fences, or of a closing line, or of the one CR behind it. */
  ghost predicate ProperEnd(text: string, fences: seq<Fence>, p: nat)
    requires |fences| == |text| + 1
  {
    exists a: nat, b: nat :: (BlankLine(text, fences, a, b) && p == b)
                             || (ClosingLine(text, fences, a, b) && (p == b || (p == b + 1 && p <= |text| && text[b] == '\r')))
  }

  lemma ProperEndOf(text: string, fences: seq<Fence>, p: nat, b: nat)
    requires Fenced(text, fences) && 1 <= b <= |text| && (Marks(text)[b - 1] == BlankEnd || Marks(text)[b - 1] == FenceEnd)
    requires p == b || (p == b + 1 && p <= |text| && text[b] == '\r' && Marks(text)[b - 1] == FenceEnd)
    ensures ProperEnd(text, fences, p)
  {
    hide Marks, Fenced, BlankLine, ClosingLine;
    EndsAreFeeds(text, b);
    var a := LineStart(text, b - 1);
    assert LineAt(text, a, b);
    FencedLength(text, fences);
    LineMarks(text, fences, a, b);
    assert (BlankLine(text, fences, a, b) && p == b)
           || (ClosingLine(text, fences, a, b) && (p == b || (p == b + 1 && p <= |text| && text[b] == '\r')));
  }

  lemma FencedLength(text: string, fences: seq<Fence>)
    requires Fenced(text, fences)
    ensures |fences| == |text| + 1
  {
  }

  /**
   Where the blocks of a streamed text end, by its lines alone and however it is split: a block ends after every
   blank line outside fences, and every block ends there, or with a line that closes a fence, or with one CR behind
   such a line. So no block ends inside a fence.
   */
  lemma BlocksEndByLines(chunks: seq<string>, fences: seq<Fence>)
    requires Fenced(Concat(chunks), fences)
    ensures var text, blocks := Concat(chunks), Feed(chunks).blocks;
            && (forall a: nat, b: nat | BlankLine(text, fences, a, b) :: exists k | 1 <= k <= |blocks| :: |Concat(blocks[..k])| == b)
            && (forall k | 1 <= k <= |blocks| :: |Concat(blocks[..k])| <= |text| && ProperEnd(text, fences, |Concat(blocks[..k])|))
  {
    hide Marks, Fenced, ScanText, Feed, Concat, BlankLine, ProperEnd;
    var text, blocks := Concat(chunks), Feed(chunks).blocks;
    FencedLength(text, fences);
    BlockBoundaries(chunks);
    forall a: nat, b: nat | BlankLine(text, fences, a, b)
      ensures exists k | 1 <= k <= |blocks| :: |Concat(blocks[..k])| == b
    {
      BlankIsLine(text, fences, a, b);
      LineMarks(text, fences, a, b);
      assert Marks(text)[b - 1] == BlankEnd;
      var k :| 1 <= k <= |blocks| && |Concat(blocks[..k])| == b - 1 + 1;
      assert |Concat(blocks[..k])| == b;
    }
    forall k | 1 <= k <= |blocks|
      ensures |Concat(blocks[..k])| <= |text| && ProperEnd(text, fences, |Concat(blocks[..k])|)
    {
      var p := |Concat(blocks[..k])|;
      if Marks(text)[p - 1] == BlankEnd || Marks(text)[p - 1] == FenceEnd {
        ProperEndOf(text, fences, p, p);
      } else {
        CarriageAt(text, p);
        ProperEndOf(text, fences, p, p - 1);
      }
    }
  }

  lemma BlankIsLine(text: string, fences: seq<Fence>, a: nat, b: nat)
    requires |fences| == |text| + 1 && BlankLine(text, fences, a, b)
    ensures LineAt(text, a, b)
  {
  }

  lemma CarriageAt(text: string, p: nat)
    requires 1 <= p <= |text| && Marks(text)[p - 1] == CarriageReturn
    ensures text[p - 1] == '\r'
  {
    hide ScanText, Closes, TrimSpace, Marks;
    MarkAt(text, p);
  }
}
