/**
 Incremental splitting of streamed markdown into blocks. The streamer only ever looks at its pending
 text; the reference here is a character automaton over the whole text, which knows nothing of chunks.
 */
module BlockStreaming {
  import opened Fences
  import opened Strings

  // ---------- fence lines ----------

  /** The fence a trimmed line opens, or `Outside`. */
  function OpenedBy(trimmed: string): Fence {
    if |trimmed| < 3 || (trimmed[0] != '`' && trimmed[0] != '~') || MarkerRun(trimmed, trimmed[0]) < 3 then Outside
    else Inside(trimmed[0], MarkerRun(trimmed, trimmed[0]))
  }

  predicate Closes(trimmed: string, marker: char, minLength: nat) {
    var run := MarkerRun(trimmed, marker);
    minLength <= run <= |trimmed| && TrimSpace(trimmed[run..]) == ""
  }

  // ---------- the whole-text automaton ----------

  /** The fence state before the current line, and the current line so far. */
  datatype Scan = Scan(fence: Fence, line: string)

  function AfterLine(fence: Fence, line: string): Fence {
    match fence
    case Outside => OpenedBy(TrimSpace(line))
    case Inside(marker, length) => if Closes(TrimSpace(line), marker, length) then Outside else fence
  }

  function Read(scan: Scan, c: char): Scan {
    if c == '\n' then Scan(AfterLine(scan.fence, scan.line + [c]), "") else scan.(line := scan.line + [c])
  }

  function ScanText(text: string): Scan {
    if text == "" then Scan(Outside, "") else Read(ScanText(text[..|text| - 1]), text[|text| - 1])
  }

  // ---------- marks ----------

  /** What one character of the text is for the splitter. */
  datatype Mark = BlankEnd | FenceEnd | LineEnd | CarriageReturn | Inner

  /** The line feed that ends a line: of a blank line outside every fence, of a line closing a fence, or of another line. */
  function MarkOf(scan: Scan, c: char): Mark {
    if c == '\n' then
      var trimmed := TrimSpace(scan.line + "\n");
      if scan.fence == Outside then if trimmed == "" then BlankEnd else LineEnd
      else if Closes(trimmed, scan.fence.marker, scan.fence.length) then FenceEnd
      else LineEnd
    else if c == '\r' then CarriageReturn
    else Inner
  }

  function Marks(text: string): (marks: seq<Mark>)
    ensures |marks| == |text|
  {
    if text == "" then []
    else Marks(text[..|text| - 1]) + [MarkOf(ScanText(text[..|text| - 1]), text[|text| - 1])]
  }

  predicate EndsLine(mark: Mark) {
    mark.BlankEnd? || mark.FenceEnd? || mark.LineEnd?
  }

  /**
   Where a text that arrived in pieces is cut: after every blank line outside a fence; after a line that
   closes a fence, when a piece ended with it; and otherwise after the one CR that follows such a line,
   unless that CR and the next character are the end of a line that arrived together.
   */
  predicate IsCut(marks: seq<Mark>, arrivals: set<nat>, p: nat) {
    && 1 <= p <= |marks|
    && (|| marks[p - 1] == BlankEnd
        || (marks[p - 1] == FenceEnd && p in arrivals)
        || (&& p >= 2 && marks[p - 2] == FenceEnd && marks[p - 1] == CarriageReturn && p - 1 !in arrivals
            && (p in arrivals || (p < |marks| && !EndsLine(marks[p])))))
  }

  function Cuts(text: string, arrivals: set<nat>): (cuts: set<nat>)
    ensures forall p: nat :: p in cuts <==> IsCut(Marks(text), arrivals, p)
  {
    var marks := Marks(text);
    set p: nat | 1 <= p <= |marks| && IsCut(marks, arrivals, p)
  }

  // ---------- splitting at cuts ----------

  /** The last cut up to `n`, or 0. */
  function LastCut(cuts: set<nat>, n: nat): (p: nat)
    ensures p <= n && (p > 0 ==> p in cuts)
    ensures forall q | p < q <= n :: q !in cuts
  {
    if n == 0 || n in cuts then n else LastCut(cuts, n - 1)
  }

  /** The pieces between consecutive cuts, up to position `n`. */
  function Blocks(text: string, cuts: set<nat>, n: nat): seq<string>
    requires n <= |text|
  {
    if n == 0 then []
    else if n in cuts then Blocks(text, cuts, n - 1) + [text[LastCut(cuts, n - 1)..n]]
    else Blocks(text, cuts, n - 1)
  }

  lemma {:induction false} BlocksStay(text: string, cuts: set<nat>, m: nat, n: nat)
    requires m <= n <= |text| && forall p | m < p <= n :: p !in cuts
    ensures Blocks(text, cuts, n) == Blocks(text, cuts, m) && LastCut(cuts, n) == LastCut(cuts, m)
  {
    if m < n {
      BlocksStay(text, cuts, m, n - 1);
    }
  }

  /** One cut further. */
  lemma {:induction false} BlocksNext(text: string, cuts: set<nat>, m: nat, n: nat)
    requires m < n <= |text| && n in cuts && forall p | m < p < n :: p !in cuts
    ensures Blocks(text, cuts, n) == Blocks(text, cuts, m) + [text[LastCut(cuts, m)..n]] && LastCut(cuts, n) == n
  {
    BlocksStay(text, cuts, m, n - 1);
  }

  /** Blocks lose nothing: joined with what is still pending they are the text. */
  lemma {:induction false} BlocksJoin(text: string, cuts: set<nat>, n: nat)
    requires n <= |text|
    ensures Concat(Blocks(text, cuts, n)) == text[..LastCut(cuts, n)]
  {
    if n > 0 {
      BlocksJoin(text, cuts, n - 1);
      if n in cuts {
        var k := LastCut(cuts, n - 1);
        ConcatSnoc(Blocks(text, cuts, n - 1), text[k..n]);
        assert text[..k] + text[k..n] == text[..n];
      }
    }
  }

  // ---------- facts about the automaton ----------

  lemma ScanAt(text: string, p: nat)
    requires 1 <= p <= |text|
    ensures ScanText(text[..p]) == Read(ScanText(text[..p - 1]), text[p - 1])
  {
    assert text[..p][..p - 1] == text[..p - 1];
  }

  lemma {:induction false} MarkAt(text: string, p: nat)
    requires 1 <= p <= |text|
    ensures Marks(text)[p - 1] == MarkOf(ScanText(text[..p - 1]), text[p - 1])
  {
    if p < |text| {
      MarkAt(text[..|text| - 1], p);
      assert text[..|text| - 1][..p - 1] == text[..p - 1];
    }
  }

  /** Marks depend only on what came before. */
  lemma {:induction false} MarksPrefix(text: string, delta: string)
    ensures Marks(text + delta)[..|text|] == Marks(text)
  {
    if delta == "" {
      assert text + delta == text;
    } else {
      var n := |delta| - 1;
      assert (text + delta)[..|text| + n] == text + delta[..n];
      MarksPrefix(text, delta[..n]);
    }
  }

  lemma {:induction false} ScanWithinLine(text: string, a: nat, b: nat)
    requires a <= b <= |text| && forall i | a <= i < b :: text[i] != '\n'
    ensures ScanText(text[..b]) == Scan(ScanText(text[..a]).fence, ScanText(text[..a]).line + text[a..b])
  {
    if a == b {
      assert ScanText(text[..a]).line + text[a..b] == ScanText(text[..a]).line;
    } else {
      ScanWithinLine(text, a, b - 1);
      ScanAt(text, b);
      assert text[a..b] == text[a..b - 1] + [text[b - 1]];
    }
  }

  lemma ReadEnd(scan: Scan, c: char)
    requires MarkOf(scan, c) == BlankEnd || MarkOf(scan, c) == FenceEnd
    ensures Read(scan, c) == Scan(Outside, "")
  {
    assert scan.line + [c] == scan.line + "\n";
  }

  /** After a line that closes a fence or is blank outside one, no fence is open. */
  lemma AfterEnd(text: string, p: nat)
    requires 1 <= p <= |text| && (Marks(text)[p - 1] == BlankEnd || Marks(text)[p - 1] == FenceEnd)
    ensures ScanText(text[..p]) == Scan(Outside, "")
  {
    var scan := ScanText(text[..p - 1]);
    ScanAt(text, p);
    MarkAt(text, p);
    ReadEnd(scan, text[p - 1]);
  }

  /** At a cut no fence is open, and the line begun, if any, is a lone CR. */
  lemma AtCut(text: string, arrivals: set<nat>, p: nat)
    requires IsCut(Marks(text), arrivals, p)
    ensures ScanText(text[..p]).fence == Outside
    ensures ScanText(text[..p]).line == "" || ScanText(text[..p]).line == "\r"
  {
    hide TrimSpace, Closes, OpenedBy;
    if Marks(text)[p - 1] == BlankEnd || Marks(text)[p - 1] == FenceEnd {
      AfterEnd(text, p);
    } else {
      AfterEnd(text, p - 1);
      ScanAt(text, p);
      MarkAt(text, p);
    }
  }

  // ---------- pending text against whole text ----------

  /** Two scans agree, up to one CR that the whole text has before the line begun. */
  ghost predicate Agree(whole: Scan, pending: Scan) {
    whole.fence == pending.fence && (whole.line == pending.line || whole.line == "\r" + pending.line)
  }

  lemma LeadingCr(line: string)
    ensures TrimSpace("\r" + line) == TrimSpace(line)
  {
    assert ("\r" + line)[1..] == line;
  }

  lemma AgreeReads(whole: Scan, pending: Scan, c: char)
    requires Agree(whole, pending)
    ensures Agree(Read(whole, c), Read(pending, c)) && MarkOf(whole, c) == MarkOf(pending, c)
  {
    hide TrimSpace, Closes, OpenedBy;
    LeadingCr(pending.line + [c]);
    assert "\r" + pending.line + [c] == "\r" + (pending.line + [c]);
  }

  lemma ScanNothing()
    ensures ScanText("") == Scan(Outside, "")
  {
  }

  lemma ScanSnoc(text: string, c: char)
    ensures ScanText(text + [c]) == Read(ScanText(text), c)
  {
    assert (text + [c])[..|text|] == text;
  }

  /** Behind a point without open fence, scanning from scratch sees what scanning the whole text does. */
  lemma {:induction false} ScanBehind(before: string, text: string)
    requires Agree(ScanText(before), Scan(Outside, ""))
    ensures Agree(ScanText(before + text), ScanText(text))
  {
    hide Read, ScanText, Agree, MarkOf;
    if text == "" {
      ScanNothing();
      assert before + text == before;
    } else {
      var init, c := text[..|text| - 1], text[|text| - 1];
      assert before + text == before + init + [c] && text == init + [c];
      ScanBehind(before, init);
      ScanSnoc(before + init, c);
      ScanSnoc(init, c);
      AgreeReads(ScanText(before + init), ScanText(init), c);
    }
  }

  /** Rescanning the pending text from scratch sees what the whole text shows from the last cut on. */
  lemma Rescan(whole: string, base: nat, q: nat)
    requires base + q <= |whole| && Agree(ScanText(whole[..base]), Scan(Outside, ""))
    ensures Agree(ScanText(whole[..base + q]), ScanText(whole[base..][..q]))
  {
    hide ScanText, Agree;
    ScanBehind(whole[..base], whole[base..][..q]);
    assert whole[..base + q] == whole[..base] + whole[base..][..q];
  }

  lemma SameMark(whole: string, base: nat, q: nat)
    requires 1 <= q && base + q <= |whole| && Agree(ScanText(whole[..base]), Scan(Outside, ""))
    ensures Marks(whole)[base + q - 1] == Marks(whole[base..])[q - 1]
  {
    hide Read, MarkOf, Marks, ScanText, Agree;
    Rescan(whole, base, q - 1);
    MarkAt(whole, base + q);
    MarkAt(whole[base..], q);
    AgreeReads(ScanText(whole[..base + q - 1]), ScanText(whole[base..][..q - 1]), whole[base + q - 1]);
  }

  /** Appending text leaves earlier cuts as they were. */
  lemma CutsStable(marks: seq<Mark>, arrivals: set<nat>, longer: seq<Mark>, p: nat)
    requires marks < longer && p <= |marks| && (|marks| in arrivals || marks == [])
    ensures IsCut(longer, arrivals + {|longer|}, p) <==> IsCut(marks, arrivals, p)
  {
  }

  /**
   After the last cut, the cuts of the longer whole text are those found in the pending text alone,
   knowing only where the pending text ends.
   */
  lemma CutsMatch(marks: seq<Mark>, arrivals: set<nat>, base: nat, longer: seq<Mark>, q: nat)
    requires marks < longer && (|marks| in arrivals || marks == []) && forall a | a in arrivals :: a <= |marks|
    requires base <= |marks| && (base > 0 ==> IsCut(marks, arrivals, base))
    requires forall p | base < p <= |marks| :: !IsCut(marks, arrivals, p)
    requires base + q <= |longer| && q >= 1
    ensures IsCut(longer, arrivals + {|longer|}, base + q) <==> IsCut(longer[base..], {|longer| - base}, q)
  {
    if base + q <= |marks| {
      CutsStable(marks, arrivals, longer, base + q);
      assert !IsCut(marks, arrivals, base + q);
    }
    if q >= 2 && base + q - 1 <= |marks| {
      assert !IsCut(marks, arrivals, base + q - 1);
    }
  }

  lemma {:induction false} BlocksPrefix(text: string, cuts: set<nat>, longer: string, longerCuts: set<nat>, n: nat)
    requires text <= longer && n <= |text| && forall p | 1 <= p <= n :: p in cuts <==> p in longerCuts
    ensures Blocks(longer, longerCuts, n) == Blocks(text, cuts, n) && LastCut(longerCuts, n) == LastCut(cuts, n)
  {
    if n > 0 {
      BlocksPrefix(text, cuts, longer, longerCuts, n - 1);
      assert longer[..|text|] == text;
      assert longer[LastCut(cuts, n - 1)..n] == text[LastCut(cuts, n - 1)..n];
    }
  }

  lemma BlocksUnfold(text: string, cuts: set<nat>, n: nat)
    requires n <= |text|
    ensures Blocks(text, cuts, n) == if n == 0 then [] else Blocks(text, cuts, n - 1) + if n in cuts then [text[LastCut(cuts, n - 1)..n]] else []
  {
  }

  lemma SliceShift(text: string, base: nat, k: nat, q: nat)
    requires k <= q && base + q <= |text|
    ensures text[base + k..base + q] == text[base..][k..q]
  {
  }

  lemma {:induction false} LastCutShift(cuts: set<nat>, base: nat, pendingCuts: set<nat>, q: nat)
    requires LastCut(cuts, base) == base
    requires forall i | 1 <= i <= q :: base + i in cuts <==> i in pendingCuts
    ensures LastCut(cuts, base + q) == base + LastCut(pendingCuts, q)
  {
    if q > 0 {
      LastCutShift(cuts, base, pendingCuts, q - 1);
    }
  }

  /** One position further, in the whole text and in the pending text. */
  lemma BlocksShiftOne(whole: string, cuts: set<nat>, base: nat, pendingCuts: set<nat>, q: nat)
    requires q >= 1 && base + q <= |whole| && (base + q in cuts <==> q in pendingCuts)
    requires LastCut(cuts, base + q - 1) == base + LastCut(pendingCuts, q - 1)
    ensures var more := if q in pendingCuts then [whole[base..][LastCut(pendingCuts, q - 1)..q]] else [];
            && Blocks(whole, cuts, base + q) == Blocks(whole, cuts, base + q - 1) + more
            && Blocks(whole[base..], pendingCuts, q) == Blocks(whole[base..], pendingCuts, q - 1) + more
  {
    hide LastCut, Blocks;
    BlocksUnfold(whole, cuts, base + q);
    BlocksUnfold(whole[base..], pendingCuts, q);
    SliceShift(whole, base, LastCut(pendingCuts, q - 1), q);
  }

  lemma {:induction false} BlocksShift(whole: string, cuts: set<nat>, base: nat, pendingCuts: set<nat>, q: nat)
    requires base + q <= |whole| && LastCut(cuts, base) == base
    requires forall i | 1 <= i <= q :: base + i in cuts <==> i in pendingCuts
    ensures Blocks(whole, cuts, base + q) == Blocks(whole, cuts, base) + Blocks(whole[base..], pendingCuts, q)
    ensures LastCut(cuts, base + q) == base + LastCut(pendingCuts, q)
  {
    hide LastCut, Blocks;
    LastCutShift(cuts, base, pendingCuts, q);
    if q > 0 {
      BlocksShift(whole, cuts, base, pendingCuts, q - 1);
      BlocksShiftOne(whole, cuts, base, pendingCuts, q);
      var more := if q in pendingCuts then [whole[base..][LastCut(pendingCuts, q - 1)..q]] else [];
      AppendTwice(Blocks(whole, cuts, base), Blocks(whole[base..], pendingCuts, q - 1), more);
    } else {
      BlocksUnfold(whole[base..], pendingCuts, 0);
    }
  }

  lemma AppendTwice(a: seq<string>, b: seq<string>, c: seq<string>)
    ensures a + b + c == a + (b + c)
  {
  }

  // ---------- feeding ----------

  /** The ends of the pieces a text arrived in. */
  function Arrivals(chunks: seq<string>): set<nat> {
    if chunks == [] then {} else Arrivals(chunks[..|chunks| - 1]) + {|Concat(chunks)|}
  }

  datatype Fed = Fed(blocks: seq<string>, pending: string)

  /** The blocks of one pass over a pending text, and what stays pending. */
  function Pass(text: string): Fed {
    var cuts := Cuts(text, {|text|});
    Fed(Blocks(text, cuts, |text|), text[LastCut(cuts, |text|)..])
  }

  lemma PassJoins(text: string)
    ensures Concat(Pass(text).blocks) + Pass(text).pending == text
  {
    hide Cuts, Blocks, LastCut, Concat;
    var cuts := Cuts(text, {|text|});
    BlocksJoin(text, cuts, |text|);
    assert text[..LastCut(cuts, |text|)] + text[LastCut(cuts, |text|)..] == text;
  }

  /** All blocks emitted while a text is added piece by piece. */
  function Feed(chunks: seq<string>): Fed {
    if chunks == [] then Fed([], "")
    else
      var before := Feed(chunks[..|chunks| - 1]);
      var delta := chunks[|chunks| - 1];
      if delta == "" then before
      else
        var pass := Pass(before.pending + delta);
        Fed(before.blocks + pass.blocks, pass.pending)
  }

  /** The whole text, cut where the automaton over the whole text says. */
  function Split(text: string, arrivals: set<nat>): Fed {
    var cuts := Cuts(text, arrivals);
    Fed(Blocks(text, cuts, |text|), text[LastCut(cuts, |text|)..])
  }

  lemma {:induction false} ArrivalsBounded(chunks: seq<string>)
    ensures forall a | a in Arrivals(chunks) :: a <= |Concat(chunks)|
    ensures chunks != [] ==> |Concat(chunks)| in Arrivals(chunks)
  {
    if chunks != [] {
      ArrivalsBounded(chunks[..|chunks| - 1]);
    }
  }

  /** One more piece: a pass over the pending text continues the split of the whole text. */
  lemma SplitExtends(text: string, arrivals: set<nat>, delta: string)
    requires delta != "" && (|text| in arrivals || text == "") && forall a | a in arrivals :: a <= |text|
    ensures var before := Split(text, arrivals);
            var pass := Pass(before.pending + delta);
            Split(text + delta, arrivals + {|text + delta|}) == Fed(before.blocks + pass.blocks, pass.pending)
  {
    hide Marks, IsCut, ScanText, Blocks, LastCut;
    var whole := text + delta;
    var later := arrivals + {|whole|};
    var marks, longer := Marks(text), Marks(whole);
    var cuts, wholeCuts := Cuts(text, arrivals), Cuts(whole, later);
    var base := LastCut(cuts, |text|);
    var pending := whole[base..];
    assert pending == text[base..] + delta;
    MarksPrefix(text, delta);
    assert marks < longer by { assert longer == longer[..|text|] + longer[|text|..]; }
    forall p | 1 <= p <= |text|
      ensures p in wholeCuts <==> p in cuts
    {
      CutsStable(marks, arrivals, longer, p);
    }
    BlocksPrefix(text, cuts, whole, wholeCuts, |text|);
    BlocksPrefix(text, cuts, whole, wholeCuts, base);
    BlocksStay(text, cuts, base, |text|);
    PendingMarks(text, arrivals, base, delta);
    forall q | 1 <= q <= |pending|
      ensures base + q in wholeCuts <==> q in Cuts(pending, {|pending|})
    {
      CutsMatch(marks, arrivals, base, longer, q);
    }
    BlocksShift(whole, wholeCuts, base, Cuts(pending, {|pending|}), |pending|);
  }

  lemma AgreeAtCut(text: string, arrivals: set<nat>, base: nat)
    requires base <= |text| && (base > 0 ==> IsCut(Marks(text), arrivals, base))
    ensures Agree(ScanText(text[..base]), Scan(Outside, ""))
  {
    hide Marks, IsCut;
    if base > 0 {
      AtCut(text, arrivals, base);
    }
    assert "\r" + "" == "\r";
  }

  lemma PendingMarks(text: string, arrivals: set<nat>, base: nat, delta: string)
    requires base <= |text| && (base > 0 ==> IsCut(Marks(text), arrivals, base))
    ensures Marks((text + delta)[base..]) == Marks(text + delta)[base..]
  {
    hide Marks, MarkOf, IsCut, ScanText, Agree;
    var whole := text + delta;
    assert whole[..base] == text[..base];
    AgreeAtCut(text, arrivals, base);
    forall i | 0 <= i < |whole| - base
      ensures Marks(whole[base..])[i] == Marks(whole)[base..][i]
    {
      SameMark(whole, base, i + 1);
    }
  }

  /**
   Chunking does not matter beyond its boundaries: for every split of a text into pieces, the emitted
   blocks are those of the whole text cut by the whole-text automaton.
   */
  lemma {:induction false} StreamedIsSplit(chunks: seq<string>)
    ensures Feed(chunks) == Split(Concat(chunks), Arrivals(chunks))
  {
    hide Feed, Split, Concat, Arrivals, Pass;
    if chunks == [] {
      NothingFed();
    } else {
      var init, delta := chunks[..|chunks| - 1], chunks[|chunks| - 1];
      assert chunks == init + [delta];
      StreamedIsSplit(init);
      ArrivalsBounded(init);
      ConcatSnoc(init, delta);
      FeedSnoc(init, delta);
      ArrivalsSnoc(init, delta);
      NothingFed();
      if delta == "" {
        assert Concat(init) + "" == Concat(init);
        SameArrivals(Concat(init), Arrivals(init));
      } else {
        SplitExtends(Concat(init), Arrivals(init), delta);
      }
    }
  }

  lemma NothingFed()
    ensures Feed([]) == Fed([], "") == Split("", {}) && Concat([]) == "" && Arrivals([]) == {}
  {
    hide Cuts;
  }

  lemma FeedSnoc(chunks: seq<string>, delta: string)
    ensures Feed(chunks + [delta]) ==
            if delta == "" then Feed(chunks)
            else
              var pass := Pass(Feed(chunks).pending + delta);
              Fed(Feed(chunks).blocks + pass.blocks, pass.pending)
  {
    hide Pass;
    assert (chunks + [delta])[..|chunks|] == chunks;
  }

  lemma ArrivalsSnoc(chunks: seq<string>, delta: string)
    ensures Arrivals(chunks + [delta]) == Arrivals(chunks) + {|Concat(chunks + [delta])|}
  {
    hide Concat;
    assert (chunks + [delta])[..|chunks|] == chunks;
  }

  lemma SameArrivals(text: string, arrivals: set<nat>)
    requires |text| in arrivals || text == ""
    ensures Split(text, arrivals + {|text|}) == Split(text, arrivals)
  {
    hide Cuts, Blocks, LastCut;
    if |text| in arrivals {
      assert arrivals + {|text|} == arrivals;
    } else {
      NoCuts(arrivals);
      NoCuts(arrivals + {|text|});
    }
  }

  lemma NoCuts(arrivals: set<nat>)
    ensures Cuts("", arrivals) == {}
  {
    assert Marks("") == [];
  }

  // ---------- what a reader of the blocks can rely on ----------

  /** The block boundaries are the cuts: the k-th block ends at the k-th cut. */
  lemma {:induction false} BoundariesAreCuts(text: string, cuts: set<nat>, n: nat, k: nat)
    requires n <= |text| && k < |Blocks(text, cuts, n)|
    ensures 1 <= |Concat(Blocks(text, cuts, n)[..k + 1])| <= n && |Concat(Blocks(text, cuts, n)[..k + 1])| in cuts
  {
    var blocks := Blocks(text, cuts, n);
    if n in cuts && k == |blocks| - 1 {
      BlocksJoin(text, cuts, n);
      assert blocks[..k + 1] == blocks;
    } else {
      BoundariesAreCuts(text, cuts, n - 1, k);
      assert blocks[..k + 1] == Blocks(text, cuts, n - 1)[..k + 1];
    }
  }

  lemma {:induction false} CutsAreBoundaries(text: string, cuts: set<nat>, n: nat, p: nat) returns (k: nat)
    requires 1 <= p <= n <= |text| && p in cuts
    ensures 1 <= k <= |Blocks(text, cuts, n)| && |Concat(Blocks(text, cuts, n)[..k])| == p
  {
    var blocks := Blocks(text, cuts, n);
    if p == n {
      k := |blocks|;
      BlocksJoin(text, cuts, n);
      assert blocks[..k] == blocks;
    } else {
      k := CutsAreBoundaries(text, cuts, n - 1, p);
      assert blocks[..k] == Blocks(text, cuts, n - 1)[..k];
    }
  }

  // ---------- two ways to arrive ----------

  /**
   Two ways to arrive make the same pieces behind each closing fence line: one ends with the line exactly
   when the other does; and where neither does, and a CR and a line feed of their own follow, one parts
   those two exactly when the other does.
   */
  ghost predicate AlikeBehindFences(marks: seq<Mark>, a: set<nat>, b: set<nat>) {
    forall i | 0 <= i < |marks| && marks[i] == FenceEnd ::
      && (i + 1 in a <==> i + 1 in b)
      && (i + 1 !in a && i + 2 < |marks| && marks[i + 1] == CarriageReturn && EndsLine(marks[i + 2]) ==> (i + 2 in a <==> i + 2 in b))
  }

  ghost predicate SameCuts(marks: seq<Mark>, a: set<nat>, b: set<nat>) {
    forall p | 1 <= p <= |marks| :: IsCut(marks, a, p) <==> IsCut(marks, b, p)
  }

  lemma SameCutsExactly(marks: seq<Mark>, a: set<nat>, b: set<nat>)
    requires |marks| in a && |marks| in b
    ensures SameCuts(marks, a, b) <==> AlikeBehindFences(marks, a, b)
  {
    if SameCuts(marks, a, b) {
      forall i | 0 <= i < |marks| && marks[i] == FenceEnd
        ensures i + 1 in a <==> i + 1 in b
        ensures i + 1 !in a && i + 2 < |marks| && marks[i + 1] == CarriageReturn && EndsLine(marks[i + 2]) ==> (i + 2 in a <==> i + 2 in b)
      {
        assert IsCut(marks, a, i + 1) <==> IsCut(marks, b, i + 1);
        if i + 2 <= |marks| {
          assert IsCut(marks, a, i + 2) <==> IsCut(marks, b, i + 2);
        }
      }
    }
    if AlikeBehindFences(marks, a, b) {
      forall p | 1 <= p <= |marks|
        ensures IsCut(marks, a, p) <==> IsCut(marks, b, p)
      {
        if p >= 2 && marks[p - 2] == FenceEnd {
          assert p - 1 in a <==> p - 1 in b;
        }
      }
    }
  }

  /** The cuts can be told from the blocks. */
  lemma CutsFromBlocks(text: string, a: set<nat>, b: set<nat>, p: nat)
    requires Blocks(text, Cuts(text, a), |text|) == Blocks(text, Cuts(text, b), |text|)
    requires 1 <= p <= |text| && IsCut(Marks(text), a, p)
    ensures IsCut(Marks(text), b, p)
  {
    hide Marks, IsCut;
    BoundaryIn(text, Cuts(text, a), Cuts(text, b), p);
  }

  lemma BoundaryIn(text: string, cuts: set<nat>, others: set<nat>, p: nat)
    requires Blocks(text, cuts, |text|) == Blocks(text, others, |text|) && 1 <= p <= |text| && p in cuts
    ensures p in others
  {
    hide Blocks, Concat;
    var k := CutsAreBoundaries(text, cuts, |text|, p);
    BoundariesAreCuts(text, others, |text|, k - 1);
  }

  lemma SplitExactly(text: string, a: set<nat>, b: set<nat>)
    ensures Split(text, a) == Split(text, b) <==> SameCuts(Marks(text), a, b)
  {
    hide Marks, IsCut, Blocks;
    if Split(text, a) == Split(text, b) {
      forall p | 1 <= p <= |text|
        ensures IsCut(Marks(text), a, p) <==> IsCut(Marks(text), b, p)
      {
        if IsCut(Marks(text), a, p) {
          CutsFromBlocks(text, a, b, p);
        }
        if IsCut(Marks(text), b, p) {
          CutsFromBlocks(text, b, a, p);
        }
      }
    }
    if SameCuts(Marks(text), a, b) {
      OnlyWithin(text, a);
      OnlyWithin(text, b);
      assert Cuts(text, a) == Cuts(text, b);
    }
  }

  lemma OnlyWithin(text: string, arrivals: set<nat>)
    ensures forall p | p in Cuts(text, arrivals) :: 1 <= p <= |text|
  {
    hide Marks;
  }

  /** Two chunkings of one text make the same blocks and leave the same rest exactly when they are alike behind its closing fence lines. */
  lemma ChunkingsAgree(a: seq<string>, b: seq<string>)
    requires Concat(a) == Concat(b)
    ensures Feed(a) == Feed(b) <==> AlikeBehindFences(Marks(Concat(a)), Arrivals(a), Arrivals(b))
  {
    hide Feed, Split, Marks, Arrivals, Concat, IsCut;
    var text := Concat(a);
    StreamedIsSplit(a);
    StreamedIsSplit(b);
    SplitExactly(text, Arrivals(a), Arrivals(b));
    ArrivalsBounded(a);
    ArrivalsBounded(b);
    NothingArrived();
    if a != [] && b != [] {
      SameCutsExactly(Marks(text), Arrivals(a), Arrivals(b));
    }
  }

  lemma NothingArrived()
    ensures Concat([]) == "" && Marks("") == []
  {
  }

  /** Chunking does make a difference: a piece that ends with a closing fence line completes a block there. */
  lemma ChunkingsDiffer()
    ensures var a, b := ["```\n```\n", "x"], ["```\n```\nx"]; Concat(a) == Concat(b) && Feed(a) != Feed(b)
  {
    var text := "```\n```\nx";
    var a, b := ["```\n```\n", "x"], [text];
    assert a[..1] == ["```\n```\n"] && a[..1][..0] == [] && b[..0] == [];
    assert "" + "```\n```\n" == "```\n```\n" && "```\n```\n" + "x" == text && "" + text == text;
    assert Concat(a) == text && Concat(b) == text;
    assert Arrivals(a) == {8, 9} && Arrivals(b) == {9};
    ClosedAtEight();
    ChunkingsAgree(a, b);
  }

  lemma ClosedAtEight()
    ensures Marks("```\n```\nx")[7] == FenceEnd
  {
    hide Marks, ScanText, TrimSpace, OpenedBy, Closes;
    var text := "```\n```\nx";
    assert text[..0] == "";
    ScanNothing();
    LineRead(text, 0, 4);
    assert text[0..4] == "```\n" && text[4..8] == "```\n";
    ThreeBackticks();
    LineRead(text, 4, 8);
  }

  lemma ThreeBackticks()
    ensures TrimSpace("```\n") == "```" && OpenedBy("```") == Inside('`', 3) && Closes("```", '`', 3)
  {
    assert "```\n"[..3] == "```" && IsSpace('\n') && !IsSpace('`');
    assert TrimLeft("```\n") == "```\n";
    assert TrimRight("```\n") == TrimRight("```") == "```";
    assert "```"[1..] == "``" && "``"[1..] == "`" && "`"[1..] == "";
    assert MarkerRun("`", '`') == 1 && MarkerRun("``", '`') == 2 && MarkerRun("```", '`') == 3;
    assert "```"[3..] == "" && TrimLeft("") == "" && TrimRight("") == "";
  }

  /** Nothing is lost or reordered, however the text is split. */
  lemma StreamedTextIsWhole(chunks: seq<string>)
    ensures Concat(Feed(chunks).blocks) + Feed(chunks).pending == Concat(chunks)
  {
    hide Feed, Concat, Arrivals, Cuts, Blocks, LastCut;
    StreamedIsSplit(chunks);
    var text := Concat(chunks);
    var cuts := Cuts(text, Arrivals(chunks));
    BlocksJoin(text, cuts, |text|);
    assert text[..LastCut(cuts, |text|)] + text[LastCut(cuts, |text|)..] == text;
  }

  /**
   However a text is split, a block ends after every blank line outside a fence of the whole text; any
   other block ends right after a line that closes a fence, or after one CR behind such a line; and no
   block ends while a fence is open.
   */
  lemma BlockBoundaries(chunks: seq<string>)
    ensures var text, blocks := Concat(chunks), Feed(chunks).blocks;
            && (forall i | 0 <= i < |text| && Marks(text)[i] == BlankEnd ::
                  exists k | 1 <= k <= |blocks| :: |Concat(blocks[..k])| == i + 1)
            && (forall k | 1 <= k <= |blocks| ::
                  var p := |Concat(blocks[..k])|;
                  && 1 <= p <= |text|
                  && (|| Marks(text)[p - 1] == BlankEnd
                      || Marks(text)[p - 1] == FenceEnd
                      || (p >= 2 && Marks(text)[p - 2] == FenceEnd && Marks(text)[p - 1] == CarriageReturn))
                  && ScanText(text[..p]).fence == Outside)
  {
    hide Marks, ScanText, Blocks, LastCut;
    StreamedIsSplit(chunks);
    var text := Concat(chunks);
    var cuts := Cuts(text, Arrivals(chunks));
    var blocks := Feed(chunks).blocks;
    forall i | 0 <= i < |text| && Marks(text)[i] == BlankEnd
      ensures exists k | 1 <= k <= |blocks| :: |Concat(blocks[..k])| == i + 1
    {
      assert IsCut(Marks(text), Arrivals(chunks), i + 1);
      var k := CutsAreBoundaries(text, cuts, |text|, i + 1);
    }
    forall k | 1 <= k <= |blocks|
      ensures 1 <= |Concat(blocks[..k])| <= |text| && IsCut(Marks(text), Arrivals(chunks), |Concat(blocks[..k])|)
      ensures ScanText(text[..|Concat(blocks[..k])|]).fence == Outside
    {
      BoundariesAreCuts(text, cuts, |text|, k - 1);
      AtCut(text, Arrivals(chunks), |Concat(blocks[..k])|);
    }
  }

  // ---------- the streamer ----------

  /** Within a line, nothing is cut unless it begins with the CR behind a closing fence. */
  lemma NoCutWithinLine(text: string, arrivals: set<nat>, a: nat, b: nat)
    requires a <= b <= |text| && forall i | a <= i < b :: text[i] != '\n'
    requires a < b ==> a + 1 !in Cuts(text, arrivals)
    ensures forall p | a < p <= b :: p !in Cuts(text, arrivals)
  {
    hide ScanText;
    forall p | a < p <= b
      ensures p !in Cuts(text, arrivals)
    {
      MarkAt(text, p);
      if p > a + 1 {
        MarkAt(text, p - 1);
      }
    }
  }

  /** How a whole line read at `a` leaves the scan, and what its line feed is. */
  lemma LineRead(text: string, a: nat, b: nat)
    requires a < b <= |text| && text[b - 1] == '\n' && forall i | a <= i < b - 1 :: text[i] != '\n'
    requires ScanText(text[..a]).line == "" || ScanText(text[..a]).line == "\r"
    ensures var fence := ScanText(text[..a]).fence;
            var trimmed := TrimSpace(text[a..b]);
            && ScanText(text[..b]) == Scan(AfterLine(fence, text[a..b]), "")
            && Marks(text)[b - 1] == (if fence == Outside then if trimmed == "" then BlankEnd else LineEnd
                                      else if Closes(trimmed, fence.marker, fence.length) then FenceEnd else LineEnd)
  {
    hide Marks, ScanText, Closes, OpenedBy, TrimSpace, AfterLine, Read, MarkOf;
    var scan := ScanText(text[..a]);
    var body := text[a..b - 1];
    ScanWithinLine(text, a, b - 1);
    ScanAt(text, b);
    MarkAt(text, b);
    WithFeed(scan.line, text, a, b);
    TrimsAlike(scan.line, text[a..b]);
    AfterTrimmed(scan.fence, scan.line + body + "\n", text[a..b]);
    AtLineFeed(Scan(scan.fence, scan.line + body));
  }

  lemma WithFeed(line: string, text: string, a: nat, b: nat)
    requires a < b <= |text| && text[b - 1] == '\n'
    ensures line + text[a..b - 1] + "\n" == line + text[a..b]
  {
    assert text[a..b] == text[a..b - 1] + "\n";
  }

  /** A CR in front of a line makes no difference to it. */
  lemma TrimsAlike(line: string, rest: string)
    requires line == "" || line == "\r"
    ensures TrimSpace(line + rest) == TrimSpace(rest)
  {
    if line == "" {
      assert line + rest == rest;
    } else {
      LeadingCr(rest);
    }
  }

  /** The line feed of a line, for the scan and for the splitter. */
  lemma AtLineFeed(scan: Scan)
    ensures Read(scan, '\n') == Scan(AfterLine(scan.fence, scan.line + "\n"), "")
    ensures var trimmed := TrimSpace(scan.line + "\n");
            MarkOf(scan, '\n') == if scan.fence == Outside then if trimmed == "" then BlankEnd else LineEnd
                                  else if Closes(trimmed, scan.fence.marker, scan.fence.length) then FenceEnd else LineEnd
  {
    hide TrimSpace, Closes, AfterLine;
    assert ['\n'] == "\n";
  }

  lemma AfterTrimmed(fence: Fence, a: string, b: string)
    requires TrimSpace(a) == TrimSpace(b)
    ensures AfterLine(fence, a) == AfterLine(fence, b)
  {
  }

  /** What a pass must know at the start of a line: where the automaton is, and that no CR cut is pending. */
  ghost predicate AtLineStart(text: string, a: nat, fence: Fence) {
    && a <= |text|
    && ScanText(text[..a]).fence == fence
    && (ScanText(text[..a]).line == "" || (ScanText(text[..a]).line == "\r" && fence == Outside))
    && (a < |text| && text[a] != '\n' ==> !IsCut(Marks(text), {|text|}, a + 1))
  }

  /** A whole line of the pending text: whether it ends a block, and where the pass stands after it. */
  lemma LineStep(text: string, a: nat, b: nat, fence: Fence)
    requires AtLineStart(text, a, fence)
    requires a < b <= |text| && text[b - 1] == '\n' && forall i | a <= i < b - 1 :: text[i] != '\n'
    ensures var cuts, trimmed := Cuts(text, {|text|}), TrimSpace(text[a..b]);
            var closes := fence.Inside? && Closes(trimmed, fence.marker, fence.length);
            && (forall p | a < p < b :: p !in cuts)
            && (b in cuts <==> (fence == Outside && trimmed == "") || (closes && b == |text|))
            && (closes <==> Marks(text)[b - 1] == FenceEnd)
            && ScanText(text[..b]) == Scan(AfterLine(fence, text[a..b]), "")
            && ((closes && b < |text| && text[b] == '\r') || AtLineStart(text, b, AfterLine(fence, text[a..b])))
            && (trimmed == "" ==> OpenedBy(trimmed) == Outside)
  {
    hide Marks, ScanText, Closes, TrimSpace;
    LineRead(text, a, b);
    NoCutWithinLine(text, {|text|}, a, b - 1);
    if b < |text| {
      MarkAt(text, b + 1);
    }
  }

  lemma BlankLines()
    ensures TrimSpace("" + "\n") == "" && TrimSpace("\r" + "\n") == ""
  {
    hide TrimSpace;
    assert "" + "\n" == "\n";
    LineFeedBlank();
    LeadingCr("\n");
  }

  lemma LineFeedBlank()
    ensures TrimSpace("\n") == ""
  {
    hide TrimLeft, TrimRight;
    TrimOne('\n');
    assert "\n" == ['\n'];
  }

  lemma TrimOne(c: char)
    requires IsSpace(c)
    ensures TrimLeft([c]) == "" && TrimRight("") == ""
  {
    hide IsSpace;
    assert [c][1..] == "";
  }

  /** The marks of the two characters behind a closing fence. */
  lemma BehindFence(text: string, b: nat)
    requires 1 <= b < |text| && Marks(text)[b - 1] == FenceEnd
    ensures text[b] == '\n' ==> Marks(text)[b] == BlankEnd
    ensures text[b] == '\r' ==> Marks(text)[b] == CarriageReturn && ScanText(text[..b + 1]) == Scan(Outside, "\r")
    ensures text[b] == '\r' && b + 1 < |text| ==>
              (text[b + 1] == '\n' <==> EndsLine(Marks(text)[b + 1])) && (text[b + 1] == '\n' ==> Marks(text)[b + 1] == BlankEnd)
  {
    hide Marks, ScanText, Closes, OpenedBy, TrimSpace;
    BlankLines();
    AfterEnd(text, b);
    MarkAt(text, b + 1);
    ScanAt(text, b + 1);
    assert text[b] == '\r' ==> "" + [text[b]] == "\r";
    if b + 1 < |text| {
      MarkAt(text, b + 2);
    }
  }

  lemma AfterBlank(text: string, n: nat)
    requires 1 <= n <= |text| && Marks(text)[n - 1] == BlankEnd
    ensures IsCut(Marks(text), {|text|}, n) && AtLineStart(text, n, Outside)
  {
    hide Marks, ScanText, TrimSpace;
    AfterEnd(text, n);
    if n < |text| {
      MarkAt(text, n + 1);
    }
  }

  lemma AfterLoneCr(text: string, b: nat)
    requires 1 <= b < |text| && Marks(text)[b - 1] == FenceEnd && text[b] == '\r' && (b + 1 < |text| ==> text[b + 1] != '\n')
    ensures IsCut(Marks(text), {|text|}, b + 1) && AtLineStart(text, b + 1, Outside)
  {
    hide Marks, ScanText, TrimSpace;
    BehindFence(text, b);
    if b + 1 < |text| {
      MarkAt(text, b + 2);
    }
  }

  lemma NotYetCut(text: string, b: nat)
    requires 1 <= b < |text| && Marks(text)[b - 1] == FenceEnd
    ensures !IsCut(Marks(text), {|text|}, b)
    ensures b + 1 < |text| && text[b] == '\r' && text[b + 1] == '\n' ==> !IsCut(Marks(text), {|text|}, b + 1)
  {
    hide Marks, ScanText;
    BehindFence(text, b);
  }

  lemma StartsWithCrLf(text: string)
    ensures HasPrefix(text, "\r\n") <==> |text| >= 2 && text[0] == '\r' && text[1] == '\n'
  {
  }

  /** Behind a closing fence, a blank line or a lone CR goes with the block. */
  lemma ClosingStep(text: string, b: nat)
    requires 1 <= b < |text| && Marks(text)[b - 1] == FenceEnd && (text[b] == '\n' || text[b] == '\r')
    ensures var n := b + if HasPrefix(text[b..], "\r\n") then 2 else 1;
            && n <= |text| && n in Cuts(text, {|text|}) && (forall p | b <= p < n :: p !in Cuts(text, {|text|}))
            && AtLineStart(text, n, Outside)
  {
    hide Marks, ScanText, AtLineStart, IsCut, HasPrefix, Cuts;
    StartsWithCrLf(text[b..]);
    BehindFence(text, b);
    NotYetCut(text, b);
    if text[b] == '\n' {
      AfterBlank(text, b + 1);
    } else if b + 1 < |text| && text[b + 1] == '\n' {
      AfterBlank(text, b + 2);
    } else {
      AfterLoneCr(text, b);
    }
  }

  lemma StartOfPass(text: string)
    ensures AtLineStart(text, 0, Outside)
    ensures Blocks(text, Cuts(text, {|text|}), 0) == [] && LastCut(Cuts(text, {|text|}), 0) == 0
  {
    hide Marks, TrimSpace, Closes;
    assert text[..0] == "";
    if text != "" {
      MarkAt(text, 1);
    }
  }

  lemma PassOver(text: string, cuts: set<nat>, a: nat, b: nat)
    requires a < b <= |text| && forall p | a < p < b :: p !in cuts
    ensures b in cuts ==> Blocks(text, cuts, b) == Blocks(text, cuts, a) + [text[LastCut(cuts, a)..b]] && LastCut(cuts, b) == b
    ensures b !in cuts ==> Blocks(text, cuts, b) == Blocks(text, cuts, a) && LastCut(cuts, b) == LastCut(cuts, a)
  {
    if b in cuts {
      BlocksNext(text, cuts, a, b);
    } else {
      BlocksStay(text, cuts, a, b);
    }
  }

  /** An incomplete last line is never cut. */
  lemma RestOfPass(text: string, a: nat, fence: Fence)
    requires AtLineStart(text, a, fence) && forall i | a <= i < |text| :: text[i] != '\n'
    ensures var cuts := Cuts(text, {|text|});
            Blocks(text, cuts, |text|) == Blocks(text, cuts, a) && LastCut(cuts, |text|) == LastCut(cuts, a)
  {
    hide Marks, ScanText, Blocks, LastCut;
    NoCutWithinLine(text, {|text|}, a, |text|);
    BlocksStay(text, Cuts(text, {|text|}), a, |text|);
  }

  class BlockStreamer {
    var full: string
    var pending: string
    var flushed: bool

    constructor ()
      ensures full == "" && pending == "" && !flushed
    {
      full, pending, flushed := "", "", false;
    }

    /** Emits the blocks that the pending text now completes. */
    method Add(delta: string) returns (blocks: seq<string>)
      modifies this
      ensures full == old(full) + delta
      ensures delta == "" ==> blocks == [] && pending == old(pending) && flushed == old(flushed)
      ensures delta != "" ==> Fed(blocks, pending) == Pass(old(pending) + delta) && !flushed
    {
      if delta == "" {
        assert full + delta == full;
        return [];
      }
      flushed := false;
      full := full + delta;
      pending := pending + delta;
      blocks := CompletedBlocks(false);
    }

    /** Emits everything still pending, once. */
    method Flush() returns (blocks: seq<string>)
      modifies this
      ensures full == old(full) && flushed
      ensures old(flushed) ==> blocks == [] && pending == old(pending)
      ensures !old(flushed) ==> Concat(blocks) == old(pending) && pending == ""
      ensures !old(flushed) ==>
                var pass := Pass(old(pending));
                blocks == pass.blocks + if pass.pending == "" then [] else [pass.pending]
    {
      blocks := CompletedBlocks(true);
    }

    method CompletedBlocks(final: bool) returns (blocks: seq<string>)
      modifies this
      ensures full == old(full)
      ensures flushed == (old(flushed) || final)
      ensures old(flushed) && final ==> blocks == [] && pending == old(pending)
      ensures !final ==> Fed(blocks, pending) == Pass(old(pending))
      ensures final && !old(flushed) ==>
                var pass := Pass(old(pending));
                pending == "" && Concat(blocks) == old(pending)
                && blocks == pass.blocks + if pass.pending == "" then [] else [pass.pending]
    {
      hide Pass, Concat, LastCut;
      if flushed && final {
        return [];
      }
      var text := pending;
      var blockStart;
      blocks, blockStart := CompleteIn(text);
      PassJoins(text);
      assert text[0..] == text;
      if final && blockStart < |text| {
        ConcatSnoc(blocks, text[blockStart..]);
        blocks := blocks + [text[blockStart..]];
        blockStart := |text|;
      }
      if blockStart > 0 {
        pending := text[blockStart..];
      }
      if final && |pending| == 0 {
        flushed := true;
      }
    }

    /** The scan over a pending text: its complete blocks, and where the incomplete one starts. */
    static method CompleteIn(text: string) returns (blocks: seq<string>, blockStart: nat)
      ensures blockStart <= |text| && Fed(blocks, text[blockStart..]) == Pass(text)
      ensures blockStart == LastCut(Cuts(text, {|text|}), |text|)
    {
      hide Marks, ScanText, Closes, OpenedBy, TrimSpace, Blocks, LastCut, IsCut, AtLineStart, HasPrefix, Cuts, Concat;
      StartOfPass(text);
      ghost var cuts := Cuts(text, {|text|});
      blocks := [];
      blockStart := 0;
      var lineStart := 0;
      var fence := Outside;
      while lineStart < |text|
        invariant 0 <= lineStart <= |text|
        invariant blocks == Blocks(text, cuts, lineStart) && blockStart == LastCut(cuts, lineStart)
        invariant AtLineStart(text, lineStart, fence)
      {
        var lineEnd := IndexChar(text[lineStart..], '\n');
        if lineEnd < 0 {
          break;
        }
        lineEnd := lineEnd + lineStart + 1;
        LineStep(text, lineStart, lineEnd, fence);
        PassOver(text, cuts, lineStart, lineEnd);
        var trimmed := TrimSpace(text[lineStart..lineEnd]);
        if fence.Inside? {
          if Closes(trimmed, fence.marker, fence.length) {
            fence := Outside;
            if lineEnd < |text| && (text[lineEnd] == '\n' || text[lineEnd] == '\r') {
              var nextLineEnd := lineEnd + if HasPrefix(text[lineEnd..], "\r\n") then 2 else 1;
              ClosingStep(text, lineEnd);
              BlocksNext(text, cuts, lineStart, nextLineEnd);
              blocks := blocks + [text[blockStart..nextLineEnd]];
              blockStart := nextLineEnd;
              lineStart := nextLineEnd;
              continue;
            }
            if lineEnd == |text| {
              blocks := blocks + [text[blockStart..lineEnd]];
              blockStart := lineEnd;
            }
            lineStart := lineEnd;
            continue;
          }
          lineStart := lineEnd;
          continue;
        }
        var nextFence := OpenedBy(trimmed);
        if nextFence.Inside? {
          fence := nextFence;
          lineStart := lineEnd;
          continue;
        }
        if trimmed == "" {
          blocks := blocks + [text[blockStart..lineEnd]];
          blockStart := lineEnd;
        }
        lineStart := lineEnd;
      }
      RestOfPass(text, lineStart, fence);
    }
  }
  /** What is pending holds no cut of its own, wherever the pieces before it ended. */
  lemma NoCutPending(marks: seq<Mark>, arrivals: set<nat>, base: nat, q: nat)
    requires base <= |marks| && (|marks| in arrivals || marks == []) && 1 <= q <= |marks| - base
    requires forall p | base < p <= |marks| :: !IsCut(marks, arrivals, p)
    ensures !IsCut(marks[base..], {|marks| - base}, q)
  {
    assert !IsCut(marks, arrivals, base + q);
    if q >= 2 {
      assert !IsCut(marks, arrivals, base + q - 1);
    }
  }

  lemma RestStays(text: string, arrivals: set<nat>)
    requires |text| in arrivals || text == ""
    ensures var pending := Split(text, arrivals).pending; Pass(pending) == Fed([], pending)
  {
    hide Marks, IsCut, Blocks, LastCut;
    var cuts := Cuts(text, arrivals);
    var base := LastCut(cuts, |text|);
    var pending := text[base..];
    assert text + "" == text;
    PendingMarks(text, arrivals, base, "");
    forall q | 1 <= q <= |pending|
      ensures q !in Cuts(pending, {|pending|})
    {
      NoCutPending(Marks(text), arrivals, base, q);
    }
    BlocksStay(pending, Cuts(pending, {|pending|}), 0, |pending|);
    BlocksUnfold(pending, Cuts(pending, {|pending|}), 0);
    NoCutYet(Cuts(pending, {|pending|}));
    assert pending[0..] == pending;
  }

  lemma NoCutYet(cuts: set<nat>)
    ensures LastCut(cuts, 0) == 0
  {
  }

  /** Everything a text emits while it is added piece by piece, and the streamer that still holds the rest. */
  method AddAll(chunks: seq<string>) returns (blocks: seq<string>, streamer: BlockStreamer)
    ensures fresh(streamer) && Fed(blocks, streamer.pending) == Feed(chunks) && streamer.full == Concat(chunks) && !streamer.flushed
    ensures Fed(blocks, streamer.pending) == Split(Concat(chunks), Arrivals(chunks))
  {
    hide Pass, Split, Arrivals;
    streamer := new BlockStreamer();
    blocks := [];
    NothingFed();
    for i := 0 to |chunks|
      invariant fresh(streamer) && Fed(blocks, streamer.pending) == Feed(chunks[..i]) && streamer.full == Concat(chunks[..i]) && !streamer.flushed
    {
      assert chunks[..i + 1] == chunks[..i] + [chunks[i]];
      FeedSnoc(chunks[..i], chunks[i]);
      ConcatSnoc(chunks[..i], chunks[i]);
      var more := streamer.Add(chunks[i]);
      blocks := blocks + more;
    }
    assert chunks[..|chunks|] == chunks;
    StreamedIsSplit(chunks);
  }

  /** A whole text, piece by piece and flushed: its blocks are the text, cut where the automaton says, and the rest as one more block. */
  method StreamAll(chunks: seq<string>) returns (blocks: seq<string>)
    ensures Concat(blocks) == Concat(chunks)
    ensures var split := Split(Concat(chunks), Arrivals(chunks));
            blocks == split.blocks + if split.pending == "" then [] else [split.pending]
  {
    hide Pass, Split, Arrivals, Feed;
    var streamer;
    blocks, streamer := AddAll(chunks);
    StreamedTextIsWhole(chunks);
    StreamedIsSplit(chunks);
    ArrivalsBounded(chunks);
    NothingFed();
    RestStays(Concat(chunks), Arrivals(chunks));
    var rest := streamer.Flush();
    assert [] + rest == rest;
    ConcatAppend(blocks, rest);
    blocks := blocks + rest;
  }
}
