/** Protecting math delimiters from the markdown renderer, and putting them back. */
module MathDelimiters {
  import opened Strings

  /** `strings.ReplaceAll` for a non-empty pattern. */
  function ReplaceAll(s: string, from: string, to: string): string
    requires from != ""
  {
    if |s| < |from| then s
    else if from <= s then to + ReplaceAll(s[|from|..], from, to)
    else [s[0]] + ReplaceAll(s[1..], from, to)
  }

  datatype Replacement = Replacement(raw: string, protected: string)

  const REPLACEMENTS: seq<Replacement> := [
    Replacement("\\(", "PYTTECHAT_MATH_INLINE_OPEN"),
    Replacement("\\)", "PYTTECHAT_MATH_INLINE_CLOSE"),
    Replacement("\\[", "PYTTECHAT_MATH_BLOCK_OPEN"),
    Replacement("\\]", "PYTTECHAT_MATH_BLOCK_CLOSE")]

  function ProtectFrom(s: string, k: nat): string
    requires k <= |REPLACEMENTS|
    decreases |REPLACEMENTS| - k
  {
    if k == |REPLACEMENTS| then s
    else ProtectFrom(ReplaceAll(s, REPLACEMENTS[k].raw, REPLACEMENTS[k].protected), k + 1)
  }

  function RestoreFrom(s: string, k: nat): string
    requires k <= |REPLACEMENTS|
    decreases |REPLACEMENTS| - k
  {
    if k == |REPLACEMENTS| then s
    else RestoreFrom(ReplaceAll(s, REPLACEMENTS[k].protected, REPLACEMENTS[k].raw), k + 1)
  }

  // ---------- general facts about replacement ----------

  /** Neither string starts with the other. */
  predicate Clash(u: string, v: string) {
    u <= v || v <= u
  }

  /** No occurrence of `v` can begin inside `u`, whatever follows. */
  predicate Apart(u: string, v: string) {
    forall i | 0 <= i < |u| :: !Clash(u[i..], v)
  }

  /** `v` does not overlap a later copy of itself. */
  predicate Borderless(v: string) {
    forall i | 1 <= i < |v| :: !Clash(v[i..], v)
  }

  lemma PrefixClashes(u: string, v: string, from: string)
    ensures from <= u + v ==> Clash(u, from)
  {
    assert from <= u + v && |from| <= |u| ==> from == (u + v)[..|from|] == u[..|from|];
    assert from <= u + v && |from| > |u| ==> u == (u + v)[..|u|] == from[..|u|];
  }

  lemma {:induction false} PassThrough(u: string, v: string, from: string, to: string)
    requires from != "" && Apart(u, from)
    ensures ReplaceAll(u + v, from, to) == u + ReplaceAll(v, from, to)
  {
    hide ReplaceAll;
    if u == "" {
      assert u + v == v && u + ReplaceAll(v, from, to) == ReplaceAll(v, from, to);
    } else {
      assert u[0..] == u;
      PrefixClashes(u, v, from);
      StillApart(u, from);
      hide Clash, Apart;
      PassThrough(u[1..], v, from, to);
      PassOne(u + v, from, to);
      assert (u + v)[1..] == u[1..] + v;
      assert [u[0]] + (u[1..] + ReplaceAll(v, from, to)) == u + ReplaceAll(v, from, to);
    }
  }

  lemma StillApart(u: string, v: string)
    requires u != "" && Apart(u, v)
    ensures Apart(u[1..], v)
  {
    forall i | 0 <= i < |u| - 1
      ensures !Clash(u[1..][i..], v)
    {
      assert u[1..][i..] == u[i + 1..];
    }
  }

  /** A string that does not start with an occurrence passes its first character on. */
  lemma PassOne(s: string, from: string, to: string)
    requires from != "" && s != "" && !(from <= s)
    ensures ReplaceAll(s, from, to) == [s[0]] + ReplaceAll(s[1..], from, to)
  {
    if |s| < |from| {
      ShorterUnchanged(s[1..], from, to);
    }
  }

  lemma ShorterUnchanged(s: string, from: string, to: string)
    requires from != "" && |s| < |from|
    ensures ReplaceAll(s, from, to) == s
  {
  }

  /** Replacing `from` by `to` cannot complete an occurrence of `other` that was begun before. */
  lemma {:induction false} NoNewPrefix(w: string, s: string, from: string, to: string, other: string)
    requires from != "" && w != "" && forall i | 1 <= i < |other| :: !Clash(other[i..], to)
    ensures other <= w + ReplaceAll(s, from, to) ==> other <= w + s
    decreases |s|
  {
    if |other| <= |w| || |s| < |from| {
      assert |other| <= |w| ==> (w + ReplaceAll(s, from, to))[..|other|] == w[..|other|] == (w + s)[..|other|];
    } else if from <= s {
      var rest := ReplaceAll(s[|from|..], from, to);
      assert w + (to + rest) == w + to + rest;
      if other <= w + to + rest {
        assert other[|w|..] <= to + rest;
        PrefixClashes(to, rest, other[|w|..]);
        assert Clash(other[|w|..], to);
      }
    } else {
      assert w + ([s[0]] + ReplaceAll(s[1..], from, to)) == w + [s[0]] + ReplaceAll(s[1..], from, to);
      NoNewPrefix(w + [s[0]], s[1..], from, to, other);
      assert w + [s[0]] + s[1..] == w + s;
    }
  }

  /** Two replacements whose strings keep clear of each other can be made in either order. */
  lemma {:induction false} Commute(s: string, a: string, b: string, c: string, d: string)
    requires a != "" && c != "" && Apart(a, c) && Apart(c, a) && Apart(b, c) && Apart(c, b) && Apart(d, a) && Apart(a, d)
    ensures ReplaceAll(ReplaceAll(s, a, b), c, d) == ReplaceAll(ReplaceAll(s, c, d), a, b)
    decreases |s|
  {
    if s == "" {
    } else if a <= s {
      var rest := s[|a|..];
      assert s == a + rest;
      Commute(rest, a, b, c, d);
      PassThrough(a, rest, c, d);
      PassThrough(b, ReplaceAll(rest, a, b), c, d);
      ReplaceHead(a, ReplaceAll(rest, c, d), b);
      ReplaceHead(a, rest, b);
    } else if c <= s {
      var rest := s[|c|..];
      assert s == c + rest;
      Commute(rest, a, b, c, d);
      PassThrough(c, rest, a, b);
      PassThrough(d, ReplaceAll(rest, c, d), a, b);
      ReplaceHead(c, ReplaceAll(rest, a, b), d);
      ReplaceHead(c, rest, d);
    } else {
      Commute(s[1..], a, b, c, d);
      StepOver(s, a, b, c, d);
      StepOver(s, c, d, a, b);
    }
  }

  lemma ReplaceHead(from: string, rest: string, to: string)
    requires from != ""
    ensures ReplaceAll(from + rest, from, to) == to + ReplaceAll(rest, from, to)
  {
    assert (from + rest)[|from|..] == rest;
  }

  lemma StepOver(s: string, a: string, b: string, c: string, d: string)
    requires a != "" && c != "" && s != "" && !(a <= s) && !(c <= s) && Apart(c, b)
    ensures ReplaceAll(ReplaceAll(s, a, b), c, d) == [s[0]] + ReplaceAll(ReplaceAll(s[1..], a, b), c, d)
  {
    var tail := ReplaceAll(s[1..], a, b);
    if |s| < |a| {
      ShorterUnchanged(s[1..], a, b);
    }
    assert ReplaceAll(s, a, b) == [s[0]] + tail;
    NoNewPrefix([s[0]], s[1..], a, b, c);
    assert [s[0]] + s[1..] == s;
    assert ([s[0]] + tail)[1..] == tail;
    if |[s[0]] + tail| < |c| {
      ShorterUnchanged(tail, c, d);
    }
  }

  /** Protecting and then restoring one delimiter is the same as only restoring it. */
  lemma {:induction false} ThereAndBack(s: string, a: string, b: string)
    requires a != "" && b != "" && Apart(a, b) && Apart(b, a) && Borderless(b)
    ensures ReplaceAll(ReplaceAll(s, a, b), b, a) == ReplaceAll(s, b, a)
    decreases |s|
  {
    if s == "" {
    } else if a <= s {
      var rest := s[|a|..];
      assert s == a + rest;
      ThereAndBack(rest, a, b);
      ReplaceHead(a, rest, b);
      ReplaceHead(b, ReplaceAll(rest, a, b), a);
      PassThrough(a, rest, b, a);
    } else if b <= s {
      var rest := s[|b|..];
      assert s == b + rest;
      ThereAndBack(rest, a, b);
      PassThrough(b, rest, a, b);
      ReplaceHead(b, ReplaceAll(rest, a, b), a);
      ReplaceHead(b, rest, a);
    } else {
      ThereAndBack(s[1..], a, b);
      var tail := ReplaceAll(s[1..], a, b);
      if |s| < |a| {
        ShorterUnchanged(s[1..], a, b);
      }
      assert ReplaceAll(s, a, b) == [s[0]] + tail;
      NoNewPrefix([s[0]], s[1..], a, b, b);
      assert [s[0]] + s[1..] == s;
      assert ([s[0]] + tail)[1..] == tail;
      if |[s[0]] + tail| < |b| {
        ShorterUnchanged(tail, b, a);
      }
      if |s| < |b| {
        ShorterUnchanged(s[1..], b, a);
      }
    }
  }

  /** A shortening replacement changes a string exactly when there is something to replace. */
  lemma {:induction false} Shortens(s: string, from: string, to: string)
    requires |to| < |from|
    ensures |ReplaceAll(s, from, to)| <= |s|
    ensures Contains(s, from) ==> |ReplaceAll(s, from, to)| < |s|
    ensures !Contains(s, from) ==> ReplaceAll(s, from, to) == s
    decreases |s|
  {
    if |s| < |from| {
    } else if from <= s {
      Shortens(s[|from|..], from, to);
    } else {
      Shortens(s[1..], from, to);
    }
  }

  // ---------- the table ----------

  lemma DiffersAt(u: string, v: string, k: nat)
    requires k < |u| && k < |v| && u[k] != v[k]
    ensures !Clash(u, v)
  {
  }

  /** A token starts with `PY`; any later `P` in it is followed by an `E`, and it has no backslash. */
  predicate TokenShape(t: string) {
    && |t| >= 2 && t[0] == 'P' && t[1] == 'Y'
    && forall i | 1 <= i < |t| :: t[i] != '\\' && EBehindP(t, i)
  }

  predicate EBehindP(t: string, i: nat)
    requires i < |t|
  {
    t[i] == 'P' ==> i + 1 < |t| && t[i + 1] == 'E'
  }

  lemma LaterP(t: string, i: nat)
    requires TokenShape(t) && 1 <= i < |t| && t[i] == 'P'
    ensures |t[i..]| >= 2 && t[i..][1] == 'E'
  {
    assert EBehindP(t, i);
  }

  lemma InlineShapes()
    ensures TokenShape("PYTTECHAT_MATH_INLINE_OPEN")
    ensures TokenShape("PYTTECHAT_MATH_INLINE_CLOSE")
  {
  }

  lemma BlockShapes()
    ensures TokenShape("PYTTECHAT_MATH_BLOCK_OPEN")
    ensures TokenShape("PYTTECHAT_MATH_BLOCK_CLOSE")
  {
  }

  lemma TokenShapes()
    ensures forall k | 0 <= k < |REPLACEMENTS| :: TokenShape(REPLACEMENTS[k].protected)
  {
    hide TokenShape;
    InlineShapes();
    BlockShapes();
  }

  predicate RawShape(r: string) {
    |r| == 2 && r[0] == '\\' && r[1] != '\\' && r[1] != 'P'
  }

  lemma {:induction false} TokenApart(t: string, v: string)
    requires TokenShape(t) && (RawShape(v) || (TokenShape(v) && !Clash(t, v)))
    ensures Apart(t, v)
  {
    forall i | 0 <= i < |t|
      ensures !Clash(t[i..], v)
    {
      if i == 0 {
        assert t[0..] == t;
        if RawShape(v) {
          DiffersAt(t, v, 0);
        }
      } else if t[i] != v[0] {
        DiffersAt(t[i..], v, 0);
      } else {
        LaterP(t, i);
        DiffersAt(t[i..], v, 1);
      }
    }
  }

  lemma TokenBorderless(t: string)
    requires TokenShape(t)
    ensures Borderless(t)
  {
    forall i | 1 <= i < |t|
      ensures !Clash(t[i..], t)
    {
      if t[i] != 'P' {
        DiffersAt(t[i..], t, 0);
      } else {
        LaterP(t, i);
        DiffersAt(t[i..], t, 1);
      }
    }
  }

  lemma RawApart(r: string, v: string)
    requires RawShape(r) && (TokenShape(v) || (RawShape(v) && r != v))
    ensures Apart(r, v)
  {
    assert r[0..] == r;
    DiffersAt(r[1..], v, 0);
    if TokenShape(v) {
      DiffersAt(r, v, 0);
    } else {
      DiffersAt(r, v, 1);
    }
  }

  lemma TokensDiffer(j: nat, k: nat)
    requires j < |REPLACEMENTS| && k < |REPLACEMENTS| && j != k
    ensures !Clash(REPLACEMENTS[j].protected, REPLACEMENTS[k].protected)
    ensures REPLACEMENTS[j].raw != REPLACEMENTS[k].raw
  {
    var u, v := REPLACEMENTS[j].protected, REPLACEMENTS[k].protected;
    if j / 2 != k / 2 {
      DiffersAt(u, v, 15);
    } else {
      DiffersAt(u, v, if j / 2 == 0 then 22 else 21);
    }
  }

  /** The four rows of the table do not interfere with one another, and each undoes itself. */
  lemma TableApart(j: nat, k: nat)
    requires j < |REPLACEMENTS| && k < |REPLACEMENTS|
    ensures var a, b := REPLACEMENTS[j], REPLACEMENTS[k];
            && Apart(a.raw, b.protected) && Apart(a.protected, b.raw) && Borderless(a.protected)
            && |a.raw| < |a.protected| && a.raw != ""
            && (j != k ==> Apart(a.raw, b.raw) && Apart(a.protected, b.protected))
  {
    TokenShapes();
    var a, b := REPLACEMENTS[j], REPLACEMENTS[k];
    assert RawShape(a.raw) && RawShape(b.raw);
    RawApart(a.raw, b.protected);
    TokenApart(a.protected, b.raw);
    TokenBorderless(a.protected);
    if j != k {
      TokensDiffer(j, k);
      RawApart(a.raw, b.raw);
      TokenApart(a.protected, b.protected);
    }
  }

  // ---------- the round trip ----------

  /** Restoring one row commutes with protecting all later rows. */
  lemma {:induction false} RestoreCommutes(s: string, k: nat, m: nat)
    requires k < m <= |REPLACEMENTS|
    ensures var r := REPLACEMENTS[k];
            r.protected != "" && ReplaceAll(ProtectFrom(s, m), r.protected, r.raw) == ProtectFrom(ReplaceAll(s, r.protected, r.raw), m)
    decreases |REPLACEMENTS| - m
  {
    hide ReplaceAll, Apart, Borderless;
    TableApart(k, k);
    if m < |REPLACEMENTS| {
      TableApart(k, m);
      TableApart(m, k);
      var r, p := REPLACEMENTS[k], REPLACEMENTS[m];
      RestoreCommutes(ReplaceAll(s, p.raw, p.protected), k, m + 1);
      Commute(s, p.raw, p.protected, r.protected, r.raw);
    }
  }

  lemma {:induction false} RestoreAfterProtect(s: string, k: nat)
    requires k <= |REPLACEMENTS|
    ensures RestoreFrom(ProtectFrom(s, k), k) == RestoreFrom(s, k)
    decreases |REPLACEMENTS| - k
  {
    hide ReplaceAll, Apart, Borderless;
    if k < |REPLACEMENTS| {
      TableApart(k, k);
      var r := REPLACEMENTS[k];
      var once := ReplaceAll(s, r.raw, r.protected);
      RestoreCommutes(once, k, k + 1);
      ThereAndBack(s, r.raw, r.protected);
      RestoreAfterProtect(ReplaceAll(once, r.protected, r.raw), k + 1);
      RestoreAfterProtect(ReplaceAll(s, r.protected, r.raw), k + 1);
    }
  }

  lemma {:induction false} RestoreUnchanged(s: string, k: nat)
    requires k <= |REPLACEMENTS|
    ensures |RestoreFrom(s, k)| <= |s|
    ensures RestoreFrom(s, k) == s <==> forall j | k <= j < |REPLACEMENTS| :: !Contains(s, REPLACEMENTS[j].protected)
    decreases |REPLACEMENTS| - k
  {
    hide ReplaceAll, Contains;
    if k < |REPLACEMENTS| {
      TableApart(k, k);
      var r := REPLACEMENTS[k];
      Shortens(s, r.protected, r.raw);
      RestoreUnchanged(ReplaceAll(s, r.protected, r.raw), k + 1);
    }
  }

  /** `protectMathDelimiters` */
  method ProtectMathDelimiters(input: string) returns (output: string)
    ensures output == ProtectFrom(input, 0)
  {
    output := input;
    for k := 0 to |REPLACEMENTS|
      invariant ProtectFrom(output, k) == ProtectFrom(input, 0)
    {
      output := ReplaceAll(output, REPLACEMENTS[k].raw, REPLACEMENTS[k].protected);
    }
  }

  /** `restoreMathDelimiters` */
  method RestoreMathDelimiters(input: string) returns (output: string)
    ensures output == RestoreFrom(input, 0)
  {
    output := input;
    for k := 0 to |REPLACEMENTS|
      invariant RestoreFrom(output, k) == RestoreFrom(input, 0)
    {
      output := ReplaceAll(output, REPLACEMENTS[k].protected, REPLACEMENTS[k].raw);
    }
  }

  /**
   Restoring what was protected gives the text back exactly when the text contains none of the four
   placeholder tokens; whatever else it contains, protecting makes no difference to what restoring yields.
   */
  lemma MathRoundTrip(input: string)
    ensures RestoreFrom(ProtectFrom(input, 0), 0) == RestoreFrom(input, 0)
    ensures RestoreFrom(ProtectFrom(input, 0), 0) == input <==>
            forall k | 0 <= k < |REPLACEMENTS| :: !Contains(input, REPLACEMENTS[k].protected)
  {
    RestoreAfterProtect(input, 0);
    RestoreUnchanged(input, 0);
  }

  // ---------- delimiter by delimiter ----------

  /** No occurrence of `from` that begins before a copy of `x` reaches into it. */
  predicate KeepsOut(from: string, x: string) {
    forall i | 1 <= i < |from| :: !Clash(from[i..], x)
  }

  lemma {:induction false} SplitReplace(u: string, x: string, v: string, from: string, to: string)
    requires from != "" && KeepsOut(from, x)
    ensures ReplaceAll(u + (x + v), from, to) == ReplaceAll(u, from, to) + ReplaceAll(x + v, from, to)
    decreases |u|
  {
    hide ReplaceAll, KeepsOut;
    var w := x + v;
    if u == "" {
      ShorterUnchanged(u, from, to);
      assert u + w == w && "" + ReplaceAll(w, from, to) == ReplaceAll(w, from, to);
    } else {
      StaysOut(u, x, v, from);
      if from <= u {
        var rest := u[|from|..];
        assert u == from + rest && u + w == from + (rest + w);
        ReplaceHead(from, rest, to);
        ReplaceHead(from, rest + w, to);
        SplitReplace(rest, x, v, from, to);
        assert to + (ReplaceAll(rest, from, to) + ReplaceAll(w, from, to)) == to + ReplaceAll(rest, from, to) + ReplaceAll(w, from, to);
      } else {
        PassOne(u, from, to);
        PassOne(u + w, from, to);
        assert (u + w)[1..] == u[1..] + w;
        SplitReplace(u[1..], x, v, from, to);
        assert [u[0]] + (ReplaceAll(u[1..], from, to) + ReplaceAll(w, from, to)) == [u[0]] + ReplaceAll(u[1..], from, to) + ReplaceAll(w, from, to);
      }
    }
  }

  lemma StaysOut(u: string, x: string, v: string, from: string)
    requires u != "" && KeepsOut(from, x)
    ensures from <= u + (x + v) <==> from <= u
  {
    var n := |u|;
    if n < |from| {
      if from <= u + (x + v) {
        assert from[n..] == (u + (x + v))[n..|from|] == (x + v)[..|from| - n];
        PrefixClashes(x, v, from[n..]);
      }
    } else {
      assert (u + (x + v))[..|from|] == u[..|from|];
    }
  }

  /** Around a copy of `x` both sides are replaced on their own; `x` itself is replaced, or kept. */
  lemma Around(u: string, x: string, y: string, v: string, from: string, to: string)
    requires from != "" && KeepsOut(from, x) && ((x == from && y == to) || (Apart(x, from) && x == y))
    ensures ReplaceAll(u + (x + v), from, to) == ReplaceAll(u, from, to) + (y + ReplaceAll(v, from, to))
  {
    hide ReplaceAll, KeepsOut, Apart;
    SplitReplace(u, x, v, from, to);
    if x == from && y == to {
      ReplaceHead(from, v, to);
    } else {
      PassThrough(x, v, from, to);
    }
  }

  lemma RowsKeepOut(j: nat, k: nat)
    requires j < |REPLACEMENTS| && k < |REPLACEMENTS|
    ensures var a, b := REPLACEMENTS[j], REPLACEMENTS[k];
            KeepsOut(a.raw, b.raw) && KeepsOut(a.raw, b.protected) && KeepsOut(a.protected, b.raw) && KeepsOut(a.protected, b.protected)
  {
    hide Clash;
    var a, b := REPLACEMENTS[j], REPLACEMENTS[k];
    TableApart(j, k);
    if j == k {
      assert RawShape(a.raw);
      DiffersAt(a.raw[1..], a.raw, 0);
    }
  }

  lemma {:induction false} ProtectAround(u: string, j: nat, v: string, k: nat)
    requires j < |REPLACEMENTS| && k <= |REPLACEMENTS|
    ensures var r := REPLACEMENTS[j];
            ProtectFrom(u + ((if k <= j then r.raw else r.protected) + v), k) == ProtectFrom(u, k) + (r.protected + ProtectFrom(v, k))
    decreases |REPLACEMENTS| - k
  {
    hide ReplaceAll, Apart, Borderless, KeepsOut;
    if k < |REPLACEMENTS| {
      var r, row := REPLACEMENTS[j], REPLACEMENTS[k];
      RowsKeepOut(k, j);
      TableApart(j, k);
      Around(u, if k <= j then r.raw else r.protected, if k < j then r.raw else r.protected, v, row.raw, row.protected);
      ProtectAround(ReplaceAll(u, row.raw, row.protected), j, ReplaceAll(v, row.raw, row.protected), k + 1);
    }
  }

  lemma {:induction false} RestoreAround(u: string, j: nat, v: string, k: nat)
    requires j < |REPLACEMENTS| && k <= |REPLACEMENTS|
    ensures var r := REPLACEMENTS[j];
            RestoreFrom(u + ((if k <= j then r.protected else r.raw) + v), k) == RestoreFrom(u, k) + (r.raw + RestoreFrom(v, k))
    decreases |REPLACEMENTS| - k
  {
    hide ReplaceAll, Apart, Borderless, KeepsOut;
    if k < |REPLACEMENTS| {
      var r, row := REPLACEMENTS[j], REPLACEMENTS[k];
      RowsKeepOut(k, j);
      TableApart(k, k);
      TableApart(j, k);
      Around(u, if k <= j then r.protected else r.raw, if k < j then r.protected else r.raw, v, row.protected, row.raw);
      RestoreAround(ReplaceAll(u, row.protected, row.raw), j, ReplaceAll(v, row.protected, row.raw), k + 1);
    }
  }

  /** Delimiters and tokens belong together as in the table. */
  predicate Stands(raw: string, token: string) {
    || (raw == "\\(" && token == "PYTTECHAT_MATH_INLINE_OPEN") || (raw == "\\)" && token == "PYTTECHAT_MATH_INLINE_CLOSE")
    || (raw == "\\[" && token == "PYTTECHAT_MATH_BLOCK_OPEN") || (raw == "\\]" && token == "PYTTECHAT_MATH_BLOCK_CLOSE")
  }

  /** Wherever a delimiter stands it is protected by its own token, wherever a token stands it is restored to its own delimiter, and both sides are treated as if they stood alone. */
  lemma DelimiterByDelimiter(u: string, raw: string, token: string, v: string)
    requires Stands(raw, token)
    ensures ProtectFrom(u + raw + v, 0) == ProtectFrom(u, 0) + token + ProtectFrom(v, 0)
    ensures RestoreFrom(u + token + v, 0) == RestoreFrom(u, 0) + raw + RestoreFrom(v, 0)
  {
    hide ProtectFrom, RestoreFrom;
    var j := RowOf(raw, token);
    ProtectAround(u, j, v, 0);
    RestoreAround(u, j, v, 0);
    assert u + raw + v == u + (raw + v) && u + token + v == u + (token + v);
  }

  lemma RowOf(raw: string, token: string) returns (j: nat)
    requires Stands(raw, token)
    ensures j < |REPLACEMENTS| && REPLACEMENTS[j] == Replacement(raw, token)
  {
    j := if raw == "\\(" then 0 else if raw == "\\)" then 1 else if raw == "\\[" then 2 else 3;
    assert raw[1] == if j == 0 then '(' else if j == 1 then ')' else if j == 2 then '[' else ']';
  }

  // ---------- nothing is left ----------

  lemma ContainedBehind(c: char, s: string, sub: string)
    requires sub != ""
    ensures Contains([c] + s, sub) <==> sub <= [c] + s || Contains(s, sub)
  {
    assert ([c] + s)[1..] == s;
  }

  lemma {:induction false} ContainedBehindApart(u: string, s: string, sub: string)
    requires sub != "" && Apart(u, sub)
    ensures Contains(u + s, sub) <==> Contains(s, sub)
  {
    hide Contains;
    if u == "" {
      assert u + s == s;
    } else {
      assert u[0..] == u;
      PrefixClashes(u, s, sub);
      StillApart(u, sub);
      assert u + s == [u[0]] + (u[1..] + s);
      ContainedBehind(u[0], u[1..] + s, sub);
      ContainedBehindApart(u[1..], s, sub);
    }
  }

  /** Replacing leaves no occurrence of what is replaced, and makes none of anything else. */
  lemma {:induction false} NoneMade(s: string, from: string, to: string, other: string)
    requires from != "" && other != "" && Apart(to, other) && KeepsOut(other, to) && (other == from || !Contains(s, other))
    ensures !Contains(ReplaceAll(s, from, to), other)
    decreases |s|
  {
    hide ReplaceAll, Contains, Apart, Clash;
    if |s| < |from| {
      ShorterUnchanged(s, from, to);
      TooShortToContain(s, from);
    } else if from <= s {
      var rest := s[|from|..];
      assert s == from + rest;
      ReplaceHead(from, rest, to);
      if other != from {
        ContainedInTail(from, rest, other);
      }
      NoneMade(rest, from, to, other);
      ContainedBehindApart(to, ReplaceAll(rest, from, to), other);
    } else {
      var tail := ReplaceAll(s[1..], from, to);
      assert s == [s[0]] + s[1..];
      PassOne(s, from, to);
      ContainedBehind(s[0], s[1..], other);
      NoneMade(s[1..], from, to, other);
      NoNewPrefix([s[0]], s[1..], from, to, other);
      ContainedBehind(s[0], tail, other);
    }
  }

  lemma TooShortToContain(s: string, sub: string)
    requires |s| < |sub|
    ensures !Contains(s, sub)
  {
  }

  lemma {:induction false} ContainedInTail(u: string, s: string, sub: string)
    requires sub != ""
    ensures Contains(s, sub) ==> Contains(u + s, sub)
  {
    hide Contains;
    if u == "" {
      assert u + s == s;
    } else {
      assert u + s == [u[0]] + (u[1..] + s);
      ContainedBehind(u[0], u[1..] + s, sub);
      ContainedInTail(u[1..], s, sub);
    }
  }

  lemma {:induction false} RawGone(s: string, k: nat, j: nat)
    requires k <= |REPLACEMENTS| && j < |REPLACEMENTS| && (k <= j || !Contains(s, REPLACEMENTS[j].raw))
    ensures !Contains(ProtectFrom(s, k), REPLACEMENTS[j].raw)
    decreases |REPLACEMENTS| - k
  {
    hide ReplaceAll, Apart, Borderless, KeepsOut, Contains;
    if k < |REPLACEMENTS| {
      TableApart(k, j);
      TableApart(j, k);
      RowsKeepOut(j, k);
      var next := ReplaceAll(s, REPLACEMENTS[k].raw, REPLACEMENTS[k].protected);
      if k >= j {
        NoneMade(s, REPLACEMENTS[k].raw, REPLACEMENTS[k].protected, REPLACEMENTS[j].raw);
      }
      RawGone(next, k + 1, j);
    }
  }

  lemma {:induction false} TokenGone(s: string, k: nat, j: nat)
    requires k <= |REPLACEMENTS| && j < |REPLACEMENTS| && (k <= j || !Contains(s, REPLACEMENTS[j].protected))
    ensures !Contains(RestoreFrom(s, k), REPLACEMENTS[j].protected)
    decreases |REPLACEMENTS| - k
  {
    hide ReplaceAll, Apart, Borderless, KeepsOut, Contains;
    if k < |REPLACEMENTS| {
      TableApart(k, k);
      TableApart(k, j);
      TableApart(j, k);
      RowsKeepOut(j, k);
      var next := ReplaceAll(s, REPLACEMENTS[k].protected, REPLACEMENTS[k].raw);
      if k >= j {
        NoneMade(s, REPLACEMENTS[k].protected, REPLACEMENTS[k].raw, REPLACEMENTS[j].protected);
      }
      TokenGone(next, k + 1, j);
    }
  }

  /** A protected text contains none of the four delimiters, and a restored one none of the four tokens. */
  lemma NothingLeft(s: string, raw: string, token: string)
    requires Stands(raw, token)
    ensures !Contains(ProtectFrom(s, 0), raw) && !Contains(RestoreFrom(s, 0), token)
  {
    hide ProtectFrom, RestoreFrom, Contains;
    var j := RowOf(raw, token);
    RawGone(s, 0, j);
    TokenGone(s, 0, j);
  }

  /** A text without delimiters is protected as it is. */
  lemma {:induction false} ProtectUnchanged(s: string, k: nat)
    requires k <= |REPLACEMENTS| && forall j | k <= j < |REPLACEMENTS| :: !Contains(s, REPLACEMENTS[j].raw)
    ensures ProtectFrom(s, k) == s
    decreases |REPLACEMENTS| - k
  {
    hide ReplaceAll, Contains;
    if k < |REPLACEMENTS| {
      NoneToReplace(s, REPLACEMENTS[k].raw, REPLACEMENTS[k].protected);
      ProtectUnchanged(s, k + 1);
    }
  }

  lemma {:induction false} NoneToReplace(s: string, from: string, to: string)
    requires from != "" && !Contains(s, from)
    ensures ReplaceAll(s, from, to) == s
    decreases |s|
  {
    if |s| >= |from| {
      NoneToReplace(s[1..], from, to);
    }
  }
}
