/** The string operations of the Go library that the modelled code calls, over sequences of code points. */
module Strings {

  /** `unicode.IsSpace` */
  predicate IsSpace(c: char) {
    || '\t' <= c <= '\r' || c == ' ' || c == '\U{85}' || c == '\U{A0}' || c == '\U{1680}'
    || '\U{2000}' <= c <= '\U{200A}' || c == '\U{2028}' || c == '\U{2029}' || c == '\U{202F}' || c == '\U{205F}' || c == '\U{3000}'
  }

  function TrimLeft(s: string): (t: string)
    ensures |t| <= |s| && t == s[|s| - |t|..]
  {
    if s != "" && IsSpace(s[0]) then TrimLeft(s[1..]) else s
  }

  function TrimRight(s: string): (t: string)
    ensures t <= s
  {
    if s != "" && IsSpace(s[|s| - 1]) then TrimRight(s[..|s| - 1]) else s
  }

  function TrimSpace(s: string): string {
    TrimRight(TrimLeft(s))
  }

  // ---------- what trimming is ----------

  predicate Blank(s: string) {
    forall i | 0 <= i < |s| :: IsSpace(s[i])
  }

  /** Nothing to trim at either end. */
  predicate Trimmed(s: string) {
    s == "" || (!IsSpace(s[0]) && !IsSpace(s[|s| - 1]))
  }

  lemma {:induction false} TrimLeftSplits(s: string)
    ensures Blank(s[..|s| - |TrimLeft(s)|]) && (TrimLeft(s) == "" || !IsSpace(TrimLeft(s)[0]))
  {
    if s != "" && IsSpace(s[0]) {
      TrimLeftSplits(s[1..]);
      var n := |s| - |TrimLeft(s)|;
      assert s[..n] == [s[0]] + s[1..][..n - 1];
    }
  }

  lemma {:induction false} TrimRightSplits(s: string)
    ensures Blank(s[|TrimRight(s)|..]) && (TrimRight(s) == "" || !IsSpace(TrimRight(s)[|TrimRight(s)| - 1]))
  {
    if s != "" && IsSpace(s[|s| - 1]) {
      var init := s[..|s| - 1];
      TrimRightSplits(init);
      var n := |TrimRight(s)|;
      assert s[n..] == init[n..] + [s[|s| - 1]];
    }
  }

  /** What is trimmed off is white space, and what is left has none at its ends. */
  lemma TrimSpaceSplits(s: string) returns (w: nat)
    ensures w + |TrimSpace(s)| <= |s| && s[w..w + |TrimSpace(s)|] == TrimSpace(s)
    ensures Blank(s[..w]) && Blank(s[w + |TrimSpace(s)|..]) && Trimmed(TrimSpace(s))
  {
    hide TrimLeft, TrimRight, IsSpace, Blank;
    TrimLeftSplits(s);
    TrimRightSplits(TrimLeft(s));
    var left, t := TrimLeft(s), TrimSpace(s);
    w := |s| - |left|;
    assert s[w..] == left;
    assert s[w..w + |t|] == left[..|t|] && s[w + |t|..] == left[|t|..];
    assert t != "" ==> t[0] == left[0];
  }

  lemma BlankTrims(s: string)
    ensures TrimSpace(s) == "" <==> Blank(s)
  {
    var w := TrimSpaceSplits(s);
    if TrimSpace(s) == "" {
      assert s == s[..w] + s[w..];
    } else {
      assert s[w] == TrimSpace(s)[0];
    }
  }

  function HasPrefix(s: string, prefix: string): bool {
    prefix <= s
  }

  function HasSuffix(s: string, suffix: string): bool {
    |suffix| <= |s| && s[|s| - |suffix|..] == suffix
  }

  function TrimSuffix(s: string, suffix: string): string {
    if HasSuffix(s, suffix) then s[..|s| - |suffix|] else s
  }

  function TrimPrefix(s: string, prefix: string): string {
    if prefix <= s then s[|prefix|..] else s
  }

  predicate OccursAt(s: string, sub: string, i: int) {
    0 <= i <= |s| && sub <= s[i..]
  }

  /** `strings.Index`: the first position at which `sub` occurs, or -1. */
  function Index(s: string, sub: string): (i: int)
    ensures -1 <= i
    ensures i >= 0 ==> OccursAt(s, sub, i)
    ensures forall j | 0 <= j <= |s| && (i < 0 || j < i) :: !OccursAt(s, sub, j)
  {
    if sub <= s then 0
    else if s == "" then -1
    else
      var rest := Index(s[1..], sub);
      assert forall j | 1 <= j <= |s| :: OccursAt(s, sub, j) == OccursAt(s[1..], sub, j - 1);
      if rest < 0 then -1 else rest + 1
  }

  predicate Contains(s: string, sub: string) {
    Index(s, sub) >= 0
  }

  /** `strings.IndexByte`, for a character of one byte. */
  function IndexChar(s: string, c: char): (i: int)
    ensures -1 <= i < |s|
    ensures i >= 0 ==> s[i] == c
    ensures forall j | 0 <= j < (if i >= 0 then i else |s|) :: s[j] != c
  {
    if s == "" then -1
    else if s[0] == c then 0
    else
      var rest := IndexChar(s[1..], c);
      if rest < 0 then -1 else rest + 1
  }

  lemma IndexCharAt(s: string, c: char, i: nat)
    requires i < |s| && s[i] == c && forall j | 0 <= j < i :: s[j] != c
    ensures IndexChar(s, c) == i
  {
  }

  /** How many copies of `marker` the text starts with. */
  function MarkerRun(text: string, marker: char): (n: nat)
    ensures n <= |text| && (forall i | 0 <= i < n :: text[i] == marker) && (n < |text| ==> text[n] != marker)
  {
    if text != "" && text[0] == marker then 1 + MarkerRun(text[1..], marker) else 0
  }

  function Concat(pieces: seq<string>): string {
    if pieces == [] then "" else Concat(pieces[..|pieces| - 1]) + pieces[|pieces| - 1]
  }

  lemma ConcatSnoc(pieces: seq<string>, piece: string)
    ensures Concat(pieces + [piece]) == Concat(pieces) + piece
  {
    assert (pieces + [piece])[..|pieces|] == pieces;
  }

  lemma {:induction false} ConcatAppend(a: seq<string>, b: seq<string>)
    ensures Concat(a + b) == Concat(a) + Concat(b)
  {
    if b == [] {
      assert a + b == a;
    } else {
      var n := |b| - 1;
      assert a + b == (a + b[..n]) + [b[n]];
      ConcatSnoc(a + b[..n], b[n]);
      ConcatAppend(a, b[..n]);
    }
  }

  function Digit(n: nat): char
    requires n < 10
  {
    "0123456789"[n]
  }

  /** `strconv.Itoa` and the `%d` verb. */
  function Itoa(n: int): (s: string)
    ensures s != "" && (s[0] == '-' <==> n < 0)
    ensures forall i | 1 <= i < |s| :: '0' <= s[i] <= '9'
  {
    if n < 0 then "-" + Decimal(-n) else Decimal(n)
  }

  function Decimal(n: nat): (s: string)
    ensures s != "" && forall i | 0 <= i < |s| :: '0' <= s[i] <= '9'
  {
    if n < 10 then [Digit(n)] else Decimal(n / 10) + [Digit(n % 10)]
  }

  /** The number that decimal digits stand for. */
  function Value(digits: string): int {
    if digits == "" then 0 else 10 * Value(digits[..|digits| - 1]) + (digits[|digits| - 1] as int - '0' as int)
  }

  /** Printed numbers read back, and start with a zero only for zero. */
  lemma {:induction false} DecimalReadsBack(n: nat)
    ensures Value(Decimal(n)) == n && (n > 0 ==> Decimal(n)[0] != '0')
  {
    if n < 10 {
      assert Decimal(n)[..0] == "";
      assert "0123456789"[n] as int == '0' as int + n;
    } else {
      DecimalReadsBack(n / 10);
      var init := Decimal(n / 10);
      assert (init + [Digit(n % 10)])[..|init|] == init;
      assert "0123456789"[n % 10] as int == '0' as int + n % 10;
    }
  }

  lemma SnocInjective(a: string, x: char, b: string, y: char)
    requires a + [x] == b + [y]
    ensures a == b && x == y
  {
    var s := a + [x];
    assert a == s[..|s| - 1] && b == s[..|s| - 1] && x == s[|s| - 1] && y == s[|s| - 1];
  }

  lemma {:induction false} DecimalInjective(m: nat, n: nat)
    requires Decimal(m) == Decimal(n)
    ensures m == n
  {
    if m >= 10 && n >= 10 {
      SnocInjective(Decimal(m / 10), Digit(m % 10), Decimal(n / 10), Digit(n % 10));
      DecimalInjective(m / 10, n / 10);
    } else {
      assert |Decimal(m)| == 1 <==> m < 10;
      assert |Decimal(n)| == 1 <==> n < 10;
    }
  }

  /** Printing integers loses nothing. */
  lemma ItoaInjective(m: int, n: int)
    requires Itoa(m) == Itoa(n)
    ensures m == n
  {
    if m < 0 {
      assert Decimal(-m) == Itoa(m)[1..] == Decimal(-n);
      DecimalInjective(-m, -n);
    } else {
      DecimalInjective(m, n);
    }
  }

  function Pow10(n: nat): (p: nat)
    ensures p >= 1
  {
    if n == 0 then 1 else 10 * Pow10(n - 1)
  }

  /** A maximal run of `c` at position `w`. */
  predicate RunAt(s: string, w: nat, n: nat, c: char) {
    w + n <= |s| && (forall i | w <= i < w + n :: s[i] == c) && (w + n < |s| ==> s[w + n] != c)
  }

  lemma MarkerRunIs(s: string, c: char, n: nat)
    ensures MarkerRun(s, c) == n <==> RunAt(s, 0, n, c)
  {
  }

  /** The same, position by position. */
  lemma TrimSpaceAt(s: string) returns (w: nat)
    ensures w + |TrimSpace(s)| <= |s| && Trimmed(TrimSpace(s))
    ensures forall i | 0 <= i < |TrimSpace(s)| :: TrimSpace(s)[i] == s[w + i]
    ensures forall i | 0 <= i < w :: IsSpace(s[i])
    ensures forall i | w + |TrimSpace(s)| <= i < |s| :: IsSpace(s[i])
  {
    hide TrimSpace, IsSpace;
    w := TrimSpaceSplits(s);
    var t := TrimSpace(s);
    forall i | 0 <= i < w
      ensures IsSpace(s[i])
    {
      assert s[..w][i] == s[i];
    }
    forall i | w + |t| <= i < |s|
      ensures IsSpace(s[i])
    {
      assert s[w + |t|..][i - w - |t|] == s[i];
    }
    forall i | 0 <= i < |t|
      ensures t[i] == s[w + i]
    {
      assert s[w..w + |t|][i] == s[w + i];
    }
  }

  lemma RunOfTrimmed(s: string, t: string, v: nat, c: char, n: nat)
    requires n >= 1 && !IsSpace(c) && v + |t| <= |s| && RunAt(t, 0, n, c)
    requires forall i | 0 <= i < |t| :: t[i] == s[v + i]
    requires forall i | v + |t| <= i < |s| :: IsSpace(s[i])
    ensures RunAt(s, v, n, c)
  {
    hide IsSpace;
    forall i | v <= i < v + n
      ensures s[i] == c
    {
      assert t[i - v] == s[v + (i - v)];
    }
    if v + n < |s| && n < |t| {
      assert t[n] == s[v + n];
    }
  }

  lemma RunOfWhole(s: string, t: string, v: nat, w: nat, c: char, n: nat)
    requires n >= 1 && !IsSpace(c) && v + |t| <= |s| && Trimmed(t) && w <= |s|
    requires forall i | 0 <= i < |t| :: t[i] == s[v + i]
    requires forall i | 0 <= i < v :: IsSpace(s[i])
    requires forall i | v + |t| <= i < |s| :: IsSpace(s[i])
    requires (forall i | 0 <= i < w :: IsSpace(s[i])) && RunAt(s, w, n, c)
    ensures w == v && RunAt(t, 0, n, c)
  {
    hide IsSpace;
    assert s[w] == c;
    assert t != "" ==> t[0] == s[v + 0];
    assert w == v;
    assert v + |t| < |s| ==> IsSpace(s[v + |t|]);
    assert n <= |t|;
    forall i | 0 <= i < n
      ensures t[i] == c
    {
      assert t[i] == s[v + i];
    }
    if n < |t| {
      assert t[n] == s[v + n];
    }
  }

  /** Behind white space, a run of anything else stands at the head of the trimmed string. */
  lemma RunInTrimmed(s: string, c: char, n: nat)
    requires n >= 1 && !IsSpace(c)
    ensures RunAt(TrimSpace(s), 0, n, c) <==> exists w: nat :: w <= |s| && Blank(s[..w]) && RunAt(s, w, n, c)
  {
    hide TrimSpace, IsSpace, RunAt;
    var v := TrimSpaceAt(s);
    var t := TrimSpace(s);
    if RunAt(t, 0, n, c) {
      RunOfTrimmed(s, t, v, c, n);
      assert v <= |s| && Blank(s[..v]) && RunAt(s, v, n, c);
    }
    forall w: nat | w <= |s| && Blank(s[..w]) && RunAt(s, w, n, c)
      ensures RunAt(t, 0, n, c)
    {
      forall i | 0 <= i < w
        ensures IsSpace(s[i])
      {
        assert s[..w][i] == s[i];
      }
      RunOfWhole(s, t, v, w, c, n);
    }
  }

  /** The word stands at position `w`. */
  predicate WordAt(s: string, w: nat, word: string) {
    w + |word| <= |s| && forall i | 0 <= i < |word| :: s[w + i] == word[i]
  }

  /** The trimmed string is some word exactly when that word stands in the string between white space. */
  lemma TrimmedIs(s: string, word: string)
    requires word != "" && Trimmed(word)
    ensures TrimSpace(s) == word <==> exists w: nat :: WordAt(s, w, word) && Blank(s[..w]) && Blank(s[w + |word|..])
  {
    hide TrimSpace, IsSpace;
    var v := TrimSpaceAt(s);
    var t := TrimSpace(s);
    if t == word {
      assert WordAt(s, v, word) && Blank(s[..v]) && Blank(s[v + |word|..]);
    }
    forall w: nat | WordAt(s, w, word) && Blank(s[..w]) && Blank(s[w + |word|..])
      ensures t == word
    {
      TrimmedWord(s, t, v, w, word);
      BlankTail(s, t, v, w + |word|);
    }
  }

  /** A word behind white space is the head of the trimmed string. */
  lemma TrimmedWord(s: string, t: string, v: nat, w: nat, word: string)
    requires word != "" && Trimmed(word) && WordAt(s, w, word) && Blank(s[..w])
    requires v + |t| <= |s| && Trimmed(t) && (forall i | 0 <= i < |t| :: t[i] == s[v + i])
    requires (forall i | 0 <= i < v :: IsSpace(s[i])) && forall i | v + |t| <= i < |s| :: IsSpace(s[i])
    ensures w == v && word <= t
  {
    hide IsSpace;
    var e := |word| - 1;
    assert s[w + 0] == word[0] && s[w + e] == word[e];
    forall i | 0 <= i < w
      ensures IsSpace(s[i])
    {
      assert s[..w][i] == s[i];
    }
    assert t != "" ==> t[0] == s[v + 0];
    assert w == v;
    assert |word| <= |t|;
    forall i | 0 <= i < |word|
      ensures t[i] == word[i]
    {
      assert s[w + i] == word[i];
    }
  }

  /** Nothing but white space from `p` on exactly when the trimmed string ends there. */
  lemma BlankTail(s: string, t: string, v: nat, p: nat)
    requires v + |t| <= |s| && Trimmed(t) && (forall i | 0 <= i < |t| :: t[i] == s[v + i]) && v < p <= v + |t|
    requires forall i | v + |t| <= i < |s| :: IsSpace(s[i])
    ensures Blank(s[p..]) <==> |t| == p - v
  {
    hide IsSpace;
    if p < v + |t| {
      assert s[p..][v + |t| - 1 - p] == t[|t| - 1];
    }
  }

  /** The trimmed string is the word, or starts with it and a space, exactly when the word stands behind white space and nothing but white space, or else a space, follows. */
  lemma TrimmedStarts(s: string, word: string)
    requires word != "" && Trimmed(word)
    ensures TrimSpace(s) == word || HasPrefix(TrimSpace(s), word + " ") <==>
            exists w: nat :: WordAt(s, w, word) && Blank(s[..w]) && (Blank(s[w + |word|..]) || s[w + |word|] == ' ')
  {
    hide TrimSpace, IsSpace;
    var v := TrimSpaceAt(s);
    var t := TrimSpace(s);
    var n := |word|;
    if t == word || HasPrefix(t, word + " ") {
      assert forall i | 0 <= i < n :: (word + " ")[i] == word[i];
      assert WordAt(s, v, word) && Blank(s[..v]);
      if t == word {
        assert Blank(s[v + n..]);
      } else {
        assert t[n] == (word + " ")[n] == ' ';
        assert s[v + n] == ' ';
      }
    }
    forall w: nat | WordAt(s, w, word) && Blank(s[..w]) && (Blank(s[w + n..]) || s[w + n] == ' ')
      ensures t == word || HasPrefix(t, word + " ")
    {
      TrimmedWord(s, t, v, w, word);
      BlankTail(s, t, v, w + n);
      if |t| > n {
        assert t[n] == s[v + n] == ' ';
        assert t[..n + 1] == word + " ";
      }
    }
  }

  /** Spaces in front make no difference to trimming. */
  lemma {:induction false} SpacesTrimmed(s: string, n: nat)
    requires n <= |s| && forall i | 0 <= i < n :: s[i] == ' '
    ensures TrimSpace(s[n..]) == TrimSpace(s)
  {
    if n > 0 {
      assert s[1..][n - 1..] == s[n..];
      SpacesTrimmed(s[1..], n - 1);
    } else {
      assert s[0..] == s;
    }
  }
}
