/**
 What is relied on of a JSON codec can be had: a self-delimiting notation for all values, in one line,
 and the decoder that inverts it.
 */
module JsonCodec {
  import opened Json
  import opened Strings
  import opened Wrappers

  // ---------- a notation ----------

  /** One character of a quoted string. */
  function Escaped(c: char): string {
    if c == '\n' then "\\n" else if c == '"' || c == '\\' then "\\" + [c] else [c]
  }

  function Quoted(s: string): string {
    if s == "" then "\"" else Escaped(s[0]) + Quoted(s[1..])
  }

  function Numeral(mantissa: int, exponent: int): string {
    Itoa(mantissa) + "e" + (Itoa(exponent) + ";")
  }

  /** The field that is written next. */
  ghost function Pick(names: set<string>): (name: string)
    requires names != {}
    ensures name in names
  {
    assert exists name :: name in names;
    var name :| name in names;
    name
  }

  ghost function Written(j: Json): string
    decreases j, 1, 0
  {
    match j
    case Null => "n"
    case Bool(b) => if b then "t" else "f"
    case Number(mantissa, exponent) => "#" + Numeral(mantissa, exponent)
    case Text(s) => "\"" + Quoted(s)
    case Array(items) => "[" + Items(j, 0)
    case Object(fields) => "{" + Fields(j, fields.Keys)
  }

  /** The items of an array from position `i` on. */
  ghost function Items(j: Json, i: nat): string
    requires j.Array? && i <= |j.items|
    decreases j, 0, |j.items| - i
  {
    if i == |j.items| then "]" else "," + (Written(j.items[i]) + Items(j, i + 1))
  }

  /** The named fields of an object. */
  ghost function Fields(j: Json, names: set<string>): string
    requires j.Object? && names <= j.fields.Keys
    decreases j, 0, |names|
  {
    if names == {} then "}"
    else
      var name := Pick(names);
      "," + (Quoted(name) + (Written(j.fields[name]) + Fields(j, names - {name})))
  }

  // ---------- it can be read in one way only ----------

  lemma Behind(head: string, x: string, y: string)
    requires head + x == head + y
    ensures x == y
  {
    assert (head + x)[|head|..] == x && (head + y)[|head|..] == y;
  }

  /** A piece of text that ends at the first `c`. */
  lemma {:induction false} UpTo(c: char, a: string, x: string, b: string, y: string)
    requires (forall i | 0 <= i < |a| :: a[i] != c) && forall i | 0 <= i < |b| :: b[i] != c
    requires a + [c] + x == b + [c] + y
    ensures a == b && x == y
  {
    var s := a + [c] + x;
    assert s[|a|] == c && s[|b|] == c;
    assert forall i | 0 <= i < |a| :: s[i] == a[i];
    assert forall i | 0 <= i < |b| :: s[i] == b[i];
    assert |a| == |b|;
    assert a == s[..|a|] && b == s[..|b|];
    assert x == s[|a| + 1..] && y == s[|b| + 1..];
  }

  lemma {:induction false} QuotedOnce(a: string, x: string, b: string, y: string)
    requires Quoted(a) + x == Quoted(b) + y
    ensures a == b && x == y
    decreases |a|
  {
    var s, t := Quoted(a) + x, Quoted(b) + y;
    assert a != "" ==> s == Escaped(a[0]) + (Quoted(a[1..]) + x);
    assert b != "" ==> t == Escaped(b[0]) + (Quoted(b[1..]) + y);
    assert a == "" ==> s == "\"" + x;
    assert b == "" ==> t == "\"" + y;
    assert s[0] == t[0];
    if a == "" {
      Behind("\"", x, y);
    } else {
      assert Escaped(a[0])[0] == s[0];
      assert |Escaped(a[0])| == 2 ==> Escaped(a[0])[1] == s[1];
      assert |Escaped(b[0])| == 2 ==> Escaped(b[0])[1] == t[1];
      assert a[0] == b[0];
      Behind(Escaped(a[0]), Quoted(a[1..]) + x, Quoted(b[1..]) + y);
      QuotedOnce(a[1..], x, b[1..], y);
    }
  }

  lemma NumeralOnce(a: Json, x: string, b: Json, y: string)
    requires a.Number? && b.Number? && Numeral(a.mantissa, a.exponent) + x == Numeral(b.mantissa, b.exponent) + y
    ensures a == b && x == y
  {
    var m, e, n, f := Itoa(a.mantissa), Itoa(a.exponent), Itoa(b.mantissa), Itoa(b.exponent);
    assert Numeral(a.mantissa, a.exponent) + x == m + ['e'] + (e + [';'] + x);
    assert Numeral(b.mantissa, b.exponent) + y == n + ['e'] + (f + [';'] + y);
    Plain(a.mantissa);
    Plain(a.exponent);
    Plain(b.mantissa);
    Plain(b.exponent);
    UpTo('e', m, e + [';'] + x, n, f + [';'] + y);
    UpTo(';', e, x, f, y);
    ItoaInjective(a.mantissa, b.mantissa);
    ItoaInjective(a.exponent, b.exponent);
  }

  lemma Plain(n: int)
    ensures forall i | 0 <= i < |Itoa(n)| :: Itoa(n)[i] != 'e' && Itoa(n)[i] != ';' && Itoa(n)[i] != '\n'
  {
    assert n >= 0 ==> '0' <= Decimal(n)[0] <= '9';
  }

  lemma {:induction false} ItemsOnce(a: Json, i: nat, x: string, b: Json, k: nat, y: string)
    requires a.Array? && b.Array? && i <= |a.items| && k <= |b.items| && Items(a, i) + x == Items(b, k) + y
    ensures a.items[i..] == b.items[k..] && x == y
    decreases a, 0, |a.items| - i
  {
    var s, t := Items(a, i) + x, Items(b, k) + y;
    assert s[0] == t[0];
    if i == |a.items| {
      Behind("]", x, y);
    } else {
      var restA, restB := Items(a, i + 1) + x, Items(b, k + 1) + y;
      assert s == "," + (Written(a.items[i]) + restA);
      assert t == "," + (Written(b.items[k]) + restB);
      Behind(",", Written(a.items[i]) + restA, Written(b.items[k]) + restB);
      WrittenOnce(a.items[i], restA, b.items[k], restB);
      ItemsOnce(a, i + 1, x, b, k + 1, y);
      assert a.items[i..] == [a.items[i]] + a.items[i + 1..];
      assert b.items[k..] == [b.items[k]] + b.items[k + 1..];
    }
  }

  lemma FieldsBehind(j: Json, names: set<string>, x: string)
    requires j.Object? && names <= j.fields.Keys
    ensures names == {} ==> Fields(j, names) + x == "}" + x
    ensures names != {} ==>
              var name := Pick(names);
              Fields(j, names) + x == "," + (Quoted(name) + (Written(j.fields[name]) + (Fields(j, names - {name}) + x)))
  {
    hide Quoted, Written;
  }

  lemma {:induction false} FieldsOnce(a: Json, m: set<string>, x: string, b: Json, n: set<string>, y: string)
    requires a.Object? && b.Object? && m <= a.fields.Keys && n <= b.fields.Keys && Fields(a, m) + x == Fields(b, n) + y
    ensures m == n && x == y && forall name | name in m :: a.fields[name] == b.fields[name]
    decreases a, 0, |m|
  {
    hide Quoted, Written, Fields;
    FieldsBehind(a, m, x);
    FieldsBehind(b, n, y);
    assert (Fields(a, m) + x)[0] == (Fields(b, n) + y)[0];
    if m == {} {
      Behind("}", x, y);
    } else {
      var p, q := Pick(m), Pick(n);
      var restA, restB := Fields(a, m - {p}) + x, Fields(b, n - {q}) + y;
      var valueA, valueB := Written(a.fields[p]) + restA, Written(b.fields[q]) + restB;
      Behind(",", Quoted(p) + valueA, Quoted(q) + valueB);
      QuotedOnce(p, valueA, q, valueB);
      WrittenOnce(a.fields[p], restA, b.fields[q], restB);
      FieldsOnce(a, m - {p}, x, b, n - {q}, y);
      assert m == m - {p} + {p} && n == n - {q} + {q};
    }
  }

  /** Whatever follows it, a value is read back as itself. */
  lemma {:induction false} WrittenOnce(a: Json, x: string, b: Json, y: string)
    requires Written(a) + x == Written(b) + y
    ensures a == b && x == y
    decreases a, 1, 0
  {
    hide Quoted, Numeral, Items, Fields;
    assert (Written(a) + x)[0] == Written(a)[0] && (Written(b) + y)[0] == Written(b)[0];
    match a
    case Null => Behind("n", x, y);
    case Bool(v) => Behind(if v then "t" else "f", x, y);
    case Number(m, e) =>
      assert Written(a) + x == "#" + (Numeral(m, e) + x) && Written(b) + y == "#" + (Numeral(b.mantissa, b.exponent) + y);
      Behind("#", Numeral(m, e) + x, Numeral(b.mantissa, b.exponent) + y);
      NumeralOnce(a, x, b, y);
    case Text(s) =>
      assert Written(a) + x == "\"" + (Quoted(s) + x) && Written(b) + y == "\"" + (Quoted(b.s) + y);
      Behind("\"", Quoted(s) + x, Quoted(b.s) + y);
      QuotedOnce(s, x, b.s, y);
    case Array(items) =>
      assert Written(a) + x == "[" + (Items(a, 0) + x) && Written(b) + y == "[" + (Items(b, 0) + y);
      Behind("[", Items(a, 0) + x, Items(b, 0) + y);
      ItemsOnce(a, 0, x, b, 0, y);
      assert items[0..] == items && b.items[0..] == b.items;
    case Object(fields) =>
      assert Written(a) + x == "{" + (Fields(a, fields.Keys) + x) && Written(b) + y == "{" + (Fields(b, b.fields.Keys) + y);
      Behind("{", Fields(a, fields.Keys) + x, Fields(b, b.fields.Keys) + y);
      FieldsOnce(a, fields.Keys, x, b, b.fields.Keys, y);
      assert fields == b.fields;
  }

  // ---------- it fits on a line ----------

  ghost predicate OneLine(s: string) {
    forall i | 0 <= i < |s| :: s[i] != '\n'
  }

  lemma Joined(a: string, b: string)
    requires OneLine(a) && OneLine(b)
    ensures OneLine(a + b)
  {
  }

  lemma {:induction false} QuotedLine(s: string)
    ensures OneLine(Quoted(s))
  {
    if s != "" {
      QuotedLine(s[1..]);
      Joined(Escaped(s[0]), Quoted(s[1..]));
    }
  }

  lemma {:induction false} ItemsLine(j: Json, i: nat)
    requires j.Array? && i <= |j.items|
    ensures OneLine(Items(j, i))
    decreases j, 0, |j.items| - i
  {
    if i < |j.items| {
      WrittenLine(j.items[i]);
      ItemsLine(j, i + 1);
      Joined(Written(j.items[i]), Items(j, i + 1));
      Joined(",", Written(j.items[i]) + Items(j, i + 1));
    }
  }

  lemma {:induction false} FieldsLine(j: Json, names: set<string>)
    requires j.Object? && names <= j.fields.Keys
    ensures OneLine(Fields(j, names)) && |Fields(j, names)| >= 1 && Fields(j, names)[|Fields(j, names)| - 1] == '}'
    decreases j, 0, |names|
  {
    if names != {} {
      var name := Pick(names);
      var rest := Fields(j, names - {name});
      QuotedLine(name);
      WrittenLine(j.fields[name]);
      FieldsLine(j, names - {name});
      Joined(Written(j.fields[name]), rest);
      Joined(Quoted(name), Written(j.fields[name]) + rest);
      Joined(",", Quoted(name) + (Written(j.fields[name]) + rest));
    }
  }

  lemma {:induction false} WrittenLine(j: Json)
    ensures OneLine(Written(j))
    decreases j, 1, 0
  {
    match j
    case Null =>
    case Bool(_) =>
    case Number(mantissa, exponent) =>
      Plain(mantissa);
      Plain(exponent);
    case Text(s) => QuotedLine(s);
    case Array(_) => ItemsLine(j, 0);
    case Object(fields) => FieldsLine(j, fields.Keys);
  }

  // ---------- a codec ----------

  ghost function ReadBack(text: string): Option<Payload> {
    if exists payload: Payload :: Written(Object(payload)) == text then
      var payload: Payload :| Written(Object(payload)) == text;
      Some(payload)
    else None
  }

  /** There is a codec that meets all that is relied on. */
  lemma FaithfulCodecExists() returns (codec: Codec)
    ensures Faithful(codec)
  {
    codec := Codec(payload => Written(Object(payload)), text => ReadBack(text));
    forall payload: Payload
      ensures var text := codec.encode(payload);
              && codec.decode(text) == Some(payload)
              && |text| >= 2 && text[0] == '{' && text[|text| - 1] == '}'
              && forall i | 0 <= i < |text| :: text[i] != '\n'
    {
      var text := Written(Object(payload));
      WrittenLine(Object(payload));
      FieldsLine(Object(payload), payload.Keys);
      var back := ReadBack(text).value;
      assert Written(Object(back)) + "" == Written(Object(payload)) + "";
      WrittenOnce(Object(back), "", Object(payload), "");
    }
  }
}
