/** JSON values as the stream client sees them after decoding, and the field accessors it uses. */
module Json {
  import opened Strings
  import opened Wrappers

  /** A number is a decimal numeral: its mantissa times a power of ten. */
  datatype Json =
    | Null
    | Bool(b: bool)
    | Number(mantissa: int, exponent: int)
    | Text(s: string)
    | Array(items: seq<Json>)
    | Object(fields: map<string, Json>)

  type Payload = map<string, Json>

  function StringField(payload: Payload, name: string): string {
    if name in payload && payload[name].Text? then payload[name].s else ""
  }

  /** Conversion of a number to an int truncates toward zero. */
  function Truncate(mantissa: int, exponent: int): int {
    if exponent >= 0 then mantissa * Pow10(exponent)
    else if mantissa >= 0 then mantissa / Pow10(-exponent)
    else -((-mantissa) / Pow10(-exponent))
  }

  function IntField(payload: Payload, name: string): int {
    if name in payload && payload[name].Number? then Truncate(payload[name].mantissa, payload[name].exponent) else 0
  }

  function ObjectField(payload: Payload, name: string): Payload {
    if name in payload && payload[name].Object? then payload[name].fields else map[]
  }

  function ArrayField(payload: Payload, name: string): seq<Json> {
    if name in payload && payload[name].Array? then payload[name].items else []
  }

  function Int(n: int): Json {
    Number(n, 0)
  }

  lemma IntTruncates(n: int)
    ensures Truncate(n, 0) == n
  {
  }

  /** `n` units are `mantissa`, or as near to it as whole units come on the side of zero. */
  predicate TowardZero(mantissa: int, unit: int, n: int) {
    if mantissa >= 0 then n >= 0 && n * unit <= mantissa < n * unit + unit
    else n <= 0 && n * unit - unit < mantissa <= n * unit
  }

  /** A fraction becomes the whole number next to it on the side of zero. */
  lemma TruncatesTowardZero(mantissa: int, exponent: int)
    requires exponent < 0
    ensures TowardZero(mantissa, Pow10(-exponent), Truncate(mantissa, exponent))
  {
    hide Pow10, TowardZero;
    var unit := Pow10(-exponent);
    Divided(if mantissa >= 0 then mantissa else -mantissa, unit);
  }

  lemma Divided(m: int, unit: nat)
    requires m >= 0 && unit >= 1
    ensures TowardZero(m, unit, m / unit) && (m > 0 ==> TowardZero(-m, unit, -(m / unit)))
  {
    var q := m / unit;
    assert m == q * unit + m % unit;
    assert (-q) * unit == -(q * unit);
  }

  /** An encoder and a decoder of payloads. */
  datatype Codec = Codec(encode: Payload -> string, decode: string -> Option<Payload>)

  /** What is relied on of a JSON codec: decoding undoes encoding, and an encoded object is one line in braces. */
  ghost predicate Faithful(codec: Codec) {
    forall payload ::
      var text := codec.encode(payload);
      && codec.decode(text) == Some(payload)
      && |text| >= 2 && text[0] == '{' && text[|text| - 1] == '}'
      && forall i | 0 <= i < |text| :: text[i] != '\n'
  }
}
