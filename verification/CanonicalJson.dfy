/**
 Canonical JSON: the printer behind the checksum of a backup file.

 Strings are sequences of UTF-16 code units, as in ECMAScript. A JavaScript object is
 the sequence of its own members in property order; `Valid` says that keys are distinct.
 Numbers are not part of this model: the payload of a backup holds none.
 */
module CanonicalJson {
  type CodeUnit = n: nat | n < 0x1_0000
  type Text = seq<CodeUnit>

  datatype Entry = Entry(key: Text, value: Json)

  datatype Json =
    | Undefined
    | Null
    | Bool(b: bool)
    | Str(s: Text)
    | Arr(items: seq<Json>)
    | Obj(members: seq<Entry>)

  const QUOTE: CodeUnit := 0x22
  const BACKSLASH: CodeUnit := 0x5C
  const COMMA: CodeUnit := 0x2C
  const COLON: CodeUnit := 0x3A
  const OPEN_BRACKET: CodeUnit := 0x5B
  const CLOSE_BRACKET: CodeUnit := 0x5D
  const OPEN_BRACE: CodeUnit := 0x7B
  const CLOSE_BRACE: CodeUnit := 0x7D
  const LETTER_U: CodeUnit := 0x75

  const NULL_TEXT: Text := [0x6E, 0x75, 0x6C, 0x6C]
  const TRUE_TEXT: Text := [0x74, 0x72, 0x75, 0x65]
  const FALSE_TEXT: Text := [0x66, 0x61, 0x6C, 0x73, 0x65]
  // What string concatenation makes of the value undefined
  const UNDEFINED_TEXT: Text := [0x75, 0x6E, 0x64, 0x65, 0x66, 0x69, 0x6E, 0x65, 0x64]

  // ---------------------------------------------------------------- quoting a string

  predicate IsHigh(u: CodeUnit) { 0xD800 <= u < 0xDC00 }

  predicate IsLow(u: CodeUnit) { 0xDC00 <= u < 0xE000 }

  function HexDigit(d: nat): CodeUnit
    requires d < 16
  {
    if d < 10 then 0x30 + d else 0x61 + (d - 10)
  }

  function UnicodeEscape(u: CodeUnit): Text {
    [BACKSLASH, LETTER_U, HexDigit(u / 0x1000), HexDigit(u / 0x100 % 16), HexDigit(u / 0x10 % 16), HexDigit(u % 16)]
  }

  /** The letter of a two-character escape, or 0 when the code unit has none. */
  function ShortEscape(u: CodeUnit): CodeUnit {
    if u == QUOTE || u == BACKSLASH then u
    else if u == 0x08 then 0x62
    else if u == 0x0C then 0x66
    else if u == 0x0A then 0x6E
    else if u == 0x0D then 0x72
    else if u == 0x09 then 0x74
    else 0
  }

  function EscapeUnit(u: CodeUnit): Text {
    if ShortEscape(u) != 0 then [BACKSLASH, ShortEscape(u)]
    else if u < 0x20 || IsHigh(u) || IsLow(u) then UnicodeEscape(u)
    else [u]
  }

  /** The inside of JSON.stringify on a string: surrogate pairs stay, lone surrogates are escaped. */
  function QuoteBody(s: Text): Text {
    if s == [] then []
    else if |s| > 1 && IsHigh(s[0]) && IsLow(s[1]) then s[..2] + QuoteBody(s[2..])
    else EscapeUnit(s[0]) + QuoteBody(s[1..])
  }

  function Quote(s: Text): Text {
    [QUOTE] + QuoteBody(s) + [QUOTE]
  }

  // ---------------------------------------------------------------- sorting keys

  /** Array.prototype.sort without a comparator: by UTF-16 code units. */
  predicate Before(a: Text, b: Text) {
    if b == [] then false
    else if a == [] then true
    else a[0] < b[0] || (a[0] == b[0] && Before(a[1..], b[1..]))
  }

  function InsertKey(k: Text, ks: seq<Text>): (r: seq<Text>)
    ensures multiset(r) == multiset{k} + multiset(ks)
  {
    if ks == [] then [k]
    else if Before(ks[0], k) then
      var rest := InsertKey(k, ks[1..]);
      assert ks == [ks[0]] + ks[1..];
      [ks[0]] + rest
    else [k] + ks
  }

  function SortKeys(ks: seq<Text>): (r: seq<Text>)
    ensures multiset(r) == multiset(ks)
    ensures |r| == |ks|
    ensures forall k :: k in r <==> k in ks
  {
    if ks == [] then []
    else
      assert ks == [ks[0]] + ks[1..];
      var r := InsertKey(ks[0], SortKeys(ks[1..]));
      assert multiset(r) == multiset(ks);
      assert |r| == |multiset(r)| == |multiset(ks)| == |ks|;
      assert forall k :: k in r <==> k in multiset(r);
      assert forall k :: k in ks <==> k in multiset(ks);
      r
  }

  predicate Ascending(ks: seq<Text>) {
    forall i, j :: 0 <= i < j < |ks| ==> Before(ks[i], ks[j])
  }

  // ---------------------------------------------------------------- the printer

  function Keys(ms: seq<Entry>): (ks: seq<Text>)
    ensures |ks| == |ms|
  {
    seq(|ms|, i requires 0 <= i < |ms| => ms[i].key)
  }

  /** obj[k] */
  function Lookup(ms: seq<Entry>, k: Text): (v: Json)
    requires k in Keys(ms)
    ensures exists i :: 0 <= i < |ms| && ms[i] == Entry(k, v)
  {
    if ms[0].key == k then assert ms[0] == Entry(k, ms[0].value); ms[0].value
    else
      assert k in Keys(ms[1..]) by {
        var i :| 0 <= i < |ms| && Keys(ms)[i] == k;
        assert Keys(ms[1..])[i - 1] == k;
      }
      var v := Lookup(ms[1..], k);
      assert exists i :: 0 <= i < |ms| && ms[i] == Entry(k, v) by {
        var i :| 0 <= i < |ms[1..]| && ms[1..][i] == Entry(k, v);
        assert ms[i + 1] == Entry(k, v);
      }
      v
  }

  function Join(parts: seq<Text>): Text {
    if parts == [] then []
    else if |parts| == 1 then parts[0]
    else parts[0] + [COMMA] + Join(parts[1..])
  }

  /** canonicalJsonStringify. */
  function Canonical(v: Json): Text
    decreases v
  {
    match v
    case Undefined => UNDEFINED_TEXT
    case Null => NULL_TEXT
    case Bool(b) => if b then TRUE_TEXT else FALSE_TEXT
    case Str(s) => Quote(s)
    case Arr(items) =>
      [OPEN_BRACKET] + Join(seq(|items|, i requires 0 <= i < |items| =>
        // join() turns undefined into the empty string
        if items[i] == Undefined then [] else Canonical(items[i]))) + [CLOSE_BRACKET]
    case Obj(members) =>
      var ks := SortKeys(Keys(members));
      [OPEN_BRACE] + Join(seq(|ks|, i requires 0 <= i < |ks| =>
        Quote(ks[i]) + [COLON] + Canonical(Lookup(members, ks[i])))) + [CLOSE_BRACE]
  }
}
