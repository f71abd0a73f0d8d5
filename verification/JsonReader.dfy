/**
 The inverse of the printer: a reader for the JSON texts that the printer emits
 (no white space, no numbers). `Reads` and `NeverReads` say what a text denotes
 whatever follows it, so that the lemmas compose.
 */
module JsonReader {
  import opened CanonicalJson

  datatype Read<+T> = Fail | Got(value: T, rest: Text)

  // ---------------------------------------------------------------- strings

  function HexValue(u: CodeUnit): (r: int)
    ensures -1 <= r < 16
  {
    if 0x30 <= u < 0x3A then u - 0x30
    else if 0x61 <= u < 0x67 then u - 0x61 + 10
    else if 0x41 <= u < 0x47 then u - 0x41 + 10
    else -1
  }

  /** The code unit named by the letter of a two-character escape, or -1. */
  function UnescapeLetter(u: CodeUnit): (r: int)
    ensures -1 <= r < 0x1_0000
  {
    if u == QUOTE || u == BACKSLASH || u == 0x2F then u
    else if u == 0x62 then 0x08
    else if u == 0x66 then 0x0C
    else if u == 0x6E then 0x0A
    else if u == 0x72 then 0x0D
    else if u == 0x74 then 0x09
    else -1
  }

  /** One string character of section 7 of RFC 8259. */
  function ReadUnit(t: Text): (r: Read<CodeUnit>)
    ensures r.Got? ==> |r.rest| < |t|
  {
    if t == [] || t[0] < 0x20 || t[0] == QUOTE then Fail
    else if t[0] != BACKSLASH then Got(t[0], t[1..])
    else if |t| == 1 then Fail
    else if t[1] != LETTER_U then
      var u := UnescapeLetter(t[1]);
      if u < 0 then Fail else Got(u, t[2..])
    else if |t| < 6 then Fail
    else
      var h0, h1, h2, h3 := HexValue(t[2]), HexValue(t[3]), HexValue(t[4]), HexValue(t[5]);
      if h0 < 0 || h1 < 0 || h2 < 0 || h3 < 0 then Fail
      else Got(h0 * 0x1000 + h1 * 0x100 + h2 * 0x10 + h3, t[6..])
  }

  /** The characters up to and including the closing quotation mark. */
  function ReadBody(t: Text): (r: Read<Text>)
    ensures r.Got? ==> |r.rest| < |t|
    decreases |t|
  {
    if t == [] then Fail
    else if t[0] == QUOTE then Got([], t[1..])
    else
      match ReadUnit(t)
      case Fail => Fail
      case Got(u, t') =>
        match ReadBody(t')
        case Fail => Fail
        case Got(s, t'') => Got([u] + s, t'')
  }

  // ---------------------------------------------------------------- values

  predicate StartsWith(t: Text, p: Text) {
    |p| <= |t| && t[..|p|] == p
  }

  function ReadValue(t: Text): (r: Read<Json>)
    ensures r.Got? ==> |r.rest| < |t|
    decreases |t|, 0
  {
    if t == [] then Fail
    else if t[0] == QUOTE then
      match ReadBody(t[1..])
      case Fail => Fail
      case Got(s, t') => Got(Str(s), t')
    else if t[0] == OPEN_BRACKET then
      if |t| > 1 && t[1] == CLOSE_BRACKET then Got(Arr([]), t[2..])
      else
        match ReadItems(t[1..])
        case Fail => Fail
        case Got(items, t') => Got(Arr(items), t')
    else if t[0] == OPEN_BRACE then
      if |t| > 1 && t[1] == CLOSE_BRACE then Got(Obj([]), t[2..])
      else
        match ReadMembers(t[1..])
        case Fail => Fail
        case Got(members, t') => Got(Obj(members), t')
    else if StartsWith(t, NULL_TEXT) then Got(Null, t[4..])
    else if StartsWith(t, TRUE_TEXT) then Got(Bool(true), t[4..])
    else if StartsWith(t, FALSE_TEXT) then Got(Bool(false), t[5..])
    else Fail
  }

  /** One or more values separated by commas, then the closing bracket. */
  function ReadItems(t: Text): (r: Read<seq<Json>>)
    ensures r.Got? ==> |r.rest| < |t|
    decreases |t|, 1
  {
    match ReadValue(t)
    case Fail => Fail
    case Got(v, t') =>
      if t' == [] then Fail
      else if t'[0] == CLOSE_BRACKET then Got([v], t'[1..])
      else if t'[0] != COMMA then Fail
      else
        match ReadItems(t'[1..])
        case Fail => Fail
        case Got(vs, t'') => Got([v] + vs, t'')
  }

  /** A member: string, colon, value. */
  function ReadMember(t: Text): (r: Read<Entry>)
    ensures r.Got? ==> |r.rest| < |t|
    decreases |t|, 1
  {
    if t == [] || t[0] != QUOTE then Fail
    else
      match ReadBody(t[1..])
      case Fail => Fail
      case Got(k, t') =>
        if t' == [] || t'[0] != COLON then Fail
        else
          match ReadValue(t'[1..])
          case Fail => Fail
          case Got(v, t'') => Got(Entry(k, v), t'')
  }

  function ReadMembers(t: Text): (r: Read<seq<Entry>>)
    ensures r.Got? ==> |r.rest| < |t|
    decreases |t|, 2
  {
    match ReadMember(t)
    case Fail => Fail
    case Got(m, t') =>
      if t' == [] then Fail
      else if t'[0] == CLOSE_BRACE then Got([m], t'[1..])
      else if t'[0] != COMMA then Fail
      else
        match ReadMembers(t'[1..])
        case Fail => Fail
        case Got(ms, t'') => Got([m] + ms, t'')
  }

  // ---------------------------------------------------------------- strings read back

  lemma HexDigitsOf(u: CodeUnit)
    ensures u / 0x1000 < 16
    ensures u / 0x1000 * 0x1000 + u / 0x100 % 16 * 0x100 + u / 0x10 % 16 * 0x10 + u % 16 == u
  {
    assert u / 0x100 == u / 0x1000 * 16 + u / 0x100 % 16;
    assert u / 0x10 == u / 0x100 * 16 + u / 0x10 % 16;
  }

  lemma ReadUnicodeEscape(u: CodeUnit, rest: Text)
    ensures ReadUnit(UnicodeEscape(u) + rest) == Got(u, rest)
  {
    HexDigitsOf(u);
  }

  lemma ReadEscapedUnit(u: CodeUnit, rest: Text)
    ensures ReadUnit(EscapeUnit(u) + rest) == Got(u, rest)
  {
    var t := EscapeUnit(u) + rest;
    if ShortEscape(u) != 0 {
      assert t[..2] == [BACKSLASH, ShortEscape(u)] && t[2..] == rest;
    } else if u < 0x20 || IsHigh(u) || IsLow(u) {
      ReadUnicodeEscape(u, rest);
    } else {
      assert t[0] == u && t[1..] == rest;
    }
  }

  /** Reading one character in front of a body that is read as s. */
  lemma ReadBodyStep(t: Text, u: CodeUnit, tail: Text, s: Text, rest: Text)
    requires t != [] && t[0] != QUOTE
    requires ReadUnit(t) == Got(u, tail)
    requires ReadBody(tail) == Got(s, rest)
    ensures ReadBody(t) == Got([u] + s, rest)
  {
  }

  lemma ReadBodyPair(h: CodeUnit, l: CodeUnit, tail: Text, s: Text, rest: Text)
    requires IsHigh(h) && IsLow(l)
    requires ReadBody(tail) == Got(s, rest)
    ensures ReadBody([h, l] + tail) == Got([h, l] + s, rest)
  {
    assert ([l] + tail)[1..] == tail;
    ReadBodyStep([l] + tail, l, tail, s, rest);
    assert ([h, l] + tail)[1..] == [l] + tail;
    ReadBodyStep([h, l] + tail, h, [l] + tail, [l] + s, rest);
    assert [h] + ([l] + s) == [h, l] + s;
  }

  lemma ReadBodyEscaped(u: CodeUnit, tail: Text, s: Text, rest: Text)
    requires ReadBody(tail) == Got(s, rest)
    ensures ReadBody(EscapeUnit(u) + tail) == Got([u] + s, rest)
  {
    ReadEscapedUnit(u, tail);
    assert (EscapeUnit(u) + tail)[0] == EscapeUnit(u)[0] != QUOTE;
    ReadBodyStep(EscapeUnit(u) + tail, u, tail, s, rest);
  }

  lemma Assoc(a: Text, b: Text, c: Text)
    ensures a + b + c == a + (b + c)
  {
  }

  lemma ReadBodyEnd(rest: Text)
    ensures ReadBody([QUOTE] + rest) == Got([], rest)
  {
    assert ([QUOTE] + rest)[1..] == rest;
  }

  lemma {:induction false} ReadQuoteBody(s: Text, rest: Text)
    ensures ReadBody(QuoteBody(s) + ([QUOTE] + rest)) == Got(s, rest)
    decreases |s|
  {
    hide ReadBody, EscapeUnit;
    var closed := [QUOTE] + rest;
    if s == [] {
      assert QuoteBody(s) + closed == closed;
      ReadBodyEnd(rest);
    } else if |s| > 1 && IsHigh(s[0]) && IsLow(s[1]) {
      ReadQuoteBody(s[2..], rest);
      ReadBodyPair(s[0], s[1], QuoteBody(s[2..]) + closed, s[2..], rest);
      assert s[..2] == [s[0], s[1]] && s == s[..2] + s[2..];
      Assoc(s[..2], QuoteBody(s[2..]), closed);
    } else {
      ReadQuoteBody(s[1..], rest);
      ReadBodyEscaped(s[0], QuoteBody(s[1..]) + closed, s[1..], rest);
      Assoc(EscapeUnit(s[0]), QuoteBody(s[1..]), closed);
      assert s == [s[0]] + s[1..];
    }
  }

  // ---------------------------------------------------------------- composing texts

  /** Text c denotes value v, whatever follows it. */
  ghost predicate Reads(c: Text, v: Json) {
    forall rest: Text :: ReadValue(c + rest) == Got(v, rest)
  }

  /** Text c is never read as value v, whatever follows it. */
  ghost predicate NeverReads(c: Text, v: Json) {
    forall rest: Text, r: Text :: ReadValue(c + rest) != Got(v, r)
  }

  lemma ReadsQuote(s: Text)
    ensures Reads(Quote(s), Str(s))
  {
    hide ReadBody, QuoteBody;
    forall rest: Text ensures ReadValue(Quote(s) + rest) == Got(Str(s), rest) {
      ReadQuoteBody(s, rest);
      assert (Quote(s) + rest)[1..] == QuoteBody(s) + ([QUOTE] + rest);
    }
  }

  function MemberText(k: Text, c: Text): Text {
    Quote(k) + [COLON] + c
  }

  lemma ReadMemberText(k: Text, c: Text, rest: Text)
    ensures ReadMember(MemberText(k, c) + rest) ==
      match ReadValue(c + rest) case Fail => Fail case Got(v, t) => Got(Entry(k, v), t)
  {
    hide ReadBody, QuoteBody, ReadValue;
    var t := MemberText(k, c) + rest;
    var after := [COLON] + (c + rest);
    ReadQuoteBody(k, after);
    assert t[0] == QUOTE && t[1..] == QuoteBody(k) + ([QUOTE] + after);
    assert after[0] == COLON && after[1..] == c + rest;
  }

  /** The text of the last item, closed. */
  lemma ReadLastItem(c: Text, v: Json, rest: Text)
    requires Reads(c, v)
    ensures ReadItems(c + [CLOSE_BRACKET] + rest) == Got([v], rest)
  {
    var after := [CLOSE_BRACKET] + rest;
    assert c + [CLOSE_BRACKET] + rest == c + after && after[0] == CLOSE_BRACKET && after[1..] == rest;
  }

  /** The text of an item in front of more items. */
  lemma ReadNextItem(c: Text, v: Json, tail: Text)
    requires Reads(c, v)
    ensures ReadItems(c + [COMMA] + tail) ==
      match ReadItems(tail) case Fail => Fail case Got(vs, r) => Got([v] + vs, r)
  {
    var after := [COMMA] + tail;
    assert c + [COMMA] + tail == c + after && after[0] == COMMA && after[1..] == tail;
  }

  /** Texts that denote the values of vs one by one, joined and closed, denote the sequence vs. */
  lemma {:induction false} ReadJoinedItems(parts: seq<Text>, vs: seq<Json>, rest: Text)
    requires |parts| == |vs| > 0
    requires forall i :: 0 <= i < |vs| ==> Reads(parts[i], vs[i])
    ensures ReadItems(Join(parts) + [CLOSE_BRACKET] + rest) == Got(vs, rest)
    decreases |parts|
  {
    if |parts| == 1 {
      ReadLastItem(parts[0], vs[0], rest);
      assert vs == [vs[0]];
    } else {
      var tail := Join(parts[1..]) + [CLOSE_BRACKET] + rest;
      ReadJoinedItems(parts[1..], vs[1..], rest);
      ReadNextItem(parts[0], vs[0], tail);
      assert Join(parts) + [CLOSE_BRACKET] + rest == parts[0] + [COMMA] + tail;
      assert vs == [vs[0]] + vs[1..];
    }
  }

  /** Text p is a member with m's key and a text that denotes m's value. */
  ghost predicate ReadsMember(p: Text, m: Entry) {
    exists c :: p == MemberText(m.key, c) && Reads(c, m.value)
  }

  lemma ReadLastMember(p: Text, m: Entry, rest: Text)
    requires ReadsMember(p, m)
    ensures ReadMembers(p + [CLOSE_BRACE] + rest) == Got([m], rest)
  {
    var c :| p == MemberText(m.key, c) && Reads(c, m.value);
    var after := [CLOSE_BRACE] + rest;
    ReadMemberText(m.key, c, after);
    assert p + [CLOSE_BRACE] + rest == p + after && after[0] == CLOSE_BRACE && after[1..] == rest;
  }

  lemma ReadNextMember(p: Text, m: Entry, tail: Text)
    requires ReadsMember(p, m)
    ensures ReadMembers(p + [COMMA] + tail) ==
      match ReadMembers(tail) case Fail => Fail case Got(ms, r) => Got([m] + ms, r)
  {
    var c :| p == MemberText(m.key, c) && Reads(c, m.value);
    var after := [COMMA] + tail;
    assert ReadValue(c + after) == Got(m.value, after);
    hide ReadValue, Reads, MemberText, ReadMembers;
    ReadMemberText(m.key, c, after);
    assert p + [COMMA] + tail == p + after && after[0] == COMMA && after[1..] == tail;
  }

  lemma {:induction false} ReadJoinedMembers(parts: seq<Text>, ms: seq<Entry>, rest: Text)
    requires |parts| == |ms| > 0
    requires forall i :: 0 <= i < |ms| ==> ReadsMember(parts[i], ms[i])
    ensures ReadMembers(Join(parts) + [CLOSE_BRACE] + rest) == Got(ms, rest)
    decreases |parts|
  {
    hide ReadMembers, ReadsMember;
    if |parts| == 1 {
      ReadLastMember(parts[0], ms[0], rest);
      assert ms == [ms[0]];
    } else {
      var tail := Join(parts[1..]) + [CLOSE_BRACE] + rest;
      ReadJoinedMembers(parts[1..], ms[1..], rest);
      ReadNextMember(parts[0], ms[0], tail);
      assert Join(parts) + [CLOSE_BRACE] + rest == parts[0] + [COMMA] + tail;
      assert ms == [ms[0]] + ms[1..];
    }
  }
}
