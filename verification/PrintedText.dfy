/**
 The printed text as a text: it has no lone surrogates, so that it is the text of a string of
 characters, and writing it in UTF-8 for the checksum loses nothing.
 */
module PrintedText {
  import opened CanonicalJson
  import opened Utf16

  /** Every surrogate is half of a pair. */
  predicate WellFormed(t: Text) {
    if t == [] then true
    else if |t| > 1 && IsHigh(t[0]) && IsLow(t[1]) then WellFormed(t[2..])
    else !IsHigh(t[0]) && !IsLow(t[0]) && WellFormed(t[1..])
  }

  lemma EncodeHead(c: char, s: string)
    ensures Encode([c] + s) == EncodeChar(c) + Encode(s)
  {
    assert ([c] + s)[1..] == s;
  }

  lemma DecodePair(t: Text) returns (c: char)
    requires |t| > 1 && IsHigh(t[0]) && IsLow(t[1])
    ensures Decode(t) == [c] + Decode(t[2..]) && EncodeChar(c) == [t[0], t[1]]
  {
    c := Decode(t)[0];
  }

  lemma DecodeUnit(t: Text) returns (c: char)
    requires t != [] && !(|t| > 1 && IsHigh(t[0]) && IsLow(t[1]))
    ensures Decode(t) == [c] + Decode(t[1..])
    ensures EncodeChar(c) == if IsHigh(t[0]) || IsLow(t[0]) then [0xFFFD] else [t[0]]
  {
    c := Decode(t)[0];
  }

  /** A text is the text of a string exactly when it is well formed. */
  lemma {:induction false} WellFormedIff(t: Text)
    ensures Encode(Decode(t)) == t <==> WellFormed(t)
    decreases |t|
  {
    if t != [] {
      hide Encode, Decode, EncodeChar;
      if |t| > 1 && IsHigh(t[0]) && IsLow(t[1]) {
        var c := DecodePair(t);
        WellFormedIff(t[2..]);
        EncodeHead(c, Decode(t[2..]));
        assert t == [t[0], t[1]] + t[2..];
      } else {
        var c := DecodeUnit(t);
        WellFormedIff(t[1..]);
        EncodeHead(c, Decode(t[1..]));
        assert t == [t[0]] + t[1..];
      }
    }
  }

  lemma {:induction false} WellFormedConcat(a: Text, b: Text)
    requires WellFormed(a) && WellFormed(b)
    ensures WellFormed(a + b)
    decreases |a|
  {
    if a == [] {
      assert a + b == b;
    } else {
      var n := if |a| > 1 && IsHigh(a[0]) && IsLow(a[1]) then 2 else 1;
      WellFormedConcat(a[n..], b);
      assert (a + b)[n..] == a[n..] + b;
    }
  }

  lemma {:induction false} PlainIsWellFormed(t: Text)
    requires forall i :: 0 <= i < |t| ==> !IsHigh(t[i]) && !IsLow(t[i])
    ensures WellFormed(t)
    decreases |t|
  {
    if t != [] {
      PlainIsWellFormed(t[1..]);
    }
  }

  lemma {:induction false} QuoteBodyIsWellFormed(s: Text)
    ensures WellFormed(QuoteBody(s))
    decreases |s|
  {
    if s != [] {
      if |s| > 1 && IsHigh(s[0]) && IsLow(s[1]) {
        QuoteBodyIsWellFormed(s[2..]);
        assert (s[..2] + QuoteBody(s[2..]))[2..] == QuoteBody(s[2..]);
      } else {
        QuoteBodyIsWellFormed(s[1..]);
        PlainIsWellFormed(EscapeUnit(s[0]));
        WellFormedConcat(EscapeUnit(s[0]), QuoteBody(s[1..]));
      }
    }
  }

  lemma QuoteIsWellFormed(s: Text)
    ensures WellFormed(Quote(s))
  {
    QuoteBodyIsWellFormed(s);
    PlainIsWellFormed([QUOTE]);
    WellFormedConcat([QUOTE], QuoteBody(s));
    WellFormedConcat([QUOTE] + QuoteBody(s), [QUOTE]);
  }

  lemma {:induction false} JoinIsWellFormed(parts: seq<Text>)
    requires forall i :: 0 <= i < |parts| ==> WellFormed(parts[i])
    ensures WellFormed(Join(parts))
    decreases |parts|
  {
    if |parts| > 1 {
      JoinIsWellFormed(parts[1..]);
      PlainIsWellFormed([COMMA]);
      WellFormedConcat(parts[0], [COMMA]);
      WellFormedConcat(parts[0] + [COMMA], Join(parts[1..]));
    } else if |parts| == 0 {
      assert WellFormed([]);
    }
  }

  lemma BracketedIsWellFormed(open: CodeUnit, body: Text, close: CodeUnit)
    requires WellFormed(body) && !IsHigh(open) && !IsLow(open) && !IsHigh(close) && !IsLow(close)
    ensures WellFormed([open] + body + [close])
  {
    PlainIsWellFormed([open]);
    PlainIsWellFormed([close]);
    WellFormedConcat([open], body);
    WellFormedConcat([open] + body, [close]);
  }

  /** Whatever surrogates the strings and keys of a value hold, its printed text holds pairs alone. */
  lemma {:induction false} PrintedIsWellFormed(v: Json)
    ensures WellFormed(Canonical(v))
    decreases v
  {
    match v
    case Str(s) => QuoteIsWellFormed(s);
    case Arr(items) =>
      var parts := seq(|items|, i requires 0 <= i < |items| =>
        if items[i] == Undefined then [] else Canonical(items[i]));
      forall i | 0 <= i < |parts| ensures WellFormed(parts[i]) {
        PrintedIsWellFormed(items[i]);
      }
      JoinIsWellFormed(parts);
      BracketedIsWellFormed(OPEN_BRACKET, Join(parts), CLOSE_BRACKET);
    case Obj(members) =>
      var ks := SortKeys(Keys(members));
      var parts := seq(|ks|, i requires 0 <= i < |ks| => Quote(ks[i]) + [COLON] + Canonical(Lookup(members, ks[i])));
      forall i | 0 <= i < |parts| ensures WellFormed(parts[i]) {
        MemberIsWellFormed(members, ks[i]);
      }
      JoinIsWellFormed(parts);
      BracketedIsWellFormed(OPEN_BRACE, Join(parts), CLOSE_BRACE);
    case _ => PlainIsWellFormed(Canonical(v));
  }

  lemma {:induction false} MemberIsWellFormed(members: seq<Entry>, k: Text)
    requires k in Keys(members)
    ensures WellFormed(Quote(k) + [COLON] + Canonical(Lookup(members, k)))
    decreases members
  {
    var v := Lookup(members, k);
    var i :| 0 <= i < |members| && members[i] == Entry(k, v);
    PrintedIsWellFormed(v);
    QuoteIsWellFormed(k);
    PlainIsWellFormed([COLON]);
    WellFormedConcat(Quote(k), [COLON]);
    WellFormedConcat(Quote(k) + [COLON], Canonical(v));
  }

  /** So it is the text of a string of characters. */
  lemma PrintedIsString(v: Json)
    ensures Encode(Decode(Canonical(v))) == Canonical(v)
  {
    PrintedIsWellFormed(v);
    WellFormedIff(Canonical(v));
  }

  const LOWER_HEX := "0123456789abcdef"

  /** Escapes are spelled with lower-case digits. */
  lemma HexDigitIs(d: nat)
    requires d < 16
    ensures HexDigit(d) == LOWER_HEX[d] as int
  {
  }

  /**
   Which units are escaped, and how (section 25.5.2.3 of ECMA-262): quote, backslash and five control
   characters by a letter, other control characters and lone surrogates by their number, and nothing else.
   */
  lemma EscapesAre(u: CodeUnit)
    ensures u == 0x22 || u == 0x5C ==> EscapeUnit(u) == [0x5C, u]
    ensures EscapeUnit(0x08) == Encode("\\b") && EscapeUnit(0x09) == Encode("\\t")
    ensures EscapeUnit(0x0A) == Encode("\\n") && EscapeUnit(0x0C) == Encode("\\f")
    ensures EscapeUnit(0x0D) == Encode("\\r")
    ensures EscapeUnit(u) == [u] <==>
      u >= 0x20 && u != 0x22 && u != 0x5C && !(0xD800 <= u < 0xE000)
    ensures |EscapeUnit(u)| == 6 <==>
      (u < 0x20 && !(0x08 <= u <= 0x0A) && !(0x0C <= u <= 0x0D)) || 0xD800 <= u < 0xE000
  {
  }
}
