/** Strings of characters and their UTF-16 code units. */
module Utf16 {
  import opened CanonicalJson
  import opened Schemas

  /** One unit for a character of the first plane, and a pair of surrogates for any other. */
  function EncodeChar(c: char): (t: Text)
    ensures 1 <= |t| <= 2
  {
    var n := c as int;
    if n < 0x1_0000 then [n]
    else [0xD800 + (n - 0x1_0000) / 0x400, 0xDC00 + (n - 0x1_0000) % 0x400]
  }

  function Encode(s: string): Text {
    if s == "" then [] else EncodeChar(s[0]) + Encode(s[1..])
  }

  /** A surrogate without its partner reads as the replacement character. */
  function Decode(t: Text): string {
    if t == [] then ""
    else if |t| > 1 && IsHigh(t[0]) && IsLow(t[1]) then
      var high: int, low: int := t[0] - 0xD800, t[1] - 0xDC00;
      [(0x1_0000 + high * 0x400 + low) as char] + Decode(t[2..])
    else if IsHigh(t[0]) || IsLow(t[0]) then "\U{FFFD}" + Decode(t[1..])
    else [t[0] as char] + Decode(t[1..])
  }

  lemma {:induction false} DecodeEncode(s: string)
    ensures Decode(Encode(s)) == s
  {
    if s != "" {
      var head, tail := EncodeChar(s[0]), Encode(s[1..]);
      DecodeEncode(s[1..]);
      var t := head + tail;
      assert t[|head|..] == tail;
      assert s == [s[0]] + s[1..];
    }
  }

  /** A name in ASCII letters has one unit for each of them. */
  lemma {:induction false} EncodeName(name: Name)
    ensures Encode(name) == Units(name)
  {
    if name != [] {
      EncodeName(name[1..]);
      assert Units(name) == [name[0] as int] + Units(name[1..]);
    }
  }
}
