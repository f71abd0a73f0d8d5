/**
 Exporting a payload to a backup file and accepting it again: the trip of a value through
 JSON text, the checksum over the canonical form, and the password-protected variant.
 SHA-256, the cipher and the string functions of the runtime are parameters.
 */
module BackupFile {
  import opened FiniteSets
  import opened Prelude
  import opened CanonicalJson
  import opened CanonicalProofs
  import opened JsonReader

  // ---------------------------------------------------------------- undefined does not travel

  /** What JSON.stringify followed by JSON.parse makes of a value. */
  function Sent(v: Json): Json
    decreases v, 1
  {
    match v
    case Arr(items) =>
      Arr(seq(|items|, i requires 0 <= i < |items| =>
        if items[i] == Undefined then Null else Sent(items[i])))
    case Obj(members) => Obj(SentMembers(members))
    case _ => v
  }

  function SentMembers(ms: seq<Entry>): seq<Entry>
    decreases ms, 0
  {
    if ms == [] then []
    else if ms[0].value == Undefined then SentMembers(ms[1..])
    else [Entry(ms[0].key, Sent(ms[0].value))] + SentMembers(ms[1..])
  }

  lemma {:induction false} SentUnchanged(v: Json)
    requires Defined(v)
    ensures Sent(v) == v
    decreases v, 1
  {
    match v
    case Arr(items) =>
      forall i | 0 <= i < |items| ensures Sent(items[i]) == items[i] && items[i] != Undefined {
        SentUnchanged(items[i]);
      }
    case Obj(members) => SentMembersUnchanged(members);
    case _ =>
  }

  lemma {:induction false} SentMembersUnchanged(ms: seq<Entry>)
    requires forall i :: 0 <= i < |ms| ==> Defined(ms[i].value)
    ensures SentMembers(ms) == ms
    decreases ms, 0
  {
    if ms != [] {
      SentUnchanged(ms[0].value);
      SentMembersUnchanged(ms[1..]);
      assert ms == [ms[0]] + ms[1..];
    }
  }

  lemma {:induction false} SentIsDefined(v: Json)
    requires v != Undefined
    ensures Defined(Sent(v))
    decreases v, 1
  {
    match v
    case Arr(items) =>
      forall i | 0 <= i < |items| ensures Defined(Sent(v).items[i]) {
        if items[i] != Undefined {
          SentIsDefined(items[i]);
        }
      }
    case Obj(members) => SentMembersAreDefined(members);
    case _ =>
  }

  lemma {:induction false} SentMembersAreDefined(ms: seq<Entry>)
    ensures forall i :: 0 <= i < |SentMembers(ms)| ==> Defined(SentMembers(ms)[i].value)
    decreases ms, 0
  {
    if ms != [] {
      SentMembersAreDefined(ms[1..]);
      if ms[0].value != Undefined {
        SentIsDefined(ms[0].value);
      }
    }
  }

  lemma KeysCons(m: Entry, ms: seq<Entry>)
    ensures Keys([m] + ms) == [m.key] + Keys(ms)
    ensures NoRepeats(Keys([m] + ms)) <==> NoRepeats(Keys(ms)) && m.key !in Keys(ms)
  {
    var ks := Keys([m] + ms);
    assert ks == [m.key] + Keys(ms);
    assert forall i :: 0 <= i < |ms| ==> ks[i + 1] == Keys(ms)[i];
    if m.key in Keys(ms) {
      var i :| 0 <= i < |ms| && Keys(ms)[i] == m.key;
      assert ks[0] == ks[i + 1];
    }
    if NoRepeats(ks) {
      forall i, j | 0 <= i < j < |ms| ensures Keys(ms)[i] != Keys(ms)[j] {
        assert ks[i + 1] != ks[j + 1];
      }
    }
  }

  lemma LookupCons(m: Entry, ms: seq<Entry>, k: Text)
    requires k == m.key || k in Keys(ms)
    ensures k in Keys([m] + ms)
    ensures Lookup([m] + ms, k) == if k == m.key then m.value else Lookup(ms, k)
  {
    KeysCons(m, ms);
    assert ([m] + ms)[1..] == ms;
  }

  lemma {:induction false} SentKeys(ms: seq<Entry>, k: Text)
    requires NoRepeats(Keys(ms))
    ensures k in Keys(SentMembers(ms)) <==> k in Keys(ms) && Lookup(ms, k) != Undefined
    ensures k in Keys(SentMembers(ms)) ==> Lookup(SentMembers(ms), k) == Sent(Lookup(ms, k))
    decreases |ms|
  {
    if ms != [] {
      var m, tail := ms[0], ms[1..];
      assert ms == [m] + tail;
      KeysCons(m, tail);
      SentKeys(tail, k);
      if k == m.key || k in Keys(tail) {
        LookupCons(m, tail, k);
      }
      if m.value != Undefined {
        var sent := Entry(m.key, Sent(m.value));
        KeysCons(sent, SentMembers(tail));
        if k == m.key || k in Keys(SentMembers(tail)) {
          LookupCons(sent, SentMembers(tail), k);
        }
      }
    }
  }

  lemma {:induction false} SentKeysDistinct(ms: seq<Entry>)
    requires NoRepeats(Keys(ms))
    ensures NoRepeats(Keys(SentMembers(ms)))
    decreases |ms|
  {
    if ms != [] {
      var m, tail := ms[0], ms[1..];
      assert ms == [m] + tail;
      KeysCons(m, tail);
      SentKeysDistinct(tail);
      SentKeys(tail, m.key);
      if m.value != Undefined {
        KeysCons(Entry(m.key, Sent(m.value)), SentMembers(tail));
      }
    }
  }

  // ---------------------------------------------------------------- a text with a hole in it

  /** An item that is missing or misread spoils the list that starts with it. */
  lemma BadFirstItem(c: Text, v: Json, after: Text, vs: seq<Json>, r: Text)
    requires c == [] || NeverReads(c, v)
    requires after != [] && (after[0] == COMMA || after[0] == CLOSE_BRACKET)
    ensures ReadItems(c + after) != Got([v] + vs, r)
  {
    if c == [] {
      assert c + after == after;
      NoValueStartsWith(after);
    } else {
      if ReadItems(c + after).Got? {
        var first := ReadValue(c + after);
        assert first == Got(first.value, first.rest);
        assert first.value != v;
        assert ReadItems(c + after).value[0] == first.value;
        assert ([v] + vs)[0] == v;
      }
    }
  }

  /** A list of items one of which is missing or misread is not read as the expected list. */
  lemma {:induction false} JoinedItemsNeverRead(parts: seq<Text>, vs: seq<Json>, rest: Text, r: Text)
    requires |parts| == |vs| > 0
    requires forall i :: 0 <= i < |vs| ==> parts[i] == [] || Reads(parts[i], vs[i]) || NeverReads(parts[i], vs[i])
    requires exists i :: 0 <= i < |vs| && (parts[i] == [] || NeverReads(parts[i], vs[i]))
    ensures ReadItems(Join(parts) + [CLOSE_BRACKET] + rest) != Got(vs, r)
    decreases |parts|
  {
    hide ReadItems, ReadValue, Reads, NeverReads;
    var closed := [CLOSE_BRACKET] + rest;
    assert vs == [vs[0]] + vs[1..];
    if |parts| == 1 {
      Assoc(parts[0], [CLOSE_BRACKET], rest);
      BadFirstItem(parts[0], vs[0], closed, vs[1..], r);
    } else {
      var tail := Join(parts[1..]) + [CLOSE_BRACKET] + rest;
      assert Join(parts) + [CLOSE_BRACKET] + rest == parts[0] + ([COMMA] + tail);
      if parts[0] == [] || NeverReads(parts[0], vs[0]) {
        BadFirstItem(parts[0], vs[0], [COMMA] + tail, vs[1..], r);
      } else {
        JoinedItemsNeverRead(parts[1..], vs[1..], rest, r);
        ReadNextItem(parts[0], vs[0], tail);
        Assoc(parts[0], [COMMA], tail);
        GotTail(ReadItems(tail), vs, r);
      }
    }
  }

  lemma GotTail<T>(q: Read<seq<T>>, vs: seq<T>, r: Text)
    requires vs != [] && q != Got(vs[1..], r)
    ensures (match q case Fail => Fail case Got(ws, x) => Got([vs[0]] + ws, x)) != Got(vs, r)
  {
    if q.Got? && [vs[0]] + q.value == vs {
      assert q.value == vs[1..];
    }
  }

  /** The members that are expected to be read: those that are not undefined. */
  function Expected(ks: seq<Text>, ws: seq<Json>): seq<Entry>
    requires |ks| == |ws|
  {
    if ks == [] then []
    else if ws[0] == Undefined then Expected(ks[1..], ws[1..])
    else [Entry(ks[0], ws[0])] + Expected(ks[1..], ws[1..])
  }

  predicate Misread(c: Text, w: Json) {
    w == Undefined && c == UNDEFINED_TEXT
  }

  lemma BadFirstMember(k: Text, c: Text, w: Json, after: Text, ms: seq<Entry>, r: Text)
    requires Misread(c, w) || (w != Undefined && NeverReads(c, w))
    ensures w == Undefined ==> ReadMembers(MemberText(k, c) + after) == Fail
    ensures w != Undefined ==> ReadMembers(MemberText(k, c) + after) != Got([Entry(k, w)] + ms, r)
  {
    ReadMemberText(k, c, after);
    if w == Undefined {
      assert (c + after)[0] == LETTER_U;
      NoValueStartsWith(c + after);
    } else {
      if ReadMembers(MemberText(k, c) + after).Got? {
        var first := ReadValue(c + after);
        assert first == Got(first.value, first.rest);
        assert first.value != w;
        assert ReadMembers(MemberText(k, c) + after).value[0] == Entry(k, first.value);
        assert ([Entry(k, w)] + ms)[0] == Entry(k, w);
      }
    }
  }

  /** A list of members one of which is undefined or misread is not read as the expected list. */
  lemma {:induction false} JoinedMembersNeverRead(
    parts: seq<Text>, ks: seq<Text>, cs: seq<Text>, ws: seq<Json>, rest: Text, r: Text)
    requires |parts| == |ks| == |cs| == |ws| > 0
    requires forall i :: 0 <= i < |ks| ==> parts[i] == MemberText(ks[i], cs[i])
    requires forall i :: 0 <= i < |ks| ==>
      if ws[i] == Undefined then Misread(cs[i], ws[i]) else Reads(cs[i], ws[i]) || NeverReads(cs[i], ws[i])
    requires exists i :: 0 <= i < |ks| && (ws[i] == Undefined || NeverReads(cs[i], ws[i]))
    ensures ReadMembers(Join(parts) + [CLOSE_BRACE] + rest) != Got(Expected(ks, ws), r)
    decreases |parts|
  {
    var closed := [CLOSE_BRACE] + rest;
    if |parts| == 1 {
      Assoc(parts[0], [CLOSE_BRACE], rest);
      BadFirstMember(ks[0], cs[0], ws[0], closed, Expected(ks[1..], ws[1..]), r);
    } else {
      var tail := Join(parts[1..]) + [CLOSE_BRACE] + rest;
      assert Join(parts) + [CLOSE_BRACE] + rest == parts[0] + ([COMMA] + tail);
      if ws[0] == Undefined || NeverReads(cs[0], ws[0]) {
        BadFirstMember(ks[0], cs[0], ws[0], [COMMA] + tail, Expected(ks[1..], ws[1..]), r);
      } else {
        var m := Entry(ks[0], ws[0]);
        JoinedMembersNeverRead(parts[1..], ks[1..], cs[1..], ws[1..], rest, r);
        assert ReadsMember(parts[0], m);
        ReadNextMember(parts[0], m, tail);
        Assoc(parts[0], [COMMA], tail);
        assert Expected(ks, ws)[1..] == Expected(ks[1..], ws[1..]);
        GotTail(ReadMembers(tail), Expected(ks, ws), r);
      }
    }
  }

  // ---------------------------------------------------------------- which values survive

  lemma ArrayNeverReads(parts: seq<Text>, vs: seq<Json>)
    requires |parts| == |vs| > 0
    requires forall i :: 0 <= i < |vs| ==> parts[i] == [] || Reads(parts[i], vs[i]) || NeverReads(parts[i], vs[i])
    requires exists i :: 0 <= i < |vs| && (parts[i] == [] || NeverReads(parts[i], vs[i]))
    ensures NeverReads([OPEN_BRACKET] + Join(parts) + [CLOSE_BRACKET], Arr(vs))
  {
    var c := [OPEN_BRACKET] + Join(parts) + [CLOSE_BRACKET];
    forall rest: Text, r: Text ensures ReadValue(c + rest) != Got(Arr(vs), r) {
      Bracketed(OPEN_BRACKET, Join(parts), CLOSE_BRACKET, rest);
      ReadArray(Join(parts) + [CLOSE_BRACKET] + rest);
      JoinedItemsNeverRead(parts, vs, rest, r);
    }
  }

  lemma ObjectNeverReads(parts: seq<Text>, ks: seq<Text>, cs: seq<Text>, ws: seq<Json>)
    requires |parts| == |ks| == |cs| == |ws| > 0
    requires forall i :: 0 <= i < |ks| ==> parts[i] == MemberText(ks[i], cs[i])
    requires forall i :: 0 <= i < |ks| ==>
      if ws[i] == Undefined then Misread(cs[i], ws[i]) else Reads(cs[i], ws[i]) || NeverReads(cs[i], ws[i])
    requires exists i :: 0 <= i < |ks| && (ws[i] == Undefined || NeverReads(cs[i], ws[i]))
    ensures NeverReads([OPEN_BRACE] + Join(parts) + [CLOSE_BRACE], Obj(Expected(ks, ws)))
  {
    var c := [OPEN_BRACE] + Join(parts) + [CLOSE_BRACE];
    forall rest: Text, r: Text ensures ReadValue(c + rest) != Got(Obj(Expected(ks, ws)), r) {
      Bracketed(OPEN_BRACE, Join(parts), CLOSE_BRACE, rest);
      var inner := Join(parts) + [CLOSE_BRACE] + rest;
      ReadObject(inner);
      JoinedMembersNeverRead(parts, ks, cs, ws, rest, r);
      assert Join(parts)[0] == parts[0][0] == QUOTE;
      assert inner[0] == QUOTE;
    }
  }

  lemma {:induction false} ExpectedKeys(ks: seq<Text>, ws: seq<Json>, k: Text)
    requires |ks| == |ws|
    ensures k in Keys(Expected(ks, ws)) <==> exists i :: 0 <= i < |ks| && ks[i] == k && ws[i] != Undefined
    decreases |ks|
  {
    if ks != [] {
      ExpectedKeys(ks[1..], ws[1..], k);
      if ws[0] != Undefined {
        KeysCons(Entry(ks[0], ws[0]), Expected(ks[1..], ws[1..]));
      }
      assert forall i :: 0 <= i < |ks| - 1 ==> ks[1..][i] == ks[i + 1] && ws[1..][i] == ws[i + 1];
      if k in Keys(Expected(ks[1..], ws[1..])) {
        var i :| 0 <= i < |ks[1..]| && ks[1..][i] == k && ws[1..][i] != Undefined;
        assert ks[i + 1] == k && ws[i + 1] != Undefined;
      }
      if i :| 0 <= i < |ks| && ks[i] == k && ws[i] != Undefined {
        if i > 0 {
          assert ks[1..][i - 1] == k && ws[1..][i - 1] != Undefined;
        }
      }
    }
  }

  lemma ConsAscending(k: Text, ks: seq<Text>)
    requires Ascending(ks) && forall j :: 0 <= j < |ks| ==> Before(k, ks[j])
    ensures Ascending([k] + ks)
  {
  }

  lemma {:induction false} ExpectedAt(ks: seq<Text>, ws: seq<Json>, j: nat) returns (i: nat)
    requires |ks| == |ws| && j < |Expected(ks, ws)|
    ensures i < |ks| && Expected(ks, ws)[j] == Entry(ks[i], ws[i])
    decreases |ks|
  {
    if ws[0] == Undefined {
      i := ExpectedAt(ks[1..], ws[1..], j);
      i := i + 1;
    } else if j == 0 {
      i := 0;
    } else {
      i := ExpectedAt(ks[1..], ws[1..], j - 1);
      i := i + 1;
    }
  }

  lemma {:induction false} ExpectedAscending(ks: seq<Text>, ws: seq<Json>)
    requires |ks| == |ws| && Ascending(ks)
    ensures Ascending(Keys(Expected(ks, ws)))
    decreases |ks|
  {
    if ks != [] {
      var es := Expected(ks[1..], ws[1..]);
      ExpectedAscending(ks[1..], ws[1..]);
      if ws[0] != Undefined {
        forall j | 0 <= j < |es| ensures Before(ks[0], Keys(es)[j]) {
          var i := ExpectedAt(ks[1..], ws[1..], j);
          assert Keys(es)[j] == ks[i + 1];
        }
        KeysCons(Entry(ks[0], ws[0]), es);
        ConsAscending(ks[0], Keys(es));
      }
    }
  }

  /** The values, in sorted key order, that the text of an object is expected to denote once sent. */
  function SentValues(ms: seq<Entry>): seq<Json> {
    var ks := SortKeys(Keys(ms));
    seq(|ks|, i requires 0 <= i < |ks| => Sorted(Sent(Lookup(ms, ks[i]))))
  }

  lemma SentValueAt(ms: seq<Entry>, i: nat)
    requires i < |SortKeys(Keys(ms))|
    ensures SentValues(ms)[i] == Sorted(Sent(Lookup(ms, SortKeys(Keys(ms))[i])))
  {
  }

  lemma SentKeyIff(ms: seq<Entry>, k: Text)
    requires NoRepeats(Keys(ms))
    ensures k in SortKeys(Keys(SentMembers(ms))) <==> k in Keys(Expected(SortKeys(Keys(ms)), SentValues(ms)))
  {
    hide Expected, SentMembers, Keys, SortKeys;
    var ks, ws := SortKeys(Keys(ms)), SentValues(ms);
    SentKeys(ms, k);
    ExpectedKeys(ks, ws, k);
    if k in Keys(ms) {
      var i :| 0 <= i < |ks| && ks[i] == k;
      SentValueAt(ms, i);
    }
  }

  lemma SortedSentKeys(ms: seq<Entry>)
    requires NoRepeats(Keys(ms))
    ensures SortKeys(Keys(SentMembers(ms))) == Keys(Expected(SortKeys(Keys(ms)), SentValues(ms)))
  {
    var ks, ws := SortKeys(Keys(ms)), SentValues(ms);
    var ks' := SortKeys(Keys(SentMembers(ms)));
    SortAscending(Keys(ms));
    ExpectedAscending(ks, ws);
    SentKeysDistinct(ms);
    SortAscending(Keys(SentMembers(ms)));
    hide *;
    forall k ensures k in ks' <==> k in Keys(Expected(ks, ws)) {
      SentKeyIff(ms, k);
    }
    AscendingUnique(ks', Keys(Expected(ks, ws)));
  }

  lemma SortedSentValue(ms: seq<Entry>, j: nat)
    requires NoRepeats(Keys(ms))
    requires j < |Expected(SortKeys(Keys(ms)), SentValues(ms))|
    ensures var e := Expected(SortKeys(Keys(ms)), SentValues(ms))[j];
      e.key in Keys(SentMembers(ms)) && e.value == Sorted(Lookup(SentMembers(ms), e.key))
  {
    var ks, ws := SortKeys(Keys(ms)), SentValues(ms);
    var e := Expected(ks, ws)[j];
    var i := ExpectedAt(ks, ws, j);
    SentValueAt(ms, i);
    assert Keys(Expected(ks, ws))[j] == e.key;
    ExpectedKeys(ks, ws, e.key);
    SortedSentKeys(ms);
    assert e.key in SortKeys(Keys(SentMembers(ms)));
    SentKeys(ms, e.key);
  }

  lemma SortedSent(ms: seq<Entry>)
    requires NoRepeats(Keys(ms))
    ensures Sorted(Sent(Obj(ms))) == Obj(Expected(SortKeys(Keys(ms)), SentValues(ms)))
  {
    var es := Expected(SortKeys(Keys(ms)), SentValues(ms));
    var sent := SentMembers(ms);
    SortedSentKeys(ms);
    var ks' := SortKeys(Keys(sent));
    var ms' := seq(|ks'|, j requires 0 <= j < |ks'| => Entry(ks'[j], Sorted(Lookup(sent, ks'[j]))));
    forall j | 0 <= j < |ks'| ensures ms'[j] == es[j] {
      SortedSentValue(ms, j);
    }
    assert ms' == es;
  }

  /** A value with an undefined part prints as a text that never denotes what JSON would have sent. */
  lemma {:induction false} UndefinedNeverReads(v: Json)
    requires Valid(v) && v != Undefined && !Defined(v)
    ensures NeverReads(Canonical(v), Sorted(Sent(v)))
    decreases v, 0
  {
    hide Reads, NeverReads, Quote, SortKeys, Join;
    match v
    case Arr(items) =>
      var parts := seq(|items|, i requires 0 <= i < |items| =>
        if items[i] == Undefined then [] else Canonical(items[i]));
      var vs := Sorted(Sent(v)).items;
      forall i | 0 <= i < |items|
        ensures parts[i] == [] || Reads(parts[i], vs[i]) || NeverReads(parts[i], vs[i])
        ensures !Defined(items[i]) ==> parts[i] == [] || NeverReads(parts[i], vs[i])
      {
        if items[i] != Undefined {
          ReadBackOrNever(items[i]);
        }
      }
      assert Sorted(Sent(v)) == Arr(vs);
      ArrayNeverReads(parts, vs);
    case Obj(members) =>
      var ks := SortKeys(Keys(members));
      var cs := seq(|ks|, i requires 0 <= i < |ks| => Canonical(Lookup(members, ks[i])));
      var parts := seq(|ks|, i requires 0 <= i < |ks| =>
        Quote(ks[i]) + [COLON] + Canonical(Lookup(members, ks[i])));
      var ws := SentValues(members);
      forall i | 0 <= i < |ks|
        ensures parts[i] == MemberText(ks[i], cs[i])
        ensures if ws[i] == Undefined then Misread(cs[i], ws[i]) else Reads(cs[i], ws[i]) || NeverReads(cs[i], ws[i])
        ensures !Defined(Lookup(members, ks[i])) ==> ws[i] == Undefined || NeverReads(cs[i], ws[i])
      {
        var w := Lookup(members, ks[i]);
        if w != Undefined {
          ReadBackOrNever(w);
        }
      }
      var j :| 0 <= j < |members| && !Defined(members[j].value);
      LookupAt(members, j);
      assert Keys(members)[j] in ks;
      var i :| 0 <= i < |ks| && ks[i] == members[j].key;
      assert ws[i] == Undefined || NeverReads(cs[i], ws[i]);
      ObjectNeverReads(parts, ks, cs, ws);
      SortedSent(members);
  }

  lemma {:induction false} LookupAt(ms: seq<Entry>, j: nat)
    requires NoRepeats(Keys(ms)) && j < |ms|
    ensures ms[j].key in Keys(ms)
    ensures Lookup(ms, ms[j].key) == ms[j].value
    decreases j
  {
    assert Keys(ms)[j] == ms[j].key;
    var i :| 0 <= i < |ms| && ms[i] == Entry(ms[j].key, Lookup(ms, ms[j].key));
    assert Keys(ms)[i] == Keys(ms)[j];
  }

  lemma {:induction false} ReadBackOrNever(v: Json)
    requires Valid(v) && v != Undefined
    ensures Defined(v) ==> Reads(Canonical(v), Sorted(Sent(v)))
    ensures !Defined(v) ==> NeverReads(Canonical(v), Sorted(Sent(v)))
    decreases v, 1
  {
    if Defined(v) {
      SentUnchanged(v);
      ReadBack(v);
    } else {
      UndefinedNeverReads(v);
    }
  }

  /**
   The printed form of a value survives the trip through a JSON file exactly when
   no part of the value is undefined.
   */
  lemma PrintSurvivesIffDefined(v: Json)
    requires Valid(v) && v != Undefined
    ensures Canonical(Sent(v)) == Canonical(v) <==> Defined(v)
  {
    if Defined(v) {
      SentUnchanged(v);
    } else {
      UndefinedNeverReads(v);
      SentIsDefined(v);
      ReadBack(Sent(v));
      assert ReadValue(Canonical(Sent(v)) + []) == Got(Sorted(Sent(v)), []);
      assert ReadValue(Canonical(v) + []) != Got(Sorted(Sent(v)), []);
    }
  }

  /** Sorting the keys of a value gives an equal value, up to the order of keys. */
  lemma {:induction false} SortedIsSame(v: Json)
    requires Valid(v)
    ensures Same(v, Sorted(v))
    decreases v
  {
    match v
    case Arr(items) =>
      forall i | 0 <= i < |items| ensures Same(items[i], Sorted(v).items[i]) {
        SortedIsSame(items[i]);
      }
    case Obj(members) =>
      var ks := SortKeys(Keys(members));
      var ms := Sorted(v).members;
      assert Keys(ms) == ks;
      forall k | k in Keys(members) ensures Same(Lookup(members, k), Lookup(ms, k)) {
        SortedIsSame(Lookup(members, k));
        var i :| 0 <= i < |ms| && ms[i] == Entry(k, Lookup(ms, k));
        assert ms[i] == Entry(ks[i], Sorted(Lookup(members, ks[i])));
      }
    case _ =>
  }

  // ---------------------------------------------------------------- the file

  /** The parts of the runtime that the file format relies on. */
  datatype Runtime = Runtime(
    sha256: Text -> Text,
    toLowerCase: Text -> Text,
    trim: Text -> Text,
    encrypt: (Text, Text) -> Text,
    decrypt: (Text, Text) -> Option<Text>,
    schema: Json -> Option<Json>)                           // what the schema of the data makes of a value

  /** What is deciphered with the password of the cipher is the plaintext. */
  ghost predicate CipherLaw(rt: Runtime) {
    forall plaintext, password :: rt.decrypt(rt.encrypt(plaintext, password), password) == Some(plaintext)
  }

  /** Distinct texts have distinct checksums. */
  ghost predicate CollisionFree(rt: Runtime) {
    forall x, y :: rt.toLowerCase(rt.sha256(x)) == rt.toLowerCase(rt.sha256(y)) ==> x == y
  }

  /** The schema takes a value as it is, but for the order of keys. */
  ghost predicate Takes(rt: Runtime, v: Json) {
    var taken := rt.schema(v);
    taken.Some? && Valid(taken.value) && Defined(taken.value) && Same(v, taken.value)
  }

  /** The ciphertext stands for itself and its parameters; it is None when one of them is missing or empty. */
  datatype File = File(isEncrypted: bool, checksum: Text, ciphertext: Option<Text>, data: Option<Json>)

  datatype FileError = PasswordRequired | SchemaInvalid | FormatInvalid | ChecksumInvalid | PasswordInvalid | EmptyData

  /** exportBackup, from the payload on. */
  function Export(rt: Runtime, payload: Json, password: Option<Text>): File {
    var text := Canonical(payload);
    if password.Some? && |rt.trim(password.value)| >= 6 then
      var ciphertext := rt.encrypt(text, rt.trim(password.value));
      File(true, rt.sha256(ciphertext), Some(ciphertext), None)
    else
      File(false, rt.sha256(text), None, Some(payload))
  }

  /** The file after it was written as JSON and read again. */
  function SentFile(file: File): File {
    file.(data := if file.data.Some? then Some(Sent(file.data.value)) else None)
  }

  function VerifySha256(rt: Runtime, content: Text, checksum: Text): bool {
    rt.toLowerCase(rt.sha256(content)) == rt.toLowerCase(checksum)
  }

  /** The value that a protected file holds. */
  function Opened(rt: Runtime, file: File, password: Option<Text>): Result<Json, FileError> {
    if password.None? || rt.trim(password.value) == [] then Err(PasswordRequired)
    else if file.ciphertext.None? then Err(FormatInvalid)
    else if !VerifySha256(rt, file.ciphertext.value, file.checksum) then Err(ChecksumInvalid)
    else
      match rt.decrypt(file.ciphertext.value, rt.trim(password.value))
      case None => Err(PasswordInvalid)
      case Some(text) =>
        var parsed := ReadValue(text);
        if parsed.Got? && parsed.rest == [] then Ok(parsed.value) else Err(FormatInvalid)
  }

  /** What the schema makes of a value. */
  function Validated(rt: Runtime, v: Json): Result<Json, FileError> {
    match rt.schema(v)
    case None => Err(SchemaInvalid)
    case Some(taken) => Ok(taken)
  }

  /**
   parseAndValidateBackupFile, from the parsed file on. The checksum of an unprotected file is that of
   what the schema makes of its data.
   */
  function Accept(rt: Runtime, file: File, password: Option<Text>): Result<Json, FileError> {
    if file.isEncrypted then
      match Opened(rt, file, password)
      case Err(e) => Err(e)
      case Ok(v) => Validated(rt, v)
    else if file.data.None? then Err(EmptyData)
    else
      match Validated(rt, file.data.value)
      case Err(e) => Err(e)
      case Ok(data) => if VerifySha256(rt, Canonical(data), file.checksum) then Ok(data) else Err(ChecksumInvalid)
  }

  /**
   An unprotected export is refused when the schema refuses what is sent. Otherwise, without undefined
   parts in the payload, it is accepted exactly when the schema leaves the payload as it is, up to key
   order; and with an undefined part it is refused, if the schema leaves as it is what is sent.
   */
  lemma PlainExportAccepted(rt: Runtime, payload: Json, exportPassword: Option<Text>, importPassword: Option<Text>)
    requires CollisionFree(rt) && Valid(payload) && payload != Undefined
    requires exportPassword.None? || |rt.trim(exportPassword.value)| < 6
    ensures var r := Accept(rt, SentFile(Export(rt, payload, exportPassword)), importPassword);
      var taken := rt.schema(Sent(payload));
      && (taken.None? ==> r == Err(SchemaInvalid))
      && (taken.Some? && Defined(payload) && Valid(taken.value) && Defined(taken.value) ==>
            r == if Same(payload, taken.value) then Ok(taken.value) else Err(ChecksumInvalid))
      && (Takes(rt, Sent(payload)) && !Defined(payload) ==> r == Err(ChecksumInvalid))
  {
    var taken := rt.schema(Sent(payload));
    SentIsValid(payload);
    SentIsDefined(payload);
    PrintSurvivesIffDefined(payload);
    if Defined(payload) {
      SentUnchanged(payload);
      if taken.Some? && Valid(taken.value) && Defined(taken.value) {
        PrintsAlikeIffSame(payload, taken.value);
      }
    } else if Takes(rt, Sent(payload)) {
      SamePrintsAlike(Sent(payload), taken.value);
    }
  }

  lemma {:induction false} SentIsValid(v: Json)
    requires Valid(v)
    ensures Valid(Sent(v))
    decreases v, 1
  {
    match v
    case Arr(items) =>
      forall i | 0 <= i < |items| ensures Valid(Sent(v).items[i]) {
        SentIsValid(items[i]);
      }
    case Obj(members) =>
      SentKeysDistinct(members);
      SentMembersAreValid(members);
    case _ =>
  }

  lemma {:induction false} SentMembersAreValid(ms: seq<Entry>)
    requires forall i :: 0 <= i < |ms| ==> Valid(ms[i].value)
    ensures forall i :: 0 <= i < |SentMembers(ms)| ==> Valid(SentMembers(ms)[i].value)
    decreases ms, 0
  {
    if ms != [] {
      SentIsValid(ms[0].value);
      SentMembersAreValid(ms[1..]);
    }
  }

  /**
   An unprotected file is accepted exactly when what the schema makes of its data, unknown fields
   being dropped, equals the checksummed data up to key order.
   */
  lemma TamperedDataRejected(rt: Runtime, original: Json, data: Json, taken: Json, password: Option<Text>)
    requires CollisionFree(rt) && Valid(original) && Defined(original)
    requires rt.schema(data) == Some(taken) && Valid(taken) && Defined(taken)
    ensures var file := File(false, rt.sha256(Canonical(original)), None, Some(data));
      Accept(rt, file, password) == if Same(original, taken) then Ok(taken) else Err(ChecksumInvalid)
  {
    PrintsAlikeIffSame(original, taken);
  }

  lemma {:induction false} SortedIsValid(v: Json)
    requires Valid(v)
    ensures Valid(Sorted(v))
    decreases v
  {
    match v
    case Arr(items) =>
      forall i | 0 <= i < |items| ensures Valid(Sorted(v).items[i]) {
        SortedIsValid(items[i]);
      }
    case Obj(members) =>
      var ks, ms := SortKeys(Keys(members)), Sorted(v).members;
      SortAscending(Keys(members));
      forall i, j | 0 <= i < j < |ks| ensures ks[i] != ks[j] {
        BeforeIrreflexive(ks[i]);
      }
      assert Keys(ms) == ks;
      forall i | 0 <= i < |ms| ensures Valid(ms[i].value) {
        var w := Lookup(members, ks[i]);
        SortedIsValid(w);
        assert ms[i].value == Sorted(w);
      }
    case _ =>
  }

  /** A protected file gives back the payload, with its keys sorted, exactly when no part of it is undefined. */
  lemma ProtectedOpensIff(rt: Runtime, payload: Json, exportPassword: Text, importPassword: Text)
    requires CipherLaw(rt) && Valid(payload) && payload != Undefined
    requires |rt.trim(exportPassword)| >= 6 && rt.trim(importPassword) == rt.trim(exportPassword)
    ensures var r := Opened(rt, SentFile(Export(rt, payload, Some(exportPassword))), Some(importPassword));
      r == Ok(Sorted(Sent(payload))) <==> Defined(payload)
  {
    var text := Canonical(payload);
    assert rt.decrypt(rt.encrypt(text, rt.trim(exportPassword)), rt.trim(importPassword)) == Some(text);
    assert text + [] == text;
    if Defined(payload) {
      SentUnchanged(payload);
      ReadBack(payload);
      assert ReadValue(text + []) == Got(Sorted(payload), []);
    } else {
      UndefinedNeverReads(payload);
      assert ReadValue(text + []) != Got(Sorted(Sent(payload)), []);
    }
  }

  /**
   A protected export without undefined parts, opened with the same password up to surrounding white
   space, comes to what the schema makes of the payload with its keys sorted.
   */
  lemma ProtectedExportAccepted(rt: Runtime, payload: Json, exportPassword: Text, importPassword: Text)
    requires CipherLaw(rt) && Valid(payload) && Defined(payload)
    requires |rt.trim(exportPassword)| >= 6 && rt.trim(importPassword) == rt.trim(exportPassword)
    ensures Accept(rt, SentFile(Export(rt, payload, Some(exportPassword))), Some(importPassword))
         == Validated(rt, Sorted(payload))
    ensures Valid(Sorted(payload)) && Same(payload, Sorted(payload))
  {
    ProtectedOpensIff(rt, payload, exportPassword, importPassword);
    SentUnchanged(payload);
    SortedIsSame(payload);
    SortedIsValid(payload);
  }

  /** A protected file whose ciphertext is not the one that was exported is refused for its checksum. */
  lemma TamperedCiphertextRejected(rt: Runtime, payload: Json, exportPassword: Text, ciphertext: Text, password: Text)
    requires CollisionFree(rt) && |rt.trim(exportPassword)| >= 6 && rt.trim(password) != []
    ensures var file := Export(rt, payload, Some(exportPassword));
      ciphertext != file.ciphertext.value ==>
      Accept(rt, file.(ciphertext := Some(ciphertext)), Some(password)) == Err(ChecksumInvalid)
  {
    hide Canonical;
  }

  /** What is answered to any protected file, from the first check to the last. */
  lemma ProtectedAnswers(rt: Runtime, file: File, password: Option<Text>)
    requires file.isEncrypted
    ensures var (r, given) := (Accept(rt, file, password), password.Some? && rt.trim(password.value) != []);
      && (r == Err(PasswordRequired) <==> !given)
      && (given && file.ciphertext.None? ==> r == Err(FormatInvalid))
      && (given && file.ciphertext.Some? ==>
            var intact := rt.toLowerCase(rt.sha256(file.ciphertext.value)) == rt.toLowerCase(file.checksum);
            var text := rt.decrypt(file.ciphertext.value, rt.trim(password.value));
            && (r == Err(ChecksumInvalid) <==> !intact)
            && (r == Err(PasswordInvalid) <==> intact && text.None?)
            && (intact && text.Some? ==>
                  && (r == Err(FormatInvalid) <==> forall v :: ReadValue(text.value) != Got(v, []))
                  && forall v :: ReadValue(text.value) == Got(v, []) ==>
                       r == if rt.schema(v).Some? then Ok(rt.schema(v).value) else Err(SchemaInvalid)))
  {
    hide ReadValue;
  }

  /** And to any unprotected one. */
  lemma PlainAnswers(rt: Runtime, file: File, password: Option<Text>)
    requires !file.isEncrypted
    ensures var r := Accept(rt, file, password);
      && (r == Err(EmptyData) <==> file.data.None?)
      && (r == Err(SchemaInvalid) <==> file.data.Some? && rt.schema(file.data.value).None?)
      && (file.data.Some? && rt.schema(file.data.value).Some? ==>
            var data := rt.schema(file.data.value).value;
            r == if rt.toLowerCase(rt.sha256(Canonical(data))) == rt.toLowerCase(file.checksum)
                 then Ok(data) else Err(ChecksumInvalid))
  {
    hide Canonical;
  }
}
