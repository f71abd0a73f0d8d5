/**
 What the printer guarantees: its text reads back as the key-sorted value, two values print
 alike exactly when they are equal up to the order of object keys, and a value survives
 the trip through a JSON file with its printed form intact exactly when no part of it is undefined.
 */
module CanonicalProofs {
  import opened FiniteSets
  import opened CanonicalJson
  import opened JsonReader

  // ---------------------------------------------------------------- sorted keys

  lemma {:induction false} BeforeTransitive(a: Text, b: Text, c: Text)
    requires Before(a, b) && Before(b, c)
    ensures Before(a, c)
    decreases |a|
  {
    if a != [] && a[0] == b[0] == c[0] {
      BeforeTransitive(a[1..], b[1..], c[1..]);
    }
  }

  lemma {:induction false} BeforeIrreflexive(a: Text)
    ensures !Before(a, a)
    decreases |a|
  {
    if a != [] {
      BeforeIrreflexive(a[1..]);
    }
  }

  lemma {:induction false} BeforeTotal(a: Text, b: Text)
    ensures Before(a, b) || Before(b, a) || a == b
    decreases |a|
  {
    if a != [] && b != [] && a[0] == b[0] {
      BeforeTotal(a[1..], b[1..]);
      if a[1..] == b[1..] {
        assert a == [a[0]] + a[1..] && b == [b[0]] + b[1..];
      }
    }
  }

  lemma {:induction false} InsertAscending(k: Text, ks: seq<Text>)
    requires Ascending(ks) && k !in ks
    ensures Ascending(InsertKey(k, ks))
    decreases |ks|
  {
    if ks != [] {
      BeforeTotal(k, ks[0]);
      if Before(ks[0], k) {
        InsertAscending(k, ks[1..]);
        var r := InsertKey(k, ks[1..]);
        forall j | 0 <= j < |r| ensures Before(ks[0], r[j]) {
          assert r[j] in multiset{k} + multiset(ks[1..]);
          if r[j] != k {
            assert r[j] in ks[1..];
          }
        }
      } else {
        forall j | 0 <= j < |ks| ensures Before(k, ks[j]) {
          if j > 0 {
            BeforeTransitive(k, ks[0], ks[j]);
          }
        }
      }
    }
  }

  lemma {:induction false} SortAscending(ks: seq<Text>)
    requires NoRepeats(ks)
    ensures Ascending(SortKeys(ks))
    decreases |ks|
  {
    if ks != [] {
      SortAscending(ks[1..]);
      InsertAscending(ks[0], SortKeys(ks[1..]));
    }
  }

  /** In an ascending list, every key is its head or comes after it; none is listed twice. */
  lemma AscendingHead(a: seq<Text>, b: seq<Text>)
    requires Ascending(a) && Ascending(b) && a != [] && b != []
    requires a[0] in b && b[0] in a
    ensures a[0] == b[0]
  {
    if a[0] != b[0] {
      assert Before(b[0], a[0]);
      assert Before(a[0], b[0]);
      BeforeTransitive(a[0], b[0], a[0]);
      BeforeIrreflexive(a[0]);
    }
  }

  /** An ascending list is determined by the set of its members. */
  lemma {:induction false} AscendingUnique(a: seq<Text>, b: seq<Text>)
    requires Ascending(a) && Ascending(b)
    requires forall k :: k in a <==> k in b
    ensures a == b
    decreases |a|
  {
    assert b != [] ==> b[0] in b;
    if a != [] {
      assert a[0] in b;
      assert b[0] in a;
      AscendingHead(a, b);
      forall k ensures k in a[1..] <==> k in b[1..] {
        BeforeIrreflexive(a[0]);
        assert k in a <==> k == a[0] || k in a[1..];
        assert k in b <==> k == b[0] || k in b[1..];
        assert a[0] !in a[1..] && b[0] !in b[1..];
      }
      AscendingUnique(a[1..], b[1..]);
      assert a == [a[0]] + a[1..] && b == [b[0]] + b[1..];
    }
  }

  // ---------------------------------------------------------------- values

  /** Object keys are distinct, at every level. */
  ghost predicate Valid(v: Json)
    decreases v
  {
    match v
    case Arr(items) => forall i :: 0 <= i < |items| ==> Valid(items[i])
    case Obj(members) => NoRepeats(Keys(members)) && forall i :: 0 <= i < |members| ==> Valid(members[i].value)
    case _ => true
  }

  /** No part of the value is undefined. */
  ghost predicate Defined(v: Json)
    decreases v
  {
    match v
    case Undefined => false
    case Arr(items) => forall i :: 0 <= i < |items| ==> Defined(items[i])
    case Obj(members) => forall i :: 0 <= i < |members| ==> Defined(members[i].value)
    case _ => true
  }

  /** Equality up to the order of object keys. */
  ghost predicate Same(a: Json, b: Json)
    decreases a
  {
    match a
    case Arr(items) =>
      b.Arr? && |items| == |b.items| && forall i :: 0 <= i < |items| ==> Same(items[i], b.items[i])
    case Obj(members) =>
      b.Obj?
      && (forall k :: k in Keys(members) <==> k in Keys(b.members))
      && (forall k :: k in Keys(members) ==> Same(Lookup(members, k), Lookup(b.members, k)))
    case _ => a == b
  }

  /** The value with the keys of every object in ascending order. */
  function Sorted(v: Json): Json
    decreases v
  {
    match v
    case Arr(items) => Arr(seq(|items|, i requires 0 <= i < |items| => Sorted(items[i])))
    case Obj(members) =>
      var ks := SortKeys(Keys(members));
      Obj(seq(|ks|, i requires 0 <= i < |ks| => Entry(ks[i], Sorted(Lookup(members, ks[i])))))
    case _ => v
  }

  // ---------------------------------------------------------------- reading back

  lemma ReadArray(inner: Text)
    ensures ReadValue([OPEN_BRACKET] + inner) ==
      if inner != [] && inner[0] == CLOSE_BRACKET then Got(Arr([]), inner[1..])
      else match ReadItems(inner) case Fail => Fail case Got(vs, r) => Got(Arr(vs), r)
  {
    var t := [OPEN_BRACKET] + inner;
    assert t[0] == OPEN_BRACKET && t[1..] == inner;
    if inner != [] {
      assert t[1] == inner[0] && t[2..] == inner[1..];
    }
  }

  lemma ReadObject(inner: Text)
    ensures ReadValue([OPEN_BRACE] + inner) ==
      if inner != [] && inner[0] == CLOSE_BRACE then Got(Obj([]), inner[1..])
      else match ReadMembers(inner) case Fail => Fail case Got(ms, r) => Got(Obj(ms), r)
  {
    var t := [OPEN_BRACE] + inner;
    assert t[0] == OPEN_BRACE && t[1..] == inner;
    if inner != [] {
      assert t[1] == inner[0] && t[2..] == inner[1..];
    }
  }

  lemma StartsWithHead(t: Text, p: Text)
    requires p != []
    ensures StartsWith(t, p) ==> t != [] && t[0] == p[0]
  {
    assert StartsWith(t, p) ==> t[..|p|][0] == t[0];
  }

  /** No value starts with a comma, a closing bracket or the letter u. */
  lemma NoValueStartsWith(t: Text)
    requires t == [] || t[0] == CLOSE_BRACKET || t[0] == COMMA || t[0] == LETTER_U
    ensures ReadValue(t) == Fail
  {
    StartsWithHead(t, NULL_TEXT);
    StartsWithHead(t, TRUE_TEXT);
    StartsWithHead(t, FALSE_TEXT);
  }

  /** A list of items never starts with a closing bracket. */
  lemma ItemsStart(t: Text)
    requires ReadItems(t).Got?
    ensures t != [] && t[0] != CLOSE_BRACKET
  {
    if t == [] || t[0] == CLOSE_BRACKET {
      NoValueStartsWith(t);
    }
  }

  lemma MembersStart(t: Text)
    requires ReadMembers(t).Got?
    ensures t != [] && t[0] == QUOTE
  {
  }

  lemma Bracketed(open: CodeUnit, body: Text, close: CodeUnit, rest: Text)
    ensures [open] + body + [close] + rest == [open] + (body + [close] + rest)
  {
  }

  lemma ReadsClosedArray(parts: seq<Text>, vs: seq<Json>)
    requires |parts| == |vs|
    requires forall i :: 0 <= i < |vs| ==> Reads(parts[i], vs[i])
    ensures Reads([OPEN_BRACKET] + Join(parts) + [CLOSE_BRACKET], Arr(vs))
  {
    var c := [OPEN_BRACKET] + Join(parts) + [CLOSE_BRACKET];
    forall rest: Text ensures ReadValue(c + rest) == Got(Arr(vs), rest) {
      var inner := Join(parts) + [CLOSE_BRACKET] + rest;
      Bracketed(OPEN_BRACKET, Join(parts), CLOSE_BRACKET, rest);
      ReadArray(inner);
      if vs == [] {
        assert inner[0] == CLOSE_BRACKET && inner[1..] == rest;
      } else {
        ReadJoinedItems(parts, vs, rest);
        ItemsStart(inner);
      }
    }
  }

  lemma ReadsClosedObject(parts: seq<Text>, ms: seq<Entry>)
    requires |parts| == |ms|
    requires forall i :: 0 <= i < |ms| ==> ReadsMember(parts[i], ms[i])
    ensures Reads([OPEN_BRACE] + Join(parts) + [CLOSE_BRACE], Obj(ms))
  {
    var c := [OPEN_BRACE] + Join(parts) + [CLOSE_BRACE];
    forall rest: Text ensures ReadValue(c + rest) == Got(Obj(ms), rest) {
      var inner := Join(parts) + [CLOSE_BRACE] + rest;
      Bracketed(OPEN_BRACE, Join(parts), CLOSE_BRACE, rest);
      ReadObject(inner);
      if ms == [] {
        assert inner[0] == CLOSE_BRACE && inner[1..] == rest;
      } else {
        ReadJoinedMembers(parts, ms, rest);
        MembersStart(inner);
      }
    }
  }

  lemma ReadsWord(v: Json)
    requires v.Null? || v.Bool?
    ensures Reads(Canonical(v), v)
  {
    var c := Canonical(v);
    forall rest: Text ensures ReadValue(c + rest) == Got(v, rest) {
      assert (c + rest)[..|c|] == c && (c + rest)[|c|..] == rest;
      assert (c + rest)[0] == c[0];
      if v == Bool(true) {
        assert (c + rest)[..4] != NULL_TEXT;
      } else if v == Bool(false) {
        assert (c + rest)[..4][0] == 0x66;
      }
    }
  }

  /** What the printer writes, whatever stands after it, is read as the key-sorted value. */
  lemma {:induction false} ReadBack(v: Json)
    requires Defined(v)
    ensures Reads(Canonical(v), Sorted(v))
    decreases v
  {
    match v
    case Null => ReadsWord(v);
    case Bool(_) => ReadsWord(v);
    case Str(s) => ReadsQuote(s);
    case Arr(items) =>
      var parts := seq(|items|, i requires 0 <= i < |items| =>
        if items[i] == Undefined then [] else Canonical(items[i]));
      var vs := seq(|items|, i requires 0 <= i < |items| => Sorted(items[i]));
      forall i | 0 <= i < |items| ensures Reads(parts[i], vs[i]) {
        ReadBack(items[i]);
      }
      ReadsClosedArray(parts, vs);
    case Obj(members) =>
      var ks := SortKeys(Keys(members));
      var parts := seq(|ks|, i requires 0 <= i < |ks| =>
        Quote(ks[i]) + [COLON] + Canonical(Lookup(members, ks[i])));
      var ms := seq(|ks|, i requires 0 <= i < |ks| => Entry(ks[i], Sorted(Lookup(members, ks[i]))));
      forall i | 0 <= i < |ks| ensures ReadsMember(parts[i], ms[i]) {
        var w := Lookup(members, ks[i]);
        ReadBack(w);
        assert parts[i] == MemberText(ks[i], Canonical(w));
      }
      ReadsClosedObject(parts, ms);
  }

  // ---------------------------------------------------------------- canonical and injective

  /** Values whose key-sorted forms coincide are equal up to the order of keys. */
  lemma {:induction false} SortedAlikeIsSame(a: Json, b: Json)
    requires Sorted(a) == Sorted(b)
    ensures Same(a, b)
    decreases a
  {
    match a
    case Arr(items) =>
      assert b.Arr?;
      forall i | 0 <= i < |items| ensures Same(items[i], b.items[i]) {
        assert Sorted(a).items[i] == Sorted(b).items[i];
        SortedAlikeIsSame(items[i], b.items[i]);
      }
    case Obj(members) =>
      assert b.Obj?;
      var ks, ls := SortKeys(Keys(members)), SortKeys(Keys(b.members));
      assert |ks| == |Sorted(a).members| == |ls|;
      forall i | 0 <= i < |ks| ensures ks[i] == ls[i] {
        assert Sorted(a).members[i].key == Sorted(b).members[i].key;
      }
      assert ks == ls;
      forall k | k in Keys(members) ensures Same(Lookup(members, k), Lookup(b.members, k)) {
        var i :| 0 <= i < |ks| && ks[i] == k;
        assert Sorted(a).members[i].value == Sorted(b).members[i].value;
        SortedAlikeIsSame(Lookup(members, k), Lookup(b.members, k));
      }
    case _ =>
  }

  lemma SortedKeysAlike(a: seq<Entry>, b: seq<Entry>)
    requires NoRepeats(Keys(a)) && NoRepeats(Keys(b))
    requires forall k :: k in Keys(a) <==> k in Keys(b)
    ensures SortKeys(Keys(a)) == SortKeys(Keys(b))
  {
    SortAscending(Keys(a));
    SortAscending(Keys(b));
    AscendingUnique(SortKeys(Keys(a)), SortKeys(Keys(b)));
  }

  lemma ItemsPrintAlike(items: seq<Json>, others: seq<Json>)
    requires |items| == |others|
    requires forall i :: 0 <= i < |items| ==> Canonical(items[i]) == Canonical(others[i])
    requires forall i :: 0 <= i < |items| ==> (items[i] == Undefined <==> others[i] == Undefined)
    ensures Canonical(Arr(items)) == Canonical(Arr(others))
  {
    var parts := seq(|items|, i requires 0 <= i < |items| =>
      if items[i] == Undefined then [] else Canonical(items[i]));
    var parts' := seq(|others|, i requires 0 <= i < |others| =>
      if others[i] == Undefined then [] else Canonical(others[i]));
    assert parts == parts';
  }

  function MemberParts(ms: seq<Entry>, ks: seq<Text>): seq<Text>
    requires forall i :: 0 <= i < |ks| ==> ks[i] in Keys(ms)
  {
    seq(|ks|, i requires 0 <= i < |ks| => Quote(ks[i]) + [COLON] + Canonical(Lookup(ms, ks[i])))
  }

  lemma ObjectText(ms: seq<Entry>)
    ensures forall i :: 0 <= i < |SortKeys(Keys(ms))| ==> SortKeys(Keys(ms))[i] in Keys(ms)
    ensures Canonical(Obj(ms)) == [OPEN_BRACE] + Join(MemberParts(ms, SortKeys(Keys(ms)))) + [CLOSE_BRACE]
  {
    hide SortKeys, Quote, Keys, Lookup, Join;
    var ks := SortKeys(Keys(ms));
    assert MemberParts(ms, ks) == seq(|ks|, i requires 0 <= i < |ks| =>
      Quote(ks[i]) + [COLON] + Canonical(Lookup(ms, ks[i])));
  }

  lemma MembersPrintAlike(members: seq<Entry>, others: seq<Entry>)
    requires NoRepeats(Keys(members)) && NoRepeats(Keys(others))
    requires forall k :: k in Keys(members) <==> k in Keys(others)
    requires forall k :: k in Keys(members) ==> Canonical(Lookup(members, k)) == Canonical(Lookup(others, k))
    ensures Canonical(Obj(members)) == Canonical(Obj(others))
  {
    SortedKeysAlike(members, others);
    ObjectText(members);
    ObjectText(others);
    hide SortKeys, Quote, Keys, Lookup, Join, Canonical, NoRepeats;
    var ks := SortKeys(Keys(members));
    assert MemberParts(members, ks) == MemberParts(others, ks);
  }

  /** Values that are equal up to the order of keys print alike. */
  lemma {:induction false} SamePrintsAlike(a: Json, b: Json)
    requires Valid(a) && Valid(b) && Same(a, b)
    ensures Canonical(a) == Canonical(b)
    decreases a
  {
    hide Canonical;
    match a
    case Arr(items) =>
      forall i | 0 <= i < |items| ensures Canonical(items[i]) == Canonical(b.items[i]) {
        SamePrintsAlike(items[i], b.items[i]);
      }
      assert forall i :: 0 <= i < |items| ==> Same(items[i], b.items[i]);
      ItemsPrintAlike(items, b.items);
    case Obj(members) =>
      forall k | k in Keys(members) ensures Canonical(Lookup(members, k)) == Canonical(Lookup(b.members, k)) {
        SamePrintsAlike(Lookup(members, k), Lookup(b.members, k));
      }
      MembersPrintAlike(members, b.members);
    case _ =>
  }

  /** Two values print alike exactly when they are equal up to the order of object keys. */
  lemma PrintsAlikeIffSame(a: Json, b: Json)
    requires Valid(a) && Valid(b) && Defined(a) && Defined(b)
    ensures Canonical(a) == Canonical(b) <==> Same(a, b)
  {
    if Canonical(a) == Canonical(b) {
      ReadBack(a);
      ReadBack(b);
      assert ReadValue(Canonical(a) + []) == Got(Sorted(a), []);
      assert ReadValue(Canonical(b) + []) == Got(Sorted(b), []);
      SortedAlikeIsSame(a, b);
    }
    if Same(a, b) {
      SamePrintsAlike(a, b);
    }
  }
}
