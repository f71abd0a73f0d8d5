/**
 Object schemas as the server validates files with them: a value is taken apart field by field, in the
 order of the schema; unknown fields are dropped, absent ones are left out or filled in, and a value
 that does not fit refuses the whole.
 */
module Schemas {
  import opened Prelude
  import opened FiniteSets
  import opened CanonicalJson
  import opened CanonicalProofs

  // ---------------------------------------------------------------- texts

  type Letter = c: char | c < '\U{0080}' witness 'a'

  /** A name in ASCII letters. */
  type Name = seq<Letter>

  /** Its code units. */
  function Units(name: Name): Text {
    seq(|name|, i requires 0 <= i < |name| => name[i] as int)
  }

  predicate Digits(t: Text) {
    forall i :: 0 <= i < |t| ==> 0x30 <= t[i] <= 0x39
  }

  const DOT: CodeUnit := 0x2E
  const MINUS: CodeUnit := 0x2D

  /** ^\d+(\.\d{1,2})?$ */
  predicate IsAmount(t: Text) {
    || (t != [] && Digits(t))
    || (|t| >= 3 && t[|t| - 2] == DOT && Digits(t[..|t| - 2]) && Digits(t[|t| - 1..]))
    || (|t| >= 4 && t[|t| - 3] == DOT && Digits(t[..|t| - 3]) && Digits(t[|t| - 2..]))
  }

  /** ^-?\d+(\.\d{1,2})?$ */
  predicate IsBalance(t: Text) {
    if t != [] && t[0] == MINUS then IsAmount(t[1..]) else IsAmount(t)
  }

  /** ^\d{4}-\d{2}-\d{2}$ */
  predicate IsDay(t: Text) {
    |t| == 10 && t[4] == MINUS && t[7] == MINUS && Digits(t[..4]) && Digits(t[5..7]) && Digits(t[8..])
  }

  datatype Check = AnyText | NonEmpty | NameCheck | CurrencyCheck | AmountCheck | BalanceCheck | DayCheck
                 | OneOf(options: seq<Name>)

  const NAME_LIMIT := 100

  predicate Passes(check: Check, t: Text) {
    match check
    case AnyText => true
    case NonEmpty => |t| >= 1
    case NameCheck => 1 <= |t| <= NAME_LIMIT
    case CurrencyCheck => 1 <= |t| <= 10
    case AmountCheck => IsAmount(t)
    case BalanceCheck => IsBalance(t)
    case DayCheck => IsDay(t)
    case OneOf(options) => exists i :: 0 <= i < |options| && Units(options[i]) == t
  }

  /** Digits, and if anything follows, a point and one or two more. */
  predicate ReadsAmount(whole: Text, rest: Text) {
    whole != [] && Digits(whole) && (rest == [] || (rest[0] == DOT && 2 <= |rest| <= 3 && Digits(rest[1..])))
  }

  lemma ReadsAmountIsAmount(whole: Text, rest: Text)
    requires ReadsAmount(whole, rest)
    ensures IsAmount(whole + rest)
  {
    var t, n := whole + rest, |whole|;
    assert t[..n] == whole && t[n..] == rest;
    if rest == [] {
      assert t == whole;
    } else {
      assert t[n] == DOT && t[n + 1..] == rest[1..];
    }
  }

  lemma AmountReads(t: Text) returns (n: nat)
    requires IsAmount(t)
    ensures n <= |t| && ReadsAmount(t[..n], t[n..])
  {
    if Digits(t) {
      n := |t|;
      assert t[..n] == t && t[n..] == [];
    } else {
      n := if t[|t| - 2] == DOT && Digits(t[..|t| - 2]) && Digits(t[|t| - 1..]) then |t| - 2 else |t| - 3;
      assert t[n..][1..] == t[n + 1..];
    }
  }

  lemma AmountIff(t: Text)
    ensures IsAmount(t) <==> exists whole, rest :: ReadsAmount(whole, rest) && t == whole + rest
  {
    hide IsAmount, ReadsAmount;
    if IsAmount(t) {
      var n := AmountReads(t);
      assert t == t[..n] + t[n..];
    }
    if whole, rest :| ReadsAmount(whole, rest) && t == whole + rest {
      ReadsAmountIsAmount(whole, rest);
    }
  }

  /** A balance is an amount, perhaps behind a minus. */
  lemma BalanceIff(t: Text)
    ensures IsBalance(t) <==> IsAmount(t) || exists u: Text :: t == [MINUS] + u && IsAmount(u)
  {
    if t != [] && t[0] == MINUS {
      assert t == [MINUS] + t[1..];
      if u: Text :| t == [MINUS] + u && IsAmount(u) {
        assert t[1..] == u;
      }
    }
  }

  predicate ReadsDay(y: Text, m: Text, d: Text) {
    |y| == 4 && |m| == 2 && |d| == 2 && Digits(y) && Digits(m) && Digits(d)
  }

  lemma DayIff(t: Text)
    ensures IsDay(t) <==> exists y, m, d :: ReadsDay(y, m, d) && t == y + [MINUS] + m + [MINUS] + d
  {
    if IsDay(t) {
      assert ReadsDay(t[..4], t[5..7], t[8..]);
      assert t == t[..4] + [MINUS] + t[5..7] + [MINUS] + t[8..];
    }
    if y, m, d :| ReadsDay(y, m, d) && t == y + [MINUS] + m + [MINUS] + d {
      assert t[..4] == y && t[5..7] == m && t[8..] == d;
    }
  }

  // ---------------------------------------------------------------- schemas

  datatype Absence = Required | Optional | Default(value: Json)

  datatype Shape =
    | Word(check: Check)
    | NullOrWord(check: Check)
    | Flag
    | ListOf(item: Shape)
    | Record(fields: seq<Field>)

  datatype Field = Field(name: Text, shape: Shape, absence: Absence)

  /** A member that an object does not have reads as undefined. */
  function Member(ms: seq<Entry>, k: Text): Json {
    if k in Keys(ms) then Lookup(ms, k) else Undefined
  }

  /** What a schema makes of a value; None when it refuses it. */
  function Parse(shape: Shape, v: Json): Option<Json>
    decreases shape
  {
    match shape
    case Word(check) => if v.Str? && Passes(check, v.s) then Some(v) else None
    case NullOrWord(check) => if v.Null? || (v.Str? && Passes(check, v.s)) then Some(v) else None
    case Flag => if v.Bool? then Some(v) else None
    case ListOf(item) =>
      if v.Arr? && forall i :: 0 <= i < |v.items| ==> Parse(item, v.items[i]).Some?
      then Some(Arr(seq(|v.items|, i requires 0 <= i < |v.items| => Parse(item, v.items[i]).value)))
      else None
    case Record(fields) =>
      if !v.Obj? then None
      else
        match ParseFields(fields, v.members)
        case None => None
        case Some(ms) => Some(Obj(ms))
  }

  function ParseFields(fields: seq<Field>, ms: seq<Entry>): Option<seq<Entry>>
    decreases fields
  {
    if fields == [] then Some([])
    else
      var f := fields[0];
      match ParseFields(fields[1..], ms)
      case None => None
      case Some(rest) =>
        var v := Member(ms, f.name);
        if v == Undefined then
          match f.absence
          case Required => None
          case Optional => Some(rest)
          case Default(d) => Some([Entry(f.name, d)] + rest)
        else
          match Parse(f.shape, v)
          case None => None
          case Some(taken) => Some([Entry(f.name, taken)] + rest)
  }

  // ---------------------------------------------------------------- the order of keys does not matter

  lemma {:induction false} ParseSame(shape: Shape, a: Json, b: Json)
    requires Valid(a) && Valid(b) && Same(a, b)
    ensures Parse(shape, a) == Parse(shape, b)
    decreases shape
  {
    match shape
    case ListOf(item) =>
      if a.Arr? {
        forall i | 0 <= i < |a.items| ensures Parse(item, a.items[i]) == Parse(item, b.items[i]) {
          ParseSame(item, a.items[i], b.items[i]);
        }
        if Parse(shape, a).Some? {
          assert Parse(shape, a).value.items == Parse(shape, b).value.items;
        }
      }
    case Record(fields) =>
      if a.Obj? {
        ParseFieldsSame(fields, a.members, b.members);
      }
    case _ =>
  }

  lemma {:induction false} ParseFieldsSame(fields: seq<Field>, a: seq<Entry>, b: seq<Entry>)
    requires Valid(Obj(a)) && Valid(Obj(b)) && Same(Obj(a), Obj(b))
    ensures ParseFields(fields, a) == ParseFields(fields, b)
    decreases fields
  {
    if fields != [] {
      var k := fields[0].name;
      ParseFieldsSame(fields[1..], a, b);
      if k in Keys(a) {
        assert Same(Lookup(a, k), Lookup(b, k));
        UndefinedAlike(Lookup(a, k), Lookup(b, k));
        MemberIsValid(a, k);
        MemberIsValid(b, k);
        ParseSame(fields[0].shape, Lookup(a, k), Lookup(b, k));
      }
    }
  }

  lemma UndefinedAlike(a: Json, b: Json)
    requires Same(a, b)
    ensures a == Undefined <==> b == Undefined
  {
  }

  lemma MemberIsValid(ms: seq<Entry>, k: Text)
    requires Valid(Obj(ms)) && k in Keys(ms)
    ensures Valid(Lookup(ms, k))
  {
    var v := Lookup(ms, k);
    var i :| 0 <= i < |ms| && ms[i] == Entry(k, v);
  }
}
