/** Rows that are printed for a schema: what becomes of them when they are sent and taken apart again. */
module SchemaRows {
  import opened Prelude
  import opened FiniteSets
  import opened CanonicalJson
  import opened CanonicalProofs
  import opened BackupFile
  import opened Schemas

  function Names(fields: seq<Field>): (names: seq<Text>)
    ensures |names| == |fields|
  {
    seq(|fields|, i requires 0 <= i < |fields| => fields[i].name)
  }

  /** The object of a row: every field with its value, which may be undefined. */
  function Row(fields: seq<Field>, vs: seq<Json>): Json
    requires |fields| == |vs|
  {
    Obj(seq(|fields|, i requires 0 <= i < |fields| => Entry(fields[i].name, vs[i])))
  }

  /** The list of the objects of all rows. */
  function Table(fields: seq<Field>, rows: seq<seq<Json>>): Json
    requires forall i :: 0 <= i < |rows| ==> |rows[i]| == |fields|
  {
    Arr(seq(|rows|, i requires 0 <= i < |rows| => Row(fields, rows[i])))
  }

  /** Sent as JSON, the value is taken as it is; one that is undefined is left out. */
  predicate Good(f: Field, v: Json) {
    v == Undefined || Parse(f.shape, Sent(v)) == Some(Sent(v))
  }

  /** Sent as JSON, the value is taken as it is or refused; only an optional one can be undefined. */
  ghost predicate Decided(f: Field, v: Json) {
    && Valid(v)
    && if v == Undefined then f.absence.Optional? else Good(f, v) || Parse(f.shape, Sent(v)) == None
  }

  ghost predicate RowDecided(fields: seq<Field>, vs: seq<Json>) {
    |fields| == |vs| && forall i :: 0 <= i < |vs| ==> Decided(fields[i], vs[i])
  }

  predicate RowGood(fields: seq<Field>, vs: seq<Json>)
    requires |fields| == |vs|
  {
    forall i :: 0 <= i < |vs| ==> Good(fields[i], vs[i])
  }

  // ---------------------------------------------------------------- one row

  /** The members from field k on, as they are sent. */
  lemma {:induction false} ParseFrom(fields: seq<Field>, vs: seq<Json>, ms: seq<Entry>, k: nat)
    requires RowDecided(fields, vs) && k <= |fields|
    requires forall i :: 0 <= i < |fields| ==>
      Member(ms, fields[i].name) == if vs[i] == Undefined then Undefined else Sent(vs[i])
    ensures ParseFields(fields[k..], ms) ==
      if forall i :: k <= i < |fields| ==> Good(fields[i], vs[i])
      then Some(SentMembers(Row(fields, vs).members[k..])) else None
    decreases |fields| - k
  {
    hide Parse, Member;
    if k < |fields| {
      ParseFrom(fields, vs, ms, k + 1);
      assert fields[k..][1..] == fields[k + 1..];
      var members := Row(fields, vs).members;
      assert members[k..][1..] == members[k + 1..] && members[k] == Entry(fields[k].name, vs[k]);
      assert Decided(fields[k], vs[k]);
      if vs[k] != Undefined {
        SentIsThere(vs[k]);
      }
    } else {
      assert fields[k..] == [] && Row(fields, vs).members[k..] == [];
    }
  }

  lemma SentIsThere(v: Json)
    requires v != Undefined
    ensures Sent(v) != Undefined
  {
  }

  lemma RowMember(fields: seq<Field>, vs: seq<Json>, i: nat)
    requires |fields| == |vs| && NoRepeats(Names(fields)) && i < |fields|
    ensures var ms := Row(fields, vs).members;
      && NoRepeats(Keys(ms))
      && Member(SentMembers(ms), fields[i].name) == if vs[i] == Undefined then Undefined else Sent(vs[i])
  {
    var ms := Row(fields, vs).members;
    assert Keys(ms) == Names(fields);
    LookupAt(ms, i);
    SentKeys(ms, fields[i].name);
  }

  /** A row is taken as it was sent when all its values are good, and refused otherwise. */
  lemma ParseRow(fields: seq<Field>, vs: seq<Json>)
    requires RowDecided(fields, vs) && NoRepeats(Names(fields))
    ensures Parse(Record(fields), Sent(Row(fields, vs))) ==
      if RowGood(fields, vs) then Some(Sent(Row(fields, vs))) else None
  {
    var ms := Row(fields, vs).members;
    forall i: nat | i < |fields|
      ensures Member(SentMembers(ms), fields[i].name) == if vs[i] == Undefined then Undefined else Sent(vs[i])
    {
      RowMember(fields, vs, i);
    }
    ParseFrom(fields, vs, SentMembers(ms), 0);
    assert fields[0..] == fields && ms[0..] == ms;
    hide Member, Good, Decided, Names;
  }

  /** It is a value, and no part of it is undefined exactly when none of its values has such a part. */
  lemma RowIsValid(fields: seq<Field>, vs: seq<Json>)
    requires RowDecided(fields, vs) && NoRepeats(Names(fields))
    ensures Valid(Row(fields, vs))
    ensures Defined(Row(fields, vs)) <==> forall i :: 0 <= i < |vs| ==> Defined(vs[i])
  {
    var ms := Row(fields, vs).members;
    assert Keys(ms) == Names(fields);
    assert forall i :: 0 <= i < |ms| ==> ms[i].value == vs[i];
    forall i | 0 <= i < |ms| ensures Valid(ms[i].value) {
      assert Decided(fields[i], vs[i]);
    }
  }

  // ---------------------------------------------------------------- a table

  ghost predicate AllDecided(fields: seq<Field>, rows: seq<seq<Json>>) {
    forall i :: 0 <= i < |rows| ==> |rows[i]| == |fields| && RowDecided(fields, rows[i])
  }

  predicate AllGood(fields: seq<Field>, rows: seq<seq<Json>>)
    requires forall i :: 0 <= i < |rows| ==> |rows[i]| == |fields|
  {
    forall i :: 0 <= i < |rows| ==> RowGood(fields, rows[i])
  }

  /** A table is taken as it was sent when all its rows are good, and refused otherwise. */
  lemma ParseTable(fields: seq<Field>, rows: seq<seq<Json>>)
    requires AllDecided(fields, rows) && NoRepeats(Names(fields))
    ensures var t := Table(fields, rows);
      Parse(ListOf(Record(fields)), Sent(t)) == if AllGood(fields, rows) then Some(Sent(t)) else None
  {
    hide RowDecided, RowGood, Names, ParseFields, Row, SentMembers;
    var t := Table(fields, rows);
    var items := Sent(t).items;
    forall i | 0 <= i < |rows|
      ensures items[i] == Sent(Row(fields, rows[i]))
      ensures Parse(Record(fields), items[i]) == if RowGood(fields, rows[i]) then Some(items[i]) else None
    {
      ParseRow(fields, rows[i]);
      RowIsObject(fields, rows[i]);
      assert t.items[i] == Row(fields, rows[i]);
    }
    if AllGood(fields, rows) {
      assert Parse(ListOf(Record(fields)), Sent(t)).value.items == items;
    }
  }

  lemma RowIsObject(fields: seq<Field>, vs: seq<Json>)
    requires |fields| == |vs|
    ensures Row(fields, vs) != Undefined
  {
  }

  lemma TableIsValid(fields: seq<Field>, rows: seq<seq<Json>>)
    requires AllDecided(fields, rows) && NoRepeats(Names(fields))
    ensures Valid(Table(fields, rows))
    ensures Defined(Table(fields, rows)) <==>
      forall i, j :: 0 <= i < |rows| && 0 <= j < |fields| ==> Defined(rows[i][j])
  {
    hide RowDecided, Names, Row;
    var t := Table(fields, rows);
    forall i | 0 <= i < |rows|
      ensures Valid(t.items[i]) && (Defined(t.items[i]) <==> forall j :: 0 <= j < |fields| ==> Defined(rows[i][j]))
    {
      RowIsValid(fields, rows[i]);
      assert t.items[i] == Row(fields, rows[i]);
    }
  }
}
