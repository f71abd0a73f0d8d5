/** The loop that adds the rows of a file to a table unless a row with the same key is there. */
module Deduplication {
  import opened Prelude
  import opened FiniteSets

  /**
   What a file row comes to: its wallet or category is not known; a value in it cannot be read; or
   it has a key, and the row to store, which is None when the database cannot take it.
   */
  datatype Item<R> = Unmapped | Broken | Keyed(key: string, row: Option<R>)

  datatype Tally<R> = Tally(rows: seq<R>, keys: set<string>, imported: nat, skipped: nat)

  /** One turn of the loop; None is an error, which ends the import. */
  function Add<R>(t: Tally<R>, item: Item<R>): Option<Tally<R>> {
    match item
    case Unmapped => Some(t)
    case Broken => None
    case Keyed(key, row) =>
      if key in t.keys then Some(t.(skipped := t.skipped + 1))
      else if row.None? then None
      else Some(Tally(t.rows + [row.value], t.keys + {key}, t.imported + 1, t.skipped))
  }

  function After<R>(start: Tally<R>, items: seq<Item<R>>, n: nat): Option<Tally<R>>
    requires n <= |items|
  {
    if n == 0 then Some(start)
    else
      match After(start, items, n - 1)
      case None => None
      case Some(t) => Add(t, items[n - 1])
  }

  // ---------------------------------------------------------------- what the loop should do

  /** The keys of the first n items. */
  ghost function KeysUpTo<R>(items: seq<Item<R>>, n: nat): set<string>
    requires n <= |items|
  {
    set i | 0 <= i < n && items[i].Keyed? :: items[i].key
  }

  /** Item i has a key that neither the table nor an earlier item has. */
  ghost predicate First<R>(keys: set<string>, items: seq<Item<R>>, i: nat)
    requires i < |items|
  {
    items[i].Keyed? && items[i].key !in keys && items[i].key !in KeysUpTo(items, i)
  }

  /** The places of the first items of every new key, in order. */
  ghost function FirstAt<R>(keys: set<string>, items: seq<Item<R>>, n: nat): (at: seq<nat>)
    requires n <= |items|
    ensures forall j :: 0 <= j < |at| ==> at[j] < n && First(keys, items, at[j])
  {
    if n == 0 then []
    else FirstAt(keys, items, n - 1) + if First(keys, items, n - 1) then [n - 1] else []
  }

  ghost function RowsAt<R>(items: seq<Item<R>>, at: seq<nat>): seq<R>
    requires forall j :: 0 <= j < |at| ==> at[j] < |items| && items[at[j]].Keyed? && items[at[j]].row.Some?
  {
    seq(|at|, j requires 0 <= j < |at| => items[at[j]].row.value)
  }

  /** The number of items that have a key. */
  function CountKeyed<R>(items: seq<Item<R>>, n: nat): nat
    requires n <= |items|
  {
    if n == 0 then 0 else CountKeyed(items, n - 1) + if items[n - 1].Keyed? then 1 else 0
  }

  /** Every item can be read, and those that are to be stored can be. */
  ghost predicate Storable<R>(keys: set<string>, items: seq<Item<R>>, n: nat)
    requires n <= |items|
  {
    forall i: nat :: i < n ==> !items[i].Broken? && (First(keys, items, i) ==> items[i].row.Some?)
  }

  // ---------------------------------------------------------------- what it does

  lemma NoKeys<R>(items: seq<Item<R>>)
    ensures KeysUpTo(items, 0) == {}
  {
  }

  lemma KeysGrow<R>(items: seq<Item<R>>, n: nat)
    requires 0 < n <= |items|
    ensures KeysUpTo(items, n) == KeysUpTo(items, n - 1) + if items[n - 1].Keyed? then {items[n - 1].key} else {}
  {
  }

  /** The loop goes through exactly when everything can be stored, and then stores the first row of every new key. */
  lemma {:induction false} LoopStoresFirsts<R>(start: Tally<R>, items: seq<Item<R>>, n: nat)
    requires n <= |items|
    ensures After(start, items, n).Some? <==> Storable(start.keys, items, n)
    ensures Storable(start.keys, items, n) ==>
      var t := After(start, items, n).value;
      var at := FirstAt(start.keys, items, n);
      && t.keys == start.keys + KeysUpTo(items, n)
      && t.rows == start.rows + RowsAt(items, at)
      && t.imported == start.imported + |at|
      && t.imported + t.skipped == start.imported + start.skipped + CountKeyed(items, n)
    decreases n
  {
    if n == 0 {
      assert KeysUpTo(items, 0) == {};
    } else {
      LoopStoresFirsts(start, items, n - 1);
      KeysGrow(items, n);
    }
  }

  // ---------------------------------------------------------------- counting

  lemma NewKeyCount<R>(keys: set<string>, items: seq<Item<R>>, n: nat)
    requires 0 < n <= |items|
    requires KeysUpTo(items, n) == KeysUpTo(items, n - 1) + if items[n - 1].Keyed? then {items[n - 1].key} else {}
    ensures |KeysUpTo(items, n) - keys| ==
      |KeysUpTo(items, n - 1) - keys| + if First(keys, items, n - 1) then 1 else 0
  {
    hide KeysUpTo;
    var before, now := KeysUpTo(items, n - 1) - keys, KeysUpTo(items, n) - keys;
    if First(keys, items, n - 1) {
      assert now == before + {items[n - 1].key};
    } else {
      assert now == before;
    }
  }

  /** As many rows are stored as there are new keys. */
  lemma {:induction false} FirstsAreNewKeys<R>(keys: set<string>, items: seq<Item<R>>, n: nat)
    requires n <= |items|
    ensures |FirstAt(keys, items, n)| == |KeysUpTo(items, n) - keys|
    decreases n
  {
    hide KeysUpTo, First;
    if n == 0 {
      NoKeys(items);
      assert {} - keys == {};
    } else {
      FirstsAreNewKeys(keys, items, n - 1);
      KeysGrow(items, n);
      NewKeyCount(keys, items, n);
    }
  }

  ghost predicate Ascending(at: seq<nat>) {
    forall i, j :: 0 <= i < j < |at| ==> at[i] < at[j]
  }

  lemma {:induction false} FirstsAscend<R>(keys: set<string>, items: seq<Item<R>>, n: nat)
    requires n <= |items|
    ensures Ascending(FirstAt(keys, items, n))
    decreases n
  {
    if n > 0 {
      FirstsAscend(keys, items, n - 1);
      var before := FirstAt(keys, items, n - 1);
      assert forall j :: 0 <= j < |before| ==> before[j] < n - 1;
    }
  }

  /** The keys of the stored rows are new, and differ from one another. */
  lemma FirstsDiffer<R>(keys: set<string>, items: seq<Item<R>>, n: nat)
    requires n <= |items|
    ensures var at := FirstAt(keys, items, n);
      && (forall j :: 0 <= j < |at| ==> items[at[j]].key !in keys)
      && (forall i, j :: 0 <= i < j < |at| ==> items[at[i]].key != items[at[j]].key)
  {
    FirstsAscend(keys, items, n);
    var at := FirstAt(keys, items, n);
    forall i, j | 0 <= i < j < |at| ensures items[at[i]].key != items[at[j]].key {
      assert First(keys, items, at[i]) && First(keys, items, at[j]);
    }
  }

  /** Every new key has its first item. */
  lemma {:induction false} NewKeyHasFirst<R>(keys: set<string>, items: seq<Item<R>>, n: nat, key: string)
    requires n <= |items| && key in KeysUpTo(items, n) - keys
    ensures exists j :: 0 <= j < |FirstAt(keys, items, n)| && items[FirstAt(keys, items, n)[j]].key == key
    decreases n
  {
    var before, now := FirstAt(keys, items, n - 1), FirstAt(keys, items, n);
    if key in KeysUpTo(items, n - 1) {
      NewKeyHasFirst(keys, items, n - 1, key);
      var j :| 0 <= j < |before| && items[before[j]].key == key;
      assert now[j] == before[j];
    } else {
      KeysGrow(items, n);
      assert now[|before|] == n - 1;
    }
  }

  /** Items whose keys are all there already leave the table as it is. */
  lemma {:induction false} KnownKeysSkip<R>(start: Tally<R>, items: seq<Item<R>>, n: nat)
    requires n <= |items| && forall i: nat :: i < n ==> !items[i].Broken?
    requires KeysUpTo(items, n) <= start.keys
    ensures After(start, items, n) == Some(start.(skipped := start.skipped + CountKeyed(items, n)))
    decreases n
  {
    if n > 0 {
      KeysGrow(items, n);
      KnownKeysSkip(start, items, n - 1);
    }
  }

  // ---------------------------------------------------------------- the keys of the stored rows

  ghost function RowKeys<R>(keyOf: R -> string, rows: seq<R>): set<string> {
    set i | 0 <= i < |rows| :: keyOf(rows[i])
  }

  /** Every row that is to be stored has the key of its item. */
  ghost predicate HaveKeys<R>(keyOf: R -> string, items: seq<Item<R>>) {
    forall i :: 0 <= i < |items| && items[i].Keyed? && items[i].row.Some? ==> keyOf(items[i].row.value) == items[i].key
  }

  lemma RowKeysConcat<R>(keyOf: R -> string, a: seq<R>, b: seq<R>)
    ensures RowKeys(keyOf, a + b) == RowKeys(keyOf, a) + RowKeys(keyOf, b)
  {
    forall key ensures key in RowKeys(keyOf, a + b) <==> key in RowKeys(keyOf, a) + RowKeys(keyOf, b) {
      if i :| 0 <= i < |a + b| && keyOf((a + b)[i]) == key {
        assert if i < |a| then (a + b)[i] == a[i] else (a + b)[i] == b[i - |a|];
      }
      if i :| 0 <= i < |a| && keyOf(a[i]) == key {
        assert (a + b)[i] == a[i];
      }
      if i :| 0 <= i < |b| && keyOf(b[i]) == key {
        assert (a + b)[|a| + i] == b[i];
      }
    }
  }

  lemma StoredKeysAre<R>(keyOf: R -> string, keys: set<string>, items: seq<Item<R>>)
    requires HaveKeys(keyOf, items) && Storable(keys, items, |items|)
    ensures keys + RowKeys(keyOf, RowsAt(items, FirstAt(keys, items, |items|))) == keys + KeysUpTo(items, |items|)
  {
    var at := FirstAt(keys, items, |items|);
    var stored := RowKeys(keyOf, RowsAt(items, at));
    hide FirstAt, First;
    forall key ensures key in keys + stored <==> key in keys + KeysUpTo(items, |items|) {
      if key in KeysUpTo(items, |items|) - keys {
        NewKeyHasFirst(keys, items, |items|, key);
        var j :| 0 <= j < |at| && items[at[j]].key == key;
        assert keyOf(RowsAt(items, at)[j]) == key;
      }
    }
  }

  lemma StoredRowsDiffer<R>(keyOf: R -> string, keys: set<string>, items: seq<Item<R>>)
    requires HaveKeys(keyOf, items) && Storable(keys, items, |items|)
    ensures var stored := RowsAt(items, FirstAt(keys, items, |items|));
      && (forall j :: 0 <= j < |stored| ==> keyOf(stored[j]) !in keys)
      && (forall i, j :: 0 <= i < j < |stored| ==> keyOf(stored[i]) != keyOf(stored[j]))
  {
    FirstsDiffer(keys, items, |items|);
    var at := FirstAt(keys, items, |items|);
    forall j | 0 <= j < |at| ensures keyOf(RowsAt(items, at)[j]) == items[at[j]].key {
    }
    hide FirstAt, First;
  }

  /** The table has the keys of the loop, and no new row shares a key with an old row or another new one. */
  lemma TableHasKeys<R>(keyOf: R -> string, start: Tally<R>, items: seq<Item<R>>)
    requires After(start, items, |items|).Some?
    requires HaveKeys(keyOf, items) && start.keys == RowKeys(keyOf, start.rows)
    ensures var t := After(start, items, |items|).value;
      && start.rows <= t.rows && |t.rows| == |start.rows| + t.imported - start.imported
      && t.keys == RowKeys(keyOf, t.rows)
      && (forall j :: |start.rows| <= j < |t.rows| ==> keyOf(t.rows[j]) !in start.keys)
      && (forall i, j :: |start.rows| <= i < j < |t.rows| ==> keyOf(t.rows[i]) != keyOf(t.rows[j]))
  {
    LoopStoresFirsts(start, items, |items|);
    StoredKeysAre(keyOf, start.keys, items);
    StoredRowsDiffer(keyOf, start.keys, items);
    var stored := RowsAt(items, FirstAt(start.keys, items, |items|));
    RowKeysConcat(keyOf, start.rows, stored);
    var t := After(start, items, |items|).value;
    hide *;
    assert t.rows == start.rows + stored;
    assert forall j :: |start.rows| <= j < |t.rows| ==> t.rows[j] == stored[j - |start.rows|];
  }

  /** The row of some item with a new key is among the new rows. */
  lemma NewKeyIsStored<R>(start: Tally<R>, items: seq<Item<R>>, key: string) returns (i: nat, k: nat)
    requires After(start, items, |items|).Some? && key in KeysUpTo(items, |items|) - start.keys
    ensures i < |items| && items[i].Keyed? && items[i].key == key && items[i].row.Some?
    ensures var rows := After(start, items, |items|).value.rows;
      |start.rows| <= k < |rows| && rows[k] == items[i].row.value
  {
    LoopStoresFirsts(start, items, |items|);
    NewKeyHasFirst(start.keys, items, |items|, key);
    var at := FirstAt(start.keys, items, |items|);
    hide After, KeysUpTo, FirstAt, CountKeyed;
    var j :| 0 <= j < |at| && items[at[j]].key == key;
    i, k := at[j], |start.rows| + j;
    assert After(start, items, |items|).value.rows[k] == RowsAt(items, at)[j];
  }

  /** What holds of every row that an item can store holds of every new row. */
  lemma NewRowsSatisfy<R>(p: R -> bool, start: Tally<R>, items: seq<Item<R>>)
    requires After(start, items, |items|).Some?
    requires forall i :: 0 <= i < |items| && items[i].Keyed? && items[i].row.Some? ==> p(items[i].row.value)
    ensures var t := After(start, items, |items|).value;
      start.rows <= t.rows && forall j :: |start.rows| <= j < |t.rows| ==> p(t.rows[j])
  {
    LoopStoresFirsts(start, items, |items|);
    var t, at := After(start, items, |items|).value, FirstAt(start.keys, items, |items|);
    hide After, KeysUpTo, FirstAt, CountKeyed;
    forall j | |start.rows| <= j < |t.rows| ensures p(t.rows[j]) {
      assert t.rows[j] == RowsAt(items, at)[j - |start.rows|];
    }
  }
}
