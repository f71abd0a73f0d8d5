/** Transactions and transfers of the import: their keys, their order, and what is stored or skipped. */
module ImportRowProofs {
  import opened Prelude
  import opened Digits
  import opened TextRules
  import opened Deduplication
  import opened BackupImport

  // ---------------------------------------------------------------- keys

  ghost predicate NoColon(s: string) {
    forall i :: 0 <= i < |s| ==> s[i] != ':'
  }

  lemma SplitFirst(a: string, x: string, b: string, y: string)
    requires NoColon(a) && NoColon(b) && Joined(a, x) == Joined(b, y)
    ensures a == b && x == y
  {
    var s := Joined(a, x);
    assert s[|a|] == ':' && s[|b|] == ':';
    assert forall i :: 0 <= i < |a| ==> s[i] == a[i];
    assert forall i :: 0 <= i < |b| ==> s[i] == b[i];
    assert a == s[..|a|] && b == s[..|b|];
    assert x == s[|a| + 2..] && y == s[|b| + 2..];
  }

  lemma SplitLast(a: string, x: string, b: string, y: string)
    requires NoColon(x) && NoColon(y) && Joined(a, x) == Joined(b, y)
    ensures a == b && x == y
  {
    var s := Joined(a, x);
    assert s[|a| + 1] == ':' && s[|b| + 1] == ':';
    assert forall i :: |a| + 2 <= i < |s| ==> s[i] == x[i - |a| - 2];
    assert forall i :: |b| + 2 <= i < |s| ==> s[i] == y[i - |b| - 2];
    assert a == s[..|a|] && b == s[..|b|];
    assert x == s[|a| + 2..] && y == s[|b| + 2..];
  }

  lemma FixedShape(amount: int)
    ensures NoColon(Fixed2(amount))
    ensures var size := if amount < 0 then -amount else amount;
      var unsigned := Decimal(size / 100) + "." + Pad(size % 100, 2);
      Fixed2(amount) == (if amount < 0 then "-" + unsigned else unsigned) && IsDigit(unsigned[0])
  {
    var size := if amount < 0 then -amount else amount;
    var q, r := Decimal(size / 100), Pad(size % 100, 2);
    assert "" + q == q;
    assert (q + "." + r)[0] == q[0];
  }

  /** Two decimals: the printed amount determines the amount. */
  lemma FixedInjective(a: int, b: int)
    requires Fixed2(a) == Fixed2(b)
    ensures a == b
  {
    FixedShape(a);
    FixedShape(b);
    hide Fixed2;
    var m, n := if a < 0 then -a else a, if b < 0 then -b else b;
    var p, q := Decimal(m / 100) + "." + Pad(m % 100, 2), Decimal(n / 100) + "." + Pad(n % 100, 2);
    assert ("-" + p)[0] == '-' && ("-" + q)[0] == '-';
    assert ("-" + p)[1..] == p && ("-" + q)[1..] == q;
    assert (a < 0) == (b < 0) && p == q;
    UnsignedInjective(m, n);
  }

  lemma UnsignedInjective(m: nat, n: nat)
    requires Decimal(m / 100) + "." + Pad(m % 100, 2) == Decimal(n / 100) + "." + Pad(n % 100, 2)
    ensures m == n
  {
    var p, q := Decimal(m / 100) + "." + Pad(m % 100, 2), Decimal(n / 100) + "." + Pad(n % 100, 2);
    assert p[|p| - 2..] == Pad(m % 100, 2) && q[|q| - 2..] == Pad(n % 100, 2);
    assert p[..|p| - 3] == Decimal(m / 100) && q[..|q| - 3] == Decimal(n / 100);
    DecimalInjective(m / 100, n / 100);
    assert Power10(2) == 100;
    NumberOfPad(m % 100, 2);
    NumberOfPad(n % 100, 2);
  }

  lemma TypeNameInjective(s: EntryType, t: EntryType)
    ensures NoColon(TypeName(s))
    ensures TypeName(s) == TypeName(t) ==> s == t
  {
    assert "INCOME"[0] != "EXPENSE"[0];
  }

  /** The joined key determines its five parts, whatever the description holds. */
  lemma TransactionKeyInjective(w: Id, date: string, amount: int, t: EntryType, d: string,
                                w': Id, date': string, amount': int, t': EntryType, d': string)
    requires NoColon(date) && NoColon(date')
    requires TransactionKey(w, date, amount, t, d) == TransactionKey(w', date', amount', t', d')
    ensures w == w' && date == date' && amount == amount' && t == t' && d == d'
  {
    var tail1, tail1' := Joined(TypeName(t), d), Joined(TypeName(t'), d');
    var tail2, tail2' := Joined(Fixed2(amount), tail1), Joined(Fixed2(amount'), tail1');
    var tail3, tail3' := Joined(date, tail2), Joined(date', tail2');
    hide Joined, Fixed2, TypeName, Decimal, NoColon;
    FixedShape(amount);
    FixedShape(amount');
    TypeNameInjective(t, t');
    TypeNameInjective(t', t);
    SplitFirst(Decimal(w), tail3, Decimal(w'), tail3');
    SplitFirst(date, tail2, date', tail2');
    SplitFirst(Fixed2(amount), tail1, Fixed2(amount'), tail1');
    SplitFirst(TypeName(t), d, TypeName(t'), d');
    DecimalInjective(w, w');
    FixedInjective(amount, amount');
  }

  /** The joined key determines its four parts, although an instant holds colons. */
  lemma TransferKeyInjective(s: Id, d: Id, instant: string, amount: int, s': Id, d': Id, instant': string, amount': int)
    requires TransferKey(s, d, instant, amount) == TransferKey(s', d', instant', amount')
    ensures s == s' && d == d' && instant == instant' && amount == amount'
  {
    var tail1, tail1' := Joined(instant, Fixed2(amount)), Joined(instant', Fixed2(amount'));
    var tail2, tail2' := Joined(Decimal(d), tail1), Joined(Decimal(d'), tail1');
    hide Joined, Fixed2, Decimal, NoColon;
    FixedShape(amount);
    FixedShape(amount');
    SplitFirst(Decimal(s), tail2, Decimal(s'), tail2');
    SplitFirst(Decimal(d), tail1, Decimal(d'), tail1');
    SplitLast(instant, Fixed2(amount), instant', Fixed2(amount'));
    DecimalInjective(s, s');
    DecimalInjective(d, d');
    FixedInjective(amount, amount');
  }

  // ---------------------------------------------------------------- the sort

  ghost predicate Ordered(ts: seq<FileTransaction>) {
    forall i, j :: 0 <= i < j < |ts| ==> !StringLess(ts[j].date, ts[i].date)
  }

  function WithDate(ts: seq<FileTransaction>, date: string): seq<FileTransaction> {
    if ts == [] then []
    else WithDate(ts[..|ts| - 1], date) + if ts[|ts| - 1].date == date then [ts[|ts| - 1]] else []
  }

  lemma {:induction false} LessIsOrder(a: string, b: string, c: string)
    ensures !StringLess(a, a)
    ensures StringLess(a, b) && StringLess(b, c) ==> StringLess(a, c)
    ensures StringLess(a, b) || StringLess(b, a) || a == b
    decreases |a|
  {
    if a != "" && b != "" && c != "" {
      LessIsOrder(a[1..], b[1..], c[1..]);
      assert a == [a[0]] + a[1..] && b == [b[0]] + b[1..];
    } else if a != "" {
      LessIsOrder(a[1..], if b == "" then "" else b[1..], "");
      assert a == [a[0]] + a[1..] && (b != "" ==> b == [b[0]] + b[1..]);
    }
  }

  lemma WithOneMore(ts: seq<FileTransaction>, t: FileTransaction, date: string)
    ensures WithDate(ts + [t], date) == WithDate(ts, date) + if t.date == date then [t] else []
  {
    assert (ts + [t])[..|ts|] == ts;
  }

  lemma {:induction false} InsertIsStable(ts: seq<FileTransaction>, t: FileTransaction, date: string)
    ensures WithDate(InsertByDate(ts, t), date) == WithDate(ts, date) + if t.date == date then [t] else []
    decreases |ts|
  {
    hide WithDate, StringLess;
    if ts == [] || !StringLess(t.date, ts[|ts| - 1].date) {
      WithOneMore(ts, t, date);
    } else {
      var before, last := ts[..|ts| - 1], ts[|ts| - 1];
      InsertIsStable(before, t, date);
      WithOneMore(InsertByDate(before, t), last, date);
      WithOneMore(before, last, date);
      assert ts == before + [last];
      LessIsOrder(t.date, t.date, t.date);
      assert t.date != last.date;
    }
  }

  lemma {:induction false} InsertPermutes(ts: seq<FileTransaction>, t: FileTransaction)
    ensures multiset(InsertByDate(ts, t)) == multiset(ts) + multiset{t}
    decreases |ts|
  {
    hide StringLess;
    if ts != [] && StringLess(t.date, ts[|ts| - 1].date) {
      InsertPermutes(ts[..|ts| - 1], t);
      assert ts == ts[..|ts| - 1] + [ts[|ts| - 1]];
    }
  }

  lemma {:induction false} InsertIsOrdered(ts: seq<FileTransaction>, t: FileTransaction)
    requires Ordered(ts)
    ensures Ordered(InsertByDate(ts, t))
    decreases |ts|
  {
    hide StringLess;
    if ts == [] || !StringLess(t.date, ts[|ts| - 1].date) {
      forall i | 0 <= i < |ts| ensures !StringLess(t.date, ts[i].date) {
        LessIsOrder(t.date, ts[i].date, ts[|ts| - 1].date);
        LessIsOrder(ts[i].date, t.date, ts[|ts| - 1].date);
        LessIsOrder(ts[|ts| - 1].date, ts[i].date, t.date);
      }
    } else {
      var before, last := ts[..|ts| - 1], ts[|ts| - 1];
      InsertIsOrdered(before, t);
      var r := InsertByDate(before, t);
      InsertPermutes(before, t);
      forall i | 0 <= i < |r| ensures !StringLess(last.date, r[i].date) {
        assert r[i] in multiset(r);
        if r[i] == t {
          LessIsOrder(t.date, last.date, t.date);
        } else {
          assert r[i] in before;
          var k :| 0 <= k < |before| && before[k] == r[i];
          assert ts[k] == before[k];
        }
      }
    }
  }

  /** The sort permutes, orders by date, and keeps the order of the file within a date. */
  lemma {:induction false} SortIsStable(ts: seq<FileTransaction>, date: string)
    ensures multiset(SortByDate(ts)) == multiset(ts)
    ensures Ordered(SortByDate(ts))
    ensures WithDate(SortByDate(ts), date) == WithDate(ts, date)
    decreases |ts|
  {
    hide InsertByDate, Ordered;
    if ts != [] {
      var before, last := ts[..|ts| - 1], ts[|ts| - 1];
      SortIsStable(before, date);
      InsertPermutes(SortByDate(before), last);
      InsertIsStable(SortByDate(before), last, date);
      WithOneMore(before, last, date);
      InsertIsOrdered(SortByDate(before), last);
      assert ts == before + [last];
    } else {
      NothingOrdered();
    }
  }

  lemma NothingOrdered()
    ensures Ordered([])
  {
  }

  // ---------------------------------------------------------------- transactions

  predicate IsMapped(wallets: map<string, Id>, categories: map<string, Id>, t: FileTransaction) {
    t.walletId in wallets && t.categoryId in categories
  }

  function FileKey(text: Text, wallets: map<string, Id>, t: FileTransaction): string
    requires t.walletId in wallets
  {
    TransactionKey(wallets[t.walletId], DayOf(t.date), t.amount, t.entryType, Description(text, t.description))
  }

  /** The keys of the transactions of the file whose wallet and category are known. */
  ghost function FileKeys(text: Text, wallets: map<string, Id>, categories: map<string, Id>, ts: seq<FileTransaction>)
    : set<string>
  {
    set t | t in ts && IsMapped(wallets, categories, t) :: FileKey(text, wallets, t)
  }

  function CountMapped(wallets: map<string, Id>, categories: map<string, Id>, ts: seq<FileTransaction>): nat {
    if ts == [] then 0
    else CountMapped(wallets, categories, ts[..|ts| - 1]) + if IsMapped(wallets, categories, ts[|ts| - 1]) then 1 else 0
  }

  lemma {:induction false} CountWithout(wallets: map<string, Id>, categories: map<string, Id>,
                                        ts: seq<FileTransaction>, i: nat)
    requires i < |ts|
    ensures CountMapped(wallets, categories, ts) ==
      CountMapped(wallets, categories, ts[..i] + ts[i + 1..]) + if IsMapped(wallets, categories, ts[i]) then 1 else 0
    decreases |ts|
  {
    var last := |ts| - 1;
    if i < last {
      var before := ts[..last];
      CountWithout(wallets, categories, before, i);
      var rest := ts[..i] + ts[i + 1..];
      assert before[..i] == ts[..i] && before[i + 1..] == ts[i + 1..last];
      assert ts[i + 1..] == ts[i + 1..last] + [ts[last]];
      assert rest[..|rest| - 1] == before[..i] + before[i + 1..];
    } else {
      assert i == last && ts[i + 1..] == [];
      assert ts[..i] + ts[i + 1..] == ts[..last];
    }
  }

  /** The count does not depend on the order. */
  lemma {:induction false} CountOfPermutation(wallets: map<string, Id>, categories: map<string, Id>,
                                              ts: seq<FileTransaction>, us: seq<FileTransaction>)
    requires multiset(ts) == multiset(us)
    ensures CountMapped(wallets, categories, ts) == CountMapped(wallets, categories, us)
    ensures |ts| == |us|
    decreases |ts|
  {
    if ts == [] {
      assert |multiset(us)| == |us|;
    } else {
      var before, last := ts[..|ts| - 1], ts[|ts| - 1];
      MultisetWithout(ts, |ts| - 1);
      assert before + ts[|ts|..] == before;
      assert last in multiset(us);
      var i :| 0 <= i < |us| && us[i] == last;
      MultisetWithout(us, i);
      SameWithout(multiset(before), multiset(us[..i] + us[i + 1..]), last);
      CountOfPermutation(wallets, categories, before, us[..i] + us[i + 1..]);
      CountWithout(wallets, categories, us, i);
    }
  }

  lemma MultisetWithout<T>(xs: seq<T>, i: nat)
    requires i < |xs|
    ensures multiset(xs) == multiset(xs[..i] + xs[i + 1..]) + multiset{xs[i]}
  {
    assert xs == xs[..i] + [xs[i]] + xs[i + 1..];
  }

  lemma SameWithout<T>(a: multiset<T>, b: multiset<T>, x: T)
    requires a + multiset{x} == b + multiset{x}
    ensures a == b
  {
    assert a == a + multiset{x} - multiset{x};
    assert b == b + multiset{x} - multiset{x};
  }

  lemma FileKeysOfPermutation(text: Text, wallets: map<string, Id>, categories: map<string, Id>,
                              ts: seq<FileTransaction>, us: seq<FileTransaction>)
    requires multiset(ts) == multiset(us)
    ensures FileKeys(text, wallets, categories, ts) == FileKeys(text, wallets, categories, us)
  {
    assert forall t :: t in ts <==> t in multiset(ts);
    assert forall t :: t in us <==> t in multiset(us);
    hide FileKey, IsMapped;
  }

  lemma ItemKeys(platform: Platform, userId: string, wallets: map<string, Id>, categories: map<string, Id>,
                 ts: seq<FileTransaction>)
    ensures var items := TransactionItems(platform, userId, wallets, categories, ts);
      KeysUpTo(items, |items|) == FileKeys(platform.text, wallets, categories, ts)
  {
    hide TransactionKey, Description, DayOf, SafeReceipt, Lawful;
    var items := TransactionItems(platform, userId, wallets, categories, ts);
    forall key ensures key in KeysUpTo(items, |items|) <==> key in FileKeys(platform.text, wallets, categories, ts) {
      if key in FileKeys(platform.text, wallets, categories, ts) {
        var t :| t in ts && IsMapped(wallets, categories, t) && FileKey(platform.text, wallets, t) == key;
        var i :| 0 <= i < |ts| && ts[i] == t;
        assert items[i].Keyed? && items[i].key == key;
      }
      if key in KeysUpTo(items, |items|) {
        var i :| 0 <= i < |items| && items[i].Keyed? && items[i].key == key;
        assert ts[i] in ts && FileKey(platform.text, wallets, ts[i]) == key;
      }
    }
  }

  lemma {:induction false} ItemCount(platform: Platform, userId: string, wallets: map<string, Id>,
                                     categories: map<string, Id>, ts: seq<FileTransaction>, n: nat)
    requires n <= |ts|
    ensures CountKeyed(TransactionItems(platform, userId, wallets, categories, ts), n) ==
      CountMapped(wallets, categories, ts[..n])
    decreases n
  {
    hide TransactionKey, Description, DayOf, SafeReceipt, Lawful;
    if n > 0 {
      ItemCount(platform, userId, wallets, categories, ts, n - 1);
      assert ts[..n][..n - 1] == ts[..n - 1];
    }
  }

  lemma SortedKeysAndCount(text: Text, wallets: map<string, Id>, categories: map<string, Id>, ts: seq<FileTransaction>)
    ensures FileKeys(text, wallets, categories, SortByDate(ts)) == FileKeys(text, wallets, categories, ts)
    ensures CountMapped(wallets, categories, SortByDate(ts)) == CountMapped(wallets, categories, ts)
  {
    SortIsStable(ts, "");
    hide SortByDate;
    FileKeysOfPermutation(text, wallets, categories, SortByDate(ts), ts);
    CountOfPermutation(wallets, categories, SortByDate(ts), ts);
  }

  /** The items of the loop have the keys and the number of the mapped transactions of the file, in any order. */
  lemma LoopItems(platform: Platform, userId: string, wallets: map<string, Id>, categories: map<string, Id>,
                  ts: seq<FileTransaction>)
    ensures var items := TransactionItems(platform, userId, wallets, categories, SortByDate(ts));
      && KeysUpTo(items, |items|) == FileKeys(platform.text, wallets, categories, ts)
      && CountKeyed(items, |items|) == CountMapped(wallets, categories, ts)
      && forall i: nat :: i < |items| ==> !items[i].Broken?
  {
    var sorted := SortByDate(ts);
    var items := TransactionItems(platform, userId, wallets, categories, sorted);
    ItemKeys(platform, userId, wallets, categories, sorted);
    ItemCount(platform, userId, wallets, categories, sorted, |items|);
    SortedKeysAndCount(platform.text, wallets, categories, ts);
    assert forall i: nat :: i < |items| ==> !items[i].Broken?;
    hide *;
    assert sorted[..|items|] == sorted;
  }

  /**
   The accounts of the transaction loop: every transaction of the file is imported, skipped or not
   mapped; as many are imported as there are new keys; and the keys are the old and the new ones.
   None of this depends on the order of the file.
   */
  lemma TransactionAccounts(platform: Platform, userId: string, wallets: map<string, Id>, categories: map<string, Id>,
                            ts: seq<FileTransaction>, rows: seq<Transaction>)
    requires TransactionLoop(platform, userId, wallets, categories, ts, rows).Some?
    ensures var t := TransactionLoop(platform, userId, wallets, categories, ts, rows).value;
      var before, file := KeysIn(platform.text, rows), FileKeys(platform.text, wallets, categories, ts);
      && t.keys == before + file
      && t.imported == |file - before|
      && t.imported + t.skipped == CountMapped(wallets, categories, ts)
  {
    var items := TransactionItems(platform, userId, wallets, categories, SortByDate(ts));
    var start := TransactionsAtStart(platform.text, rows);
    LoopStoresFirsts(start, items, |items|);
    FirstsAreNewKeys(start.keys, items, |items|);
    LoopItems(platform, userId, wallets, categories, ts);
    hide SortByDate, TransactionItems, KeysIn, KeysUpTo, FileKeys, CountKeyed, CountMapped, FirstAt, RowsAt, Storable,
      After;
  }

  /** Dates as the schema of the file admits them hold no colon. */
  ghost predicate PlainDates(ts: seq<FileTransaction>) {
    forall t :: t in ts ==> NoColon(DayOf(t.date))
  }

  /** Every mapped transaction whose key is not there yet has a date that the column takes. */
  ghost predicate DatesTaken(platform: Platform, wallets: map<string, Id>, categories: map<string, Id>,
                             ts: seq<FileTransaction>, keys: set<string>)
  {
    forall t :: t in ts && IsMapped(wallets, categories, t) && FileKey(platform.text, wallets, t) !in keys ==>
      platform.dateColumn(DayOf(t.date)).Some?
  }

  lemma SameKeySameDay(text: Text, wallets: map<string, Id>, t: FileTransaction, u: FileTransaction)
    requires t.walletId in wallets && u.walletId in wallets
    requires NoColon(DayOf(t.date)) && NoColon(DayOf(u.date)) && FileKey(text, wallets, t) == FileKey(text, wallets, u)
    ensures DayOf(t.date) == DayOf(u.date)
  {
    TransactionKeyInjective(
      wallets[t.walletId], DayOf(t.date), t.amount, t.entryType, Description(text, t.description),
      wallets[u.walletId], DayOf(u.date), u.amount, u.entryType, Description(text, u.description));
  }

  lemma ItemIs(platform: Platform, userId: string, wallets: map<string, Id>, categories: map<string, Id>,
               ts: seq<FileTransaction>, i: nat)
    requires i < |ts|
    ensures var item := TransactionItems(platform, userId, wallets, categories, ts)[i];
      && (item.Keyed? <==> IsMapped(wallets, categories, ts[i])) && !item.Broken?
      && (item.Keyed? ==> item.key == FileKey(platform.text, wallets, ts[i])
                          && (item.row.Some? <==> platform.dateColumn(DayOf(ts[i].date)).Some?))
  {
    hide TransactionKey, Description, DayOf, SafeReceipt, Lawful;
  }

  lemma StorableTakesDates(platform: Platform, userId: string, wallets: map<string, Id>, categories: map<string, Id>,
                           ts: seq<FileTransaction>, keys: set<string>, t: FileTransaction)
    requires PlainDates(ts) && t in ts && IsMapped(wallets, categories, t)
    requires FileKey(platform.text, wallets, t) !in keys
    requires var items := TransactionItems(platform, userId, wallets, categories, ts); Storable(keys, items, |items|)
    ensures platform.dateColumn(DayOf(t.date)).Some?
  {
    var items := TransactionItems(platform, userId, wallets, categories, ts);
    var at := FirstAt(keys, items, |items|);
    var i: nat :| i < |ts| && ts[i] == t;
    ItemIs(platform, userId, wallets, categories, ts, i);
    hide TransactionItems, FirstAt, FileKey, DayOf, NoColon, Lawful;
    assert items[i].key in KeysUpTo(items, |items|);
    NewKeyHasFirst(keys, items, |items|, items[i].key);
    var j :| 0 <= j < |at| && items[at[j]].key == items[i].key;
    assert First(keys, items, at[j]);
    ItemIs(platform, userId, wallets, categories, ts, at[j]);
    SameKeySameDay(platform.text, wallets, t, ts[at[j]]);
  }

  /** When the loop goes through: exactly when the column takes the date of every transaction with a new key. */
  lemma TransactionLoopIff(platform: Platform, userId: string, wallets: map<string, Id>, categories: map<string, Id>,
                           ts: seq<FileTransaction>, rows: seq<Transaction>)
    requires PlainDates(ts)
    ensures TransactionLoop(platform, userId, wallets, categories, ts, rows).Some? <==>
      DatesTaken(platform, wallets, categories, ts, KeysIn(platform.text, rows))
  {
    var sorted, keys := SortByDate(ts), KeysIn(platform.text, rows);
    var items := TransactionItems(platform, userId, wallets, categories, sorted);
    SortIsStable(ts, "");
    SameMembers(sorted, ts);
    LoopStoresFirsts(TransactionsAtStart(platform.text, rows), items, |items|);
    hide SortByDate, TransactionItems, KeysIn, FileKey, DayOf, NoColon, Lawful, After, KeysUpTo, CountKeyed, FirstAt;
    if Storable(keys, items, |items|) {
      forall t | t in ts && IsMapped(wallets, categories, t) && FileKey(platform.text, wallets, t) !in keys
        ensures platform.dateColumn(DayOf(t.date)).Some?
      {
        StorableTakesDates(platform, userId, wallets, categories, sorted, keys, t);
      }
    }
    if DatesTaken(platform, wallets, categories, ts, keys) {
      forall i: nat | i < |items| ensures !items[i].Broken? && (First(keys, items, i) ==> items[i].row.Some?) {
        assert sorted[i] in ts;
        ItemIs(platform, userId, wallets, categories, sorted, i);
      }
    }
  }

  lemma SameMembers(ts: seq<FileTransaction>, us: seq<FileTransaction>)
    requires multiset(ts) == multiset(us)
    ensures forall t :: t in ts <==> t in us
  {
    assert forall t :: t in ts <==> t in multiset(ts);
    assert forall t :: t in us <==> t in multiset(us);
  }

  /** Files with the same transactions in another order both go through or both fail, with the same keys and counts. */
  lemma FileOrderIsIrrelevant(platform: Platform, userId: string, wallets: map<string, Id>, categories: map<string, Id>,
                              ts: seq<FileTransaction>, us: seq<FileTransaction>, rows: seq<Transaction>)
    requires multiset(ts) == multiset(us) && PlainDates(ts)
    ensures var a := TransactionLoop(platform, userId, wallets, categories, ts, rows);
      var b := TransactionLoop(platform, userId, wallets, categories, us, rows);
      && (a.Some? <==> b.Some?)
      && (a.Some? ==> a.value.keys == b.value.keys && a.value.imported == b.value.imported
                      && a.value.skipped == b.value.skipped)
  {
    SameMembers(ts, us);
    TransactionLoopIff(platform, userId, wallets, categories, ts, rows);
    TransactionLoopIff(platform, userId, wallets, categories, us, rows);
    hide TransactionLoop, FileKeys, CountMapped, KeysIn, FileKey, NoColon, DayOf, Lawful;
    if TransactionLoop(platform, userId, wallets, categories, ts, rows).Some? {
      TransactionAccounts(platform, userId, wallets, categories, ts, rows);
      TransactionAccounts(platform, userId, wallets, categories, us, rows);
      FileKeysOfPermutation(platform.text, wallets, categories, ts, us);
      CountOfPermutation(wallets, categories, ts, us);
    }
  }

  /** The date column gives back every date that is to be stored. */
  ghost predicate DatesKept(platform: Platform, wallets: map<string, Id>, categories: map<string, Id>,
                            ts: seq<FileTransaction>)
  {
    forall t :: t in ts && IsMapped(wallets, categories, t) ==>
      platform.dateColumn(DayOf(t.date)) == Some(DayOf(t.date))
  }

  /** What item i stores: the row of the file, mapped; its receipt only from the user's own folder. */
  lemma ItemRow(platform: Platform, userId: string, wallets: map<string, Id>, categories: map<string, Id>,
                ts: seq<FileTransaction>, i: nat)
    requires var items := TransactionItems(platform, userId, wallets, categories, ts);
      i < |items| && items[i].Keyed? && items[i].row.Some?
    ensures var item := TransactionItems(platform, userId, wallets, categories, ts)[i];
      var row := item.row.value;
      && IsMapped(wallets, categories, ts[i])
      && row.walletId == wallets[ts[i].walletId] && row.categoryId == categories[ts[i].categoryId]
      && row.amount == ts[i].amount && row.entryType == ts[i].entryType && row.description == ts[i].description
      && (row.receiptUrl.Some? ==>
            row.receiptUrl == ts[i].receiptUrl && "receipts/" + userId + "/" <= row.receiptUrl.value)
      && (platform.dateColumn(DayOf(ts[i].date)) == Some(DayOf(ts[i].date)) ==>
            row.date == DayOf(ts[i].date) && KeyOf(platform.text, row) == item.key)
  {
    hide TransactionKey, Description, Lawful;
  }

  /**
   When no date changes in the column, the stored rows have the keys of the loop, and no new row
   shares a key with an old row or another new one.
   */
  lemma TransactionsStayDistinct(platform: Platform, userId: string, wallets: map<string, Id>,
                                 categories: map<string, Id>, ts: seq<FileTransaction>, rows: seq<Transaction>)
    requires DatesKept(platform, wallets, categories, ts)
    requires TransactionLoop(platform, userId, wallets, categories, ts, rows).Some?
    ensures var t := TransactionLoop(platform, userId, wallets, categories, ts, rows).value;
      && rows <= t.rows && |t.rows| == |rows| + t.imported
      && KeysIn(platform.text, t.rows) == t.keys
      && (forall j :: |rows| <= j < |t.rows| ==> KeyOf(platform.text, t.rows[j]) !in KeysIn(platform.text, rows))
      && (forall i, j :: |rows| <= i < j < |t.rows| ==>
            KeyOf(platform.text, t.rows[i]) != KeyOf(platform.text, t.rows[j]))
  {
    var sorted := SortByDate(ts);
    var items := TransactionItems(platform, userId, wallets, categories, sorted);
    var start := TransactionsAtStart(platform.text, rows);
    var keyOf := (t: Transaction) => KeyOf(platform.text, t);
    SortIsStable(ts, "");
    assert HaveKeys(keyOf, items) by {
      hide SortByDate, KeyOf, DayOf, Description, TransactionKey, Lawful;
      forall i: nat | i < |items| && items[i].Keyed? && items[i].row.Some?
        ensures KeyOf(platform.text, items[i].row.value) == items[i].key
      {
        assert sorted[i] in multiset(sorted);
        assert sorted[i] in ts;
        ItemRow(platform, userId, wallets, categories, sorted, i);
      }
    }
    TableHasKeys(keyOf, start, items);
  }

  /** No imported transaction keeps a receipt from outside the folder of the importing user. */
  lemma ReceiptsAreOwn(platform: Platform, userId: string, wallets: map<string, Id>, categories: map<string, Id>,
                       ts: seq<FileTransaction>, rows: seq<Transaction>)
    requires TransactionLoop(platform, userId, wallets, categories, ts, rows).Some?
    ensures var t := TransactionLoop(platform, userId, wallets, categories, ts, rows).value;
      && rows <= t.rows
      && forall j :: |rows| <= j < |t.rows| && t.rows[j].receiptUrl.Some? ==>
           "receipts/" + userId + "/" <= t.rows[j].receiptUrl.value
  {
    var items := TransactionItems(platform, userId, wallets, categories, SortByDate(ts));
    var own := (t: Transaction) => t.receiptUrl.Some? ==> "receipts/" + userId + "/" <= t.receiptUrl.value;
    assert forall i :: 0 <= i < |items| && items[i].Keyed? && items[i].row.Some? ==> own(items[i].row.value) by {
      hide SortByDate, TransactionKey, Description, DayOf, Lawful;
      forall i: nat | i < |items| && items[i].Keyed? && items[i].row.Some? ensures own(items[i].row.value) {
        ItemRow(platform, userId, wallets, categories, SortByDate(ts), i);
      }
    }
    NewRowsSatisfy(own, TransactionsAtStart(platform.text, rows), items);
  }

  // ---------------------------------------------------------------- dates that the column changes

  /** The second transaction loop skips every mapped transaction. */
  lemma TransactionsAgain(platform: Platform, userId: string, wallets: map<string, Id>, categories: map<string, Id>,
                          ts: seq<FileTransaction>, rows: seq<Transaction>)
    requires DatesKept(platform, wallets, categories, ts)
    requires TransactionLoop(platform, userId, wallets, categories, ts, rows).Some?
    ensures var t := TransactionLoop(platform, userId, wallets, categories, ts, rows).value;
      TransactionLoop(platform, userId, wallets, categories, ts, t.rows) ==
      Some(Tally(t.rows, t.keys, 0, CountMapped(wallets, categories, ts)))
  {
    var t := TransactionLoop(platform, userId, wallets, categories, ts, rows).value;
    var items := TransactionItems(platform, userId, wallets, categories, SortByDate(ts));
    TransactionsStayDistinct(platform, userId, wallets, categories, ts, rows);
    TransactionAccounts(platform, userId, wallets, categories, ts, rows);
    LoopItems(platform, userId, wallets, categories, ts);
    assert KeysUpTo(items, |items|) <= KeysIn(platform.text, t.rows);
    hide SortByDate, TransactionItems, KeysUpTo, FileKeys, KeysIn, CountMapped, CountKeyed, Lawful, DatesKept, After;
    KnownKeysSkip(TransactionsAtStart(platform.text, t.rows), items, |items|);
  }

  /** What comes from the date column goes back into it as it is, and holds no colon. */
  ghost predicate SettledColumn(platform: Platform) {
    forall d :: platform.dateColumn(d).Some? ==>
      NoColon(platform.dateColumn(d).value)
      && platform.dateColumn(platform.dateColumn(d).value) == platform.dateColumn(d)
  }

  predicate SettledRow(platform: Platform, row: Transaction) {
    (forall i :: 0 <= i < |row.date| ==> row.date[i] != ':') && platform.dateColumn(row.date) == Some(row.date)
  }

  ghost predicate SettledRows(platform: Platform, rows: seq<Transaction>) {
    forall i :: 0 <= i < |rows| ==> SettledRow(platform, rows[i])
  }

  /** The dates of imported transactions come from the column. */
  lemma RowsStaySettled(platform: Platform, userId: string, wallets: map<string, Id>, categories: map<string, Id>,
                        ts: seq<FileTransaction>, rows: seq<Transaction>)
    requires SettledColumn(platform) && SettledRows(platform, rows)
    requires TransactionLoop(platform, userId, wallets, categories, ts, rows).Some?
    ensures SettledRows(platform, TransactionLoop(platform, userId, wallets, categories, ts, rows).value.rows)
  {
    var items := TransactionItems(platform, userId, wallets, categories, SortByDate(ts));
    var settled := (t: Transaction) => SettledRow(platform, t);
    hide SortByDate, TransactionKey, Description, DayOf, Lawful, SafeReceipt, KeysIn;
    assert forall i :: 0 <= i < |items| && items[i].Keyed? && items[i].row.Some? ==> settled(items[i].row.value);
    NewRowsSatisfy(settled, TransactionsAtStart(platform.text, rows), items);
  }

  /** A settled table never holds the key of a transaction whose date the column changes or refuses. */
  lemma ChangedDateIsNew(platform: Platform, wallets: map<string, Id>, t: FileTransaction, rows: seq<Transaction>)
    requires SettledRows(platform, rows) && t.walletId in wallets && NoColon(DayOf(t.date))
    requires platform.dateColumn(DayOf(t.date)) != Some(DayOf(t.date))
    ensures FileKey(platform.text, wallets, t) !in KeysIn(platform.text, rows)
  {
    hide DayOf, Lawful, TransactionKey, Description;
    forall i | 0 <= i < |rows| ensures KeyOf(platform.text, rows[i]) != FileKey(platform.text, wallets, t) {
      assert SettledRow(platform, rows[i]);
      if KeyOf(platform.text, rows[i]) == FileKey(platform.text, wallets, t) {
        TransactionKeyInjective(
          rows[i].walletId, rows[i].date, rows[i].amount, rows[i].entryType,
          Description(platform.text, rows[i].description),
          wallets[t.walletId], DayOf(t.date), t.amount, t.entryType, Description(platform.text, t.description));
      }
    }
  }

  /** Every import of such a transaction fails, if the column refuses the date, or books it once more. */
  lemma ChangedDateComesBack(platform: Platform, userId: string, wallets: map<string, Id>, categories: map<string, Id>,
                             ts: seq<FileTransaction>, rows: seq<Transaction>, t: FileTransaction)
    requires SettledRows(platform, rows) && PlainDates(ts) && t in ts && IsMapped(wallets, categories, t)
    requires platform.dateColumn(DayOf(t.date)) != Some(DayOf(t.date))
    ensures var r := TransactionLoop(platform, userId, wallets, categories, ts, rows);
      && (platform.dateColumn(DayOf(t.date)).None? ==> r.None?)
      && (r.Some? ==> r.value.imported >= 1)
  {
    ChangedDateIsNew(platform, wallets, t, rows);
    TransactionLoopIff(platform, userId, wallets, categories, ts, rows);
    hide TransactionLoop, KeysIn, FileKey, DayOf, NoColon, Lawful, CountMapped;
    if TransactionLoop(platform, userId, wallets, categories, ts, rows).Some? {
      TransactionAccounts(platform, userId, wallets, categories, ts, rows);
      var unknown := FileKeys(platform.text, wallets, categories, ts) - KeysIn(platform.text, rows);
      assert FileKey(platform.text, wallets, t) in unknown;
      assert |unknown| > 0;
    }
  }

  /**
   A second loop over the same transactions always goes through, and it imports nothing exactly when
   the column gives back the date of every mapped transaction.
   */
  lemma SecondLoopIdleIff(platform: Platform, userId: string, wallets: map<string, Id>, categories: map<string, Id>,
                          ts: seq<FileTransaction>, rows: seq<Transaction>)
    requires SettledColumn(platform) && SettledRows(platform, rows) && PlainDates(ts)
    requires TransactionLoop(platform, userId, wallets, categories, ts, rows).Some?
    ensures var first := TransactionLoop(platform, userId, wallets, categories, ts, rows).value;
      var second := TransactionLoop(platform, userId, wallets, categories, ts, first.rows);
      && second.Some?
      && (second.value.imported == 0 <==> DatesKept(platform, wallets, categories, ts))
      && (second.value.imported == 0 <==> second.value.rows == first.rows)
  {
    var first := TransactionLoop(platform, userId, wallets, categories, ts, rows).value;
    RowsStaySettled(platform, userId, wallets, categories, ts, rows);
    SecondLoopGoesThrough(platform, userId, wallets, categories, ts, rows);
    LoopGrows(platform, userId, wallets, categories, ts, first.rows);
    hide TransactionLoop, KeysIn, FileKey, DayOf, NoColon, Lawful, CountMapped, SettledRows, SettledColumn, PlainDates;
    if DatesKept(platform, wallets, categories, ts) {
      TransactionsAgain(platform, userId, wallets, categories, ts, rows);
    } else {
      var t :| t in ts && IsMapped(wallets, categories, t) && platform.dateColumn(DayOf(t.date)) != Some(DayOf(t.date));
      ChangedDateComesBack(platform, userId, wallets, categories, ts, first.rows, t);
    }
  }

  /** Rows are appended, as many as are counted. */
  lemma LoopGrows(platform: Platform, userId: string, wallets: map<string, Id>, categories: map<string, Id>,
                  ts: seq<FileTransaction>, rows: seq<Transaction>)
    requires TransactionLoop(platform, userId, wallets, categories, ts, rows).Some?
    ensures var t := TransactionLoop(platform, userId, wallets, categories, ts, rows).value;
      rows <= t.rows && |t.rows| == |rows| + t.imported
  {
    var items := TransactionItems(platform, userId, wallets, categories, SortByDate(ts));
    hide SortByDate, TransactionItems, KeysIn, KeysUpTo, Lawful;
    LoopStoresFirsts(TransactionsAtStart(platform.text, rows), items, |items|);
  }

  lemma KeysStay(text: Text, rows: seq<Transaction>, more: seq<Transaction>)
    requires rows <= more
    ensures KeysIn(text, rows) <= KeysIn(text, more)
  {
    hide KeyOf, Lawful;
    forall i | 0 <= i < |rows| ensures KeyOf(text, rows[i]) in KeysIn(text, more) {
      assert more[i] == rows[i];
    }
  }

  lemma SecondLoopGoesThrough(platform: Platform, userId: string, wallets: map<string, Id>,
                              categories: map<string, Id>, ts: seq<FileTransaction>, rows: seq<Transaction>)
    requires PlainDates(ts) && TransactionLoop(platform, userId, wallets, categories, ts, rows).Some?
    ensures var first := TransactionLoop(platform, userId, wallets, categories, ts, rows).value;
      TransactionLoop(platform, userId, wallets, categories, ts, first.rows).Some?
  {
    var first := TransactionLoop(platform, userId, wallets, categories, ts, rows).value;
    LoopGrows(platform, userId, wallets, categories, ts, rows);
    KeysStay(platform.text, rows, first.rows);
    TransactionLoopIff(platform, userId, wallets, categories, ts, rows);
    TransactionLoopIff(platform, userId, wallets, categories, ts, first.rows);
    hide TransactionLoop, KeysIn, FileKey, DayOf, NoColon, Lawful;
  }

  // ---------------------------------------------------------------- transfers

  /** Both wallets are known, and they are not merged into one. */
  predicate TransferIsMapped(wallets: map<string, Id>, t: FileTransfer) {
    t.sourceWalletId in wallets && t.destinationWalletId in wallets
    && wallets[t.sourceWalletId] != wallets[t.destinationWalletId]
  }

  ghost function TransferFileKeys(platform: Platform, wallets: map<string, Id>, ts: seq<FileTransfer>): set<string> {
    set t | t in ts && TransferIsMapped(wallets, t) && platform.isoInstant(t.transferredAt).Some? ::
      TransferKey(wallets[t.sourceWalletId], wallets[t.destinationWalletId],
                  platform.isoInstant(t.transferredAt).value, t.amount)
  }

  function CountTransfers(wallets: map<string, Id>, ts: seq<FileTransfer>): nat {
    if ts == [] then 0
    else CountTransfers(wallets, ts[..|ts| - 1]) + if TransferIsMapped(wallets, ts[|ts| - 1]) then 1 else 0
  }

  lemma TransferItemKeys(platform: Platform, wallets: map<string, Id>, ts: seq<FileTransfer>)
    ensures KeysUpTo(TransferItems(platform, wallets, ts), |ts|) == TransferFileKeys(platform, wallets, ts)
  {
    hide TransferKey;
    var items := TransferItems(platform, wallets, ts);
    forall key ensures key in KeysUpTo(items, |items|) <==> key in TransferFileKeys(platform, wallets, ts) {
      if key in TransferFileKeys(platform, wallets, ts) {
        var t :| t in ts && TransferIsMapped(wallets, t) && platform.isoInstant(t.transferredAt).Some?
          && TransferKey(wallets[t.sourceWalletId], wallets[t.destinationWalletId],
                         platform.isoInstant(t.transferredAt).value, t.amount) == key;
        var i :| 0 <= i < |ts| && ts[i] == t;
        assert items[i].Keyed? && items[i].key == key;
      }
      if key in KeysUpTo(items, |items|) {
        var i :| 0 <= i < |items| && items[i].Keyed? && items[i].key == key;
        assert ts[i] in ts;
      }
    }
  }

  lemma {:induction false} TransferItemCount(platform: Platform, wallets: map<string, Id>, ts: seq<FileTransfer>,
                                             n: nat)
    requires n <= |ts| && forall i :: 0 <= i < n ==> !TransferItems(platform, wallets, ts)[i].Broken?
    ensures CountKeyed(TransferItems(platform, wallets, ts), n) == CountTransfers(wallets, ts[..n])
    decreases n
  {
    hide TransferKey;
    if n > 0 {
      TransferItemCount(platform, wallets, ts, n - 1);
      assert ts[..n][..n - 1] == ts[..n - 1];
      assert !TransferItems(platform, wallets, ts)[n - 1].Broken?;
    }
  }

  /** The accounts of the transfer loop; the loop goes through exactly when every mapped instant can be read. */
  lemma TransferAccounts(platform: Platform, wallets: map<string, Id>, ts: seq<FileTransfer>, rows: seq<Transfer>)
    ensures TransferLoop(platform, wallets, ts, rows).Some? <==>
      forall t :: t in ts && TransferIsMapped(wallets, t) ==> platform.isoInstant(t.transferredAt).Some?
    ensures TransferLoop(platform, wallets, ts, rows).Some? ==>
      var t := TransferLoop(platform, wallets, ts, rows).value;
      var before, file := TransferKeysIn(rows), TransferFileKeys(platform, wallets, ts);
      && TransferKeysIn(t.rows) == before + file
      && rows <= t.rows && |t.rows| == |rows| + t.imported
      && t.imported == |file - before|
      && t.imported + t.skipped == CountTransfers(wallets, ts)
      && (forall i, j :: |rows| <= i < j < |t.rows| ==> TransferKeyOf(t.rows[i]) != TransferKeyOf(t.rows[j]))
  {
    var items, start := TransferItems(platform, wallets, ts), TransfersAtStart(rows);
    LoopStoresFirsts(start, items, |items|);
    TransfersStorable(platform, wallets, ts, start.keys);
    if TransferLoop(platform, wallets, ts, rows).Some? {
      FirstsAreNewKeys(start.keys, items, |items|);
      TransferItemKeys(platform, wallets, ts);
      TransferItemCount(platform, wallets, ts, |ts|);
      assert ts[..|ts|] == ts;
      TransfersHaveKeys(platform, wallets, ts);
      TransferRowKeysAre(rows);
      TableHasKeys((t: Transfer) => TransferKeyOf(t), start, items);
      TransferRowKeysAre(After(start, items, |items|).value.rows);
    }
  }

  lemma TransfersStorable(platform: Platform, wallets: map<string, Id>, ts: seq<FileTransfer>, keys: set<string>)
    ensures Storable(keys, TransferItems(platform, wallets, ts), |ts|) <==>
      forall t :: t in ts && TransferIsMapped(wallets, t) ==> platform.isoInstant(t.transferredAt).Some?
  {
    hide TransferKey;
    var items := TransferItems(platform, wallets, ts);
    if Storable(keys, items, |ts|) {
      forall t | t in ts && TransferIsMapped(wallets, t) ensures platform.isoInstant(t.transferredAt).Some? {
        var i: nat :| i < |ts| && ts[i] == t;
        assert !items[i].Broken?;
      }
    }
    if forall t :: t in ts && TransferIsMapped(wallets, t) ==> platform.isoInstant(t.transferredAt).Some? {
      forall i: nat | i < |ts| ensures !items[i].Broken? && (items[i].Keyed? ==> items[i].row.Some?) {
        assert ts[i] in ts;
      }
    }
  }

  lemma TransfersHaveKeys(platform: Platform, wallets: map<string, Id>, ts: seq<FileTransfer>)
    ensures HaveKeys((t: Transfer) => TransferKeyOf(t), TransferItems(platform, wallets, ts))
  {
    hide TransferKey;
  }

  lemma TransferRowKeysAre(rows: seq<Transfer>)
    ensures RowKeys((t: Transfer) => TransferKeyOf(t), rows) == TransferKeysIn(rows)
  {
    hide TransferKeyOf;
  }
}
