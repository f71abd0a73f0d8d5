/** What one transaction more does to the two spending queries, in the fields of transaction, budget and wallet. */
module SpendingChange {
  import opened Prelude
  import opened SpendingSummary

  /** A transaction that counts adds its amount and one to the count, and may be the latest; any other adds nothing. */
  predicate Takes(before: Summary, after: Summary, t: Transaction, counted: bool) {
    if counted then
      && after.amount == before.amount + t.amount
      && after.transactionCount == before.transactionCount + 1
      && after.lastTransactionAt == Some(
           if before.lastTransactionAt.Some? && before.lastTransactionAt.value > t.date
           then before.lastTransactionAt.value else t.date)
    else after == before
  }

  function With(db: Database, i: nat, t: Transaction): Database
    requires i <= |db.transactions|
  {
    db.(transactions := db.transactions[..i] + [t] + db.transactions[i..])
  }

  lemma {:induction false} AggregateWith(ts: seq<Transaction>, i: nat, t: Transaction, p: Transaction -> bool)
    requires i <= |ts|
    ensures Aggregate(ts[..i] + [t] + ts[i..], p) == Plus(Aggregate(ts, p), Part(t, p))
    decreases i
  {
    hide Plus, Part;
    var all := ts[..i] + [t] + ts[i..];
    if i == 0 {
      assert all[1..] == ts;
      PlusLaws(Part(t, p), Aggregate(ts, p), NOTHING);
    } else {
      assert all[0] == ts[0] && all[1..] == ts[1..][..i - 1] + [t] + ts[1..][i - 1..];
      AggregateWith(ts[1..], i - 1, t, p);
      PlusLaws(Part(ts[0], p), Aggregate(ts[1..], p), Part(t, p));
    }
  }

  lemma PartTakes(before: Summary, t: Transaction, p: Transaction -> bool)
    ensures Takes(before, Plus(before, Part(t, p)), t, p(t))
  {
  }

  /** Without transactions nothing is spent. */
  lemma NothingSpent(db: Database, userId: Id, b: Budget)
    requires db.transactions == [] && Consistent(db)
    ensures GetSpendingSummary(db, b) == Batched(db, userId, b) == Summary(0, 0, None)
  {
    GroupIsJoined(db, b);
  }

  /**
   A transaction more changes the single query exactly when it is an expense, within the days of the budget,
   of its category if it has one, and in the wallet of the budget, or else booked by its user in a wallet of
   its currency.
   */
  lemma SingleTakes(db: Database, b: Budget, i: nat, t: Transaction)
    requires i <= |db.transactions|
    ensures Takes(GetSpendingSummary(db, b), GetSpendingSummary(With(db, i, t), b), t,
      && t.isExpense && b.startDate <= t.date && t.date <= b.endDate
      && (b.categoryId.Some? ==> t.categoryId == b.categoryId.value)
      && (b.walletId.Some? ==> t.walletId == b.walletId.value)
      && (b.walletId.None? ==>
            t.userId == b.userId && exists w :: w in db.wallets && w.id == t.walletId && w.currency == b.currency))
  {
    AggregateWith(db.transactions, i, t, x => Counts(db, b, x));
    PartTakes(GetSpendingSummary(db, b), t, x => Counts(db, b, x));
    SameCondition(With(db, i, t).transactions, x => Counts(db, b, x), x => Counts(With(db, i, t), b, x));
    hide Takes, Plus, Part, Aggregate, With;
    if b.walletId.None? && InWalletOf(db.wallets, b.currency, t) {
      var k :| 0 <= k < |db.wallets| && db.wallets[k].id == t.walletId && db.wallets[k].currency == b.currency;
      assert db.wallets[k] in db.wallets;
    }
  }

  /** The batch query also asks that the wallet is one of the user of the budget, unless the budget names it. */
  lemma BatchTakes(db: Database, b: Budget, i: nat, t: Transaction)
    requires i <= |db.transactions| && Consistent(With(db, i, t))
    ensures Takes(Batched(db, b.userId, b), Batched(With(db, i, t), b.userId, b), t,
      && t.isExpense && b.startDate <= t.date && t.date <= b.endDate
      && (b.categoryId.Some? ==> t.categoryId == b.categoryId.value)
      && (b.walletId.Some? ==> t.walletId == b.walletId.value)
      && (b.walletId.None? ==>
            && t.userId == b.userId
            && exists w :: w in db.wallets && w.id == t.walletId && w.currency == b.currency && w.userId == b.userId))
  {
    hide Takes, Plus, Part, Consistent, Batched, Joined;
    BatchedWith(db, b, i, t);
    PartTakes(Batched(db, b.userId, b), t, x => Joined(b, db.wallets, x));
    JoinedIs(With(db, i, t), b, i, t);
  }

  lemma BatchedWith(db: Database, b: Budget, i: nat, t: Transaction)
    requires i <= |db.transactions| && Consistent(With(db, i, t))
    ensures Batched(With(db, i, t), b.userId, b)
      == Plus(Batched(db, b.userId, b), Part(t, x => Joined(b, db.wallets, x)))
  {
    ConsistentWithout(db, i, t);
    hide Plus, Part, Aggregate, Group, AggregateRows, Joined, Consistent;
    GroupIsJoined(db, b);
    GroupIsJoined(With(db, i, t), b);
    AggregateWith(db.transactions, i, t, x => Joined(b, db.wallets, x));
  }

  lemma ConsistentWithout(db: Database, i: nat, t: Transaction)
    requires i <= |db.transactions| && Consistent(With(db, i, t))
    ensures Consistent(db)
  {
    forall x | x in db.transactions ensures x in With(db, i, t).transactions {
    }
  }

  lemma JoinedIs(db: Database, b: Budget, i: nat, t: Transaction)
    requires Consistent(db) && i < |db.transactions| && db.transactions[i] == t
    ensures Joined(b, db.wallets, t) <==>
      && t.isExpense && b.startDate <= t.date && t.date <= b.endDate
      && (b.categoryId.Some? ==> t.categoryId == b.categoryId.value)
      && (b.walletId.Some? ==> t.walletId == b.walletId.value)
      && (b.walletId.None? ==>
            && t.userId == b.userId
            && exists w :: w in db.wallets && w.id == t.walletId && w.currency == b.currency && w.userId == b.userId)
  {
    assert t in db.transactions;
    var w :| w in db.wallets && w.id == t.walletId;
    var k :| 0 <= k < |db.wallets| && db.wallets[k] == w;
    assert forall j :: 0 <= j < |db.wallets| && db.wallets[j].id == t.walletId ==> j == k;
    assert Joined(b, db.wallets, t) <==> JoinsWallet(b, w) && JoinsTransaction(b, w, t);
  }
}
