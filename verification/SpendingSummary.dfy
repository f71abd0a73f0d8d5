/**
 The two ways to compute what was spent against a budget: one aggregate query per budget, and one
 joined and grouped query for many budgets. Amounts are in hundredths, dates are day numbers.
 */
module SpendingSummary {
  import opened Prelude

  type Id = nat

  datatype Wallet = Wallet(id: Id, userId: Id, currency: string)

  datatype Transaction = Transaction(
    userId: Id, walletId: Id, categoryId: Id, amount: int, isExpense: bool, date: int)

  datatype Budget = Budget(
    id: Id, userId: Id, categoryId: Option<Id>, walletId: Option<Id>, currency: string, startDate: int, endDate: int)

  datatype Database = Database(wallets: seq<Wallet>, transactions: seq<Transaction>, budgets: seq<Budget>)

  datatype Summary = Summary(amount: int, transactionCount: int, lastTransactionAt: Option<int>)

  const NOTHING := Summary(0, 0, None)

  /** Primary keys and foreign keys. */
  ghost predicate Consistent(db: Database) {
    && (forall i, j :: 0 <= i < j < |db.wallets| ==> db.wallets[i].id != db.wallets[j].id)
    && (forall i, j :: 0 <= i < j < |db.budgets| ==> db.budgets[i].id != db.budgets[j].id)
    && (forall t :: t in db.transactions ==> exists w :: w in db.wallets && w.id == t.walletId)
    && (forall b :: b in db.budgets && b.walletId.Some? ==> exists w :: w in db.wallets && w.id == b.walletId.value)
  }

  // ---------------------------------------------------------------- aggregates

  function Latest(a: Option<int>, b: Option<int>): Option<int> {
    if a.None? then b else if b.None? then a else Some(Max(a.value, b.value))
  }

  function Plus(a: Summary, b: Summary): Summary {
    Summary(a.amount + b.amount, a.transactionCount + b.transactionCount,
            Latest(a.lastTransactionAt, b.lastTransactionAt))
  }

  function One(t: Transaction): Summary {
    Summary(t.amount, 1, Some(t.date))
  }

  /** What one joined row, or one transaction, adds to an aggregate. */
  function RowPart(row: Option<Transaction>): Summary {
    if row.Some? then One(row.value) else NOTHING
  }

  function Part(t: Transaction, condition: Transaction -> bool): Summary {
    if condition(t) then One(t) else NOTHING
  }

  /** SUM, COUNT and MAX over the transactions that satisfy the condition. */
  function Aggregate(ts: seq<Transaction>, condition: Transaction -> bool): Summary {
    if ts == [] then NOTHING
    else Plus(Part(ts[0], condition), Aggregate(ts[1..], condition))
  }

  // ---------------------------------------------------------------- one budget

  /** The conditions that both queries put on a transaction itself. */
  predicate InScope(b: Budget, t: Transaction) {
    t.isExpense && b.startDate <= t.date <= b.endDate && (b.categoryId.None? || t.categoryId == b.categoryId.value)
  }

  predicate InWalletOf(wallets: seq<Wallet>, currency: string, t: Transaction) {
    exists i :: 0 <= i < |wallets| && wallets[i].id == t.walletId && wallets[i].currency == currency
  }

  /** The condition of getSpendingSummary on the fields of budget b. */
  predicate Counts(db: Database, b: Budget, t: Transaction) {
    InScope(b, t)
    && (if b.walletId.Some? then t.walletId == b.walletId.value
        else t.userId == b.userId && InWalletOf(db.wallets, b.currency, t))
  }

  function GetSpendingSummary(db: Database, b: Budget): Summary {
    Aggregate(db.transactions, t => Counts(db, b, t))
  }

  // ---------------------------------------------------------------- many budgets

  predicate JoinsWallet(b: Budget, w: Wallet) {
    if b.walletId.Some? then w.id == b.walletId.value else w.userId == b.userId && w.currency == b.currency
  }

  predicate JoinsTransaction(b: Budget, w: Wallet, t: Transaction) {
    t.walletId == w.id && (b.walletId.Some? || t.userId == b.userId) && InScope(b, t)
  }

  function Matches(ts: seq<Transaction>, b: Budget, w: Wallet): seq<Transaction> {
    if ts == [] then []
    else (if JoinsTransaction(b, w, ts[0]) then [ts[0]] else []) + Matches(ts[1..], b, w)
  }

  function Somes(ts: seq<Transaction>): seq<Option<Transaction>> {
    seq(|ts|, i requires 0 <= i < |ts| => Some(ts[i]))
  }

  /** The rows for one wallet: its transactions, or one row without a transaction. */
  function JoinTransactions(ts: seq<Transaction>, b: Budget, w: Wallet): seq<Option<Transaction>> {
    if Matches(ts, b, w) == [] then [None] else Somes(Matches(ts, b, w))
  }

  function JoinAll(ts: seq<Transaction>, b: Budget, ws: seq<Wallet>): seq<Option<Transaction>> {
    if ws == [] then []
    else (if JoinsWallet(b, ws[0]) then JoinTransactions(ts, b, ws[0]) else []) + JoinAll(ts, b, ws[1..])
  }

  /** The group of budget b after both left joins. */
  function Group(db: Database, b: Budget): seq<Option<Transaction>> {
    if JoinAll(db.transactions, b, db.wallets) == [] then [None] else JoinAll(db.transactions, b, db.wallets)
  }

  /** COALESCE(SUM), COUNT and MAX skip the rows without a transaction. */
  function AggregateRows(rows: seq<Option<Transaction>>): Summary {
    if rows == [] then NOTHING
    else Plus(RowPart(rows[0]), AggregateRows(rows[1..]))
  }

  datatype Row = Row(budgetId: Id, summary: Summary)

  /** The query: one row for every requested budget of the user. */
  function SpendingRows(db: Database, userId: Id, ids: set<Id>, budgets: seq<Budget>): seq<Row> {
    if budgets == [] then []
    else
      (if budgets[0].id in ids && budgets[0].userId == userId
       then [Row(budgets[0].id, AggregateRows(Group(db, budgets[0])))] else [])
      + SpendingRows(db, userId, ids, budgets[1..])
  }

  lemma {:induction false} SpendingRowsAre(db: Database, userId: Id, ids: set<Id>, budgets: seq<Budget>)
    ensures forall r :: r in SpendingRows(db, userId, ids, budgets) <==>
      exists i :: 0 <= i < |budgets| && budgets[i].id in ids && budgets[i].userId == userId
                  && r == Row(budgets[i].id, AggregateRows(Group(db, budgets[i])))
    decreases |budgets|
  {
    if budgets != [] {
      SpendingRowsAre(db, userId, ids, budgets[1..]);
      assert forall i :: 0 < i < |budgets| ==> budgets[i] == budgets[1..][i - 1];
      forall r | r in SpendingRows(db, userId, ids, budgets[1..])
        ensures exists i :: 0 <= i < |budgets| && budgets[i].id in ids && budgets[i].userId == userId
                            && r == Row(budgets[i].id, AggregateRows(Group(db, budgets[i])))
      {
        var i :| 0 <= i < |budgets[1..]| && budgets[1..][i].id in ids && budgets[1..][i].userId == userId
                 && r == Row(budgets[1..][i].id, AggregateRows(Group(db, budgets[1..][i])));
        assert budgets[i + 1] == budgets[1..][i];
      }
    }
  }

  /** What the batch knows of a budget. */
  function Batched(db: Database, userId: Id, b: Budget): Summary {
    if b.userId == userId then AggregateRows(Group(db, b)) else NOTHING
  }

  /** The first loop of getBatchSpendingSummaries. */
  method FromRows(spendingRows: seq<Row>) returns (summaryMap: map<Id, Summary>)
    ensures forall id :: id in summaryMap ==> Row(id, summaryMap[id]) in spendingRows
    ensures forall j :: 0 <= j < |spendingRows| ==> spendingRows[j].budgetId in summaryMap
  {
    summaryMap := map[];
    for i := 0 to |spendingRows|
      invariant forall id :: id in summaryMap ==> Row(id, summaryMap[id]) in spendingRows
      invariant forall j :: 0 <= j < i ==> spendingRows[j].budgetId in summaryMap
    {
      assert Row(spendingRows[i].budgetId, spendingRows[i].summary) == spendingRows[i];
      summaryMap := summaryMap[spendingRows[i].budgetId := spendingRows[i].summary];
    }
  }

  /** The second loop of getBatchSpendingSummaries. */
  method FillMissing(answered: map<Id, Summary>, budgets: seq<Budget>) returns (summaryMap: map<Id, Summary>)
    ensures summaryMap.Keys == answered.Keys + set i | 0 <= i < |budgets| :: budgets[i].id
    ensures forall id :: id in summaryMap ==> summaryMap[id] == if id in answered then answered[id] else NOTHING
  {
    summaryMap := answered;
    for i := 0 to |budgets|
      invariant forall id :: id in summaryMap ==> summaryMap[id] == if id in answered then answered[id] else NOTHING
      invariant summaryMap.Keys == answered.Keys + set j | 0 <= j < i :: budgets[j].id
    {
      if budgets[i].id !in summaryMap {
        summaryMap := summaryMap[budgets[i].id := NOTHING];
      }
    }
  }

  /** getBatchSpendingSummaries: the rows of the query, and nothing spent for the budgets without a row. */
  method GetBatchSpendingSummaries(db: Database, userId: Id, budgets: seq<Budget>)
    returns (summaryMap: map<Id, Summary>)
    requires Consistent(db) && forall i :: 0 <= i < |budgets| ==> budgets[i] in db.budgets
    ensures summaryMap.Keys == set i | 0 <= i < |budgets| :: budgets[i].id
    ensures forall i :: 0 <= i < |budgets| ==> summaryMap[budgets[i].id] == Batched(db, userId, budgets[i])
  {
    hide SpendingRows, Group, AggregateRows;
    if |budgets| == 0 {
      return map[];
    }
    var ids := set i | 0 <= i < |budgets| :: budgets[i].id;
    var spendingRows := SpendingRows(db, userId, ids, db.budgets);
    var answered := FromRows(spendingRows);
    AnsweredAre(db, userId, ids, spendingRows, answered);
    summaryMap := FillMissing(answered, budgets);
    assert forall i :: 0 <= i < |budgets| ==> budgets[i].id in ids;
  }

  /** The rows of the query answer exactly the requested budgets of the user. */
  lemma AnsweredAre(db: Database, userId: Id, ids: set<Id>, rows: seq<Row>, answered: map<Id, Summary>)
    requires Consistent(db) && rows == SpendingRows(db, userId, ids, db.budgets)
    requires forall id :: id in answered ==> Row(id, answered[id]) in rows
    requires forall j :: 0 <= j < |rows| ==> rows[j].budgetId in answered
    ensures answered.Keys <= ids
    ensures forall b :: b in db.budgets && b.id in ids ==>
      if b.userId == userId then b.id in answered && answered[b.id] == AggregateRows(Group(db, b))
      else b.id !in answered
  {
    hide Group, AggregateRows, SpendingRows;
    SpendingRowsAre(db, userId, ids, db.budgets);
    forall b | b in db.budgets && b.id in ids
      ensures if b.userId == userId then b.id in answered && answered[b.id] == AggregateRows(Group(db, b))
              else b.id !in answered
    {
      var k :| 0 <= k < |db.budgets| && db.budgets[k] == b;
      if b.userId == userId {
        assert Row(b.id, AggregateRows(Group(db, b))) in rows;
        var j :| 0 <= j < |rows| && rows[j] == Row(b.id, AggregateRows(Group(db, b)));
      }
      if b.id in answered {
        var i :| 0 <= i < |db.budgets| && db.budgets[i].id in ids && db.budgets[i].userId == userId
                 && Row(b.id, answered[b.id]) == Row(db.budgets[i].id, AggregateRows(Group(db, db.budgets[i])));
        assert i == k;
      }
    }
  }

  // ---------------------------------------------------------------- the two agree

  lemma PlusLaws(a: Summary, b: Summary, c: Summary)
    ensures Plus(a, Plus(b, c)) == Plus(Plus(a, b), c)
    ensures Plus(a, b) == Plus(b, a)
    ensures Plus(a, NOTHING) == a && Plus(NOTHING, a) == a
  {
  }

  lemma {:induction false} AggregateRowsAppend(a: seq<Option<Transaction>>, b: seq<Option<Transaction>>)
    ensures AggregateRows(a + b) == Plus(AggregateRows(a), AggregateRows(b))
    decreases |a|
  {
    hide Plus, RowPart;
    if a == [] {
      assert a + b == b;
      PlusLaws(AggregateRows(b), NOTHING, NOTHING);
    } else {
      AggregateRowsAppend(a[1..], b);
      assert (a + b)[1..] == a[1..] + b;
      PlusLaws(RowPart(a[0]), AggregateRows(a[1..]), AggregateRows(b));
    }
  }

  lemma OneRow(row: Option<Transaction>)
    ensures AggregateRows([row]) == RowPart(row)
  {
    assert [row][1..] == [];
    PlusLaws(RowPart(row), NOTHING, NOTHING);
  }

  lemma AggregateMatches(ts: seq<Transaction>, b: Budget, w: Wallet)
    ensures AggregateRows(JoinTransactions(ts, b, w)) == Aggregate(ts, t => JoinsTransaction(b, w, t))
  {
    hide AggregateRows, Aggregate, JoinsTransaction;
    AggregateSomes(ts, b, w);
    if Matches(ts, b, w) == [] {
      OneRow(None);
      assert Somes([]) == [];
      NoRows();
    }
  }

  lemma NoRows()
    ensures AggregateRows([]) == NOTHING
  {
  }

  lemma {:induction false} AggregateSomes(ts: seq<Transaction>, b: Budget, w: Wallet)
    ensures AggregateRows(Somes(Matches(ts, b, w))) == Aggregate(ts, t => JoinsTransaction(b, w, t))
    decreases |ts|
  {
    hide Plus, JoinsTransaction, AggregateRows;
    if ts == [] {
      assert Somes(Matches(ts, b, w)) == [];
      NoRows();
    } else {
      AggregateSomes(ts[1..], b, w);
      var rest := Matches(ts[1..], b, w);
      if JoinsTransaction(b, w, ts[0]) {
        assert Somes([ts[0]] + rest) == [Some(ts[0])] + Somes(rest);
        AggregateRowsAppend([Some(ts[0])], Somes(rest));
        OneRow(Some(ts[0]));
      } else {
        assert [] + rest == rest;
        PlusLaws(AggregateRows(Somes(rest)), NOTHING, NOTHING);
      }
    }
  }

  lemma PartSplit(t: Transaction, p: Transaction -> bool, q: Transaction -> bool, r: Transaction -> bool)
    requires (r(t) <==> p(t) || q(t)) && !(p(t) && q(t))
    ensures Part(t, r) == Plus(Part(t, p), Part(t, q))
  {
  }

  lemma PlusFour(a: Summary, b: Summary, c: Summary, d: Summary)
    ensures Plus(Plus(a, b), Plus(c, d)) == Plus(Plus(a, c), Plus(b, d))
  {
  }

  /** Conditions that exclude each other split an aggregate. */
  lemma {:induction false} AggregateSplit(
    ts: seq<Transaction>, p: Transaction -> bool, q: Transaction -> bool, r: Transaction -> bool)
    requires forall t :: t in ts ==> (r(t) <==> p(t) || q(t)) && !(p(t) && q(t))
    ensures Aggregate(ts, r) == Plus(Aggregate(ts, p), Aggregate(ts, q))
    decreases |ts|
  {
    hide Plus, Part;
    if ts == [] {
      PlusLaws(NOTHING, NOTHING, NOTHING);
    } else {
      assert ts[0] in ts;
      AggregateSplit(ts[1..], p, q, r);
      PartSplit(ts[0], p, q, r);
      PlusFour(Part(ts[0], p), Part(ts[0], q), Aggregate(ts[1..], p), Aggregate(ts[1..], q));
    }
  }

  lemma {:induction false} AggregateNone(ts: seq<Transaction>, p: Transaction -> bool)
    requires forall t :: t in ts ==> !p(t)
    ensures Aggregate(ts, p) == NOTHING
    decreases |ts|
  {
    hide Plus;
    if ts != [] {
      assert ts[0] in ts;
      AggregateNone(ts[1..], p);
      PlusLaws(NOTHING, NOTHING, NOTHING);
    }
  }

  lemma {:induction false} CountIsNatural(ts: seq<Transaction>, p: Transaction -> bool)
    ensures Aggregate(ts, p).transactionCount >= 0
    decreases |ts|
  {
    hide Latest;
    if ts != [] {
      CountIsNatural(ts[1..], p);
    }
  }

  lemma {:induction false} CountsNothing(ts: seq<Transaction>, p: Transaction -> bool)
    requires Aggregate(ts, p).transactionCount == 0
    ensures forall t :: t in ts ==> !p(t)
    decreases |ts|
  {
    hide Latest;
    if ts != [] {
      CountIsNatural(ts[1..], p);
      CountsNothing(ts[1..], p);
      forall t | t in ts ensures !p(t) {
        assert t == ts[0] || t in ts[1..];
      }
    }
  }

  /** The transaction is joined to one of the wallets. */
  predicate Joined(b: Budget, ws: seq<Wallet>, t: Transaction) {
    exists i :: 0 <= i < |ws| && JoinsWallet(b, ws[i]) && JoinsTransaction(b, ws[i], t)
  }

  /** The joined rows count every joined transaction once: a transaction has one wallet. */
  lemma {:induction false} JoinCountsOnce(ts: seq<Transaction>, b: Budget, ws: seq<Wallet>)
    requires forall i, j :: 0 <= i < j < |ws| ==> ws[i].id != ws[j].id
    ensures AggregateRows(JoinAll(ts, b, ws)) == Aggregate(ts, t => Joined(b, ws, t))
    decreases |ws|
  {
    if ws == [] {
      AggregateNone(ts, t => Joined(b, ws, t));
      NoRows();
    } else {
      hide Plus, Joined, AggregateRows, Aggregate, JoinsTransaction, JoinsWallet, JoinTransactions;
      var w, rest := ws[0], ws[1..];
      var head := t => JoinsWallet(b, w) && JoinsTransaction(b, w, t);
      JoinCountsOnce(ts, b, rest);
      AggregateRowsAppend(if JoinsWallet(b, w) then JoinTransactions(ts, b, w) else [], JoinAll(ts, b, rest));
      if JoinsWallet(b, w) {
        AggregateMatches(ts, b, w);
        SameCondition(ts, head, t => JoinsTransaction(b, w, t));
      } else {
        AggregateNone(ts, head);
        NoRows();
      }
      forall t | t in ts
        ensures (Joined(b, ws, t) <==> head(t) || Joined(b, rest, t)) && !(head(t) && Joined(b, rest, t))
      {
        JoinedStep(b, ws, t);
      }
      AggregateSplit(ts, head, t => Joined(b, rest, t), t => Joined(b, ws, t));
    }
  }

  lemma JoinedStep(b: Budget, ws: seq<Wallet>, t: Transaction)
    requires ws != [] && forall i, j :: 0 <= i < j < |ws| ==> ws[i].id != ws[j].id
    ensures Joined(b, ws, t) <==> (JoinsWallet(b, ws[0]) && JoinsTransaction(b, ws[0], t)) || Joined(b, ws[1..], t)
    ensures !(JoinsTransaction(b, ws[0], t) && Joined(b, ws[1..], t))
  {
    if Joined(b, ws[1..], t) {
      var i :| 0 <= i < |ws[1..]| && JoinsWallet(b, ws[1..][i]) && JoinsTransaction(b, ws[1..][i], t);
      assert ws[i + 1] == ws[1..][i];
    }
    if Joined(b, ws, t) {
      var i :| 0 <= i < |ws| && JoinsWallet(b, ws[i]) && JoinsTransaction(b, ws[i], t);
      if i > 0 {
        assert ws[1..][i - 1] == ws[i];
      }
    }
  }

  lemma {:induction false} SameCondition(ts: seq<Transaction>, p: Transaction -> bool, q: Transaction -> bool)
    requires forall t :: t in ts ==> p(t) == q(t)
    ensures Aggregate(ts, p) == Aggregate(ts, q)
    decreases |ts|
  {
    hide Plus;
    if ts != [] {
      SameCondition(ts[1..], p, q);
    }
  }

  /** The transaction counts for the single query, but sits in a wallet of somebody else. */
  predicate Foreign(db: Database, b: Budget, t: Transaction) {
    Counts(db, b, t) && !Joined(b, db.wallets, t)
  }

  /** What the batch leaves out are the transactions that the budget's user booked in wallets of others. */
  lemma ForeignIs(db: Database, b: Budget, t: Transaction)
    requires Consistent(db) && t in db.transactions && b in db.budgets
    ensures Foreign(db, b, t) <==>
      b.walletId.None? && InScope(b, t) && t.userId == b.userId
      && exists w :: w in db.wallets && w.id == t.walletId && w.currency == b.currency && w.userId != b.userId
    ensures Joined(b, db.wallets, t) ==> Counts(db, b, t)
  {
    var w :| w in db.wallets && w.id == t.walletId;
    var k :| 0 <= k < |db.wallets| && db.wallets[k] == w;
    assert forall i :: 0 <= i < |db.wallets| && db.wallets[i].id == t.walletId ==> i == k;
    assert Joined(b, db.wallets, t) <==> JoinsWallet(b, w) && JoinsTransaction(b, w, t);
    assert InWalletOf(db.wallets, b.currency, t) <==> w.currency == b.currency;
  }

  /** The single query is the batch plus the transactions in wallets of others. */
  lemma SingleIsBatchPlusForeign(db: Database, b: Budget)
    requires Consistent(db) && b in db.budgets
    ensures GetSpendingSummary(db, b)
      == Plus(Batched(db, b.userId, b), Aggregate(db.transactions, t => Foreign(db, b, t)))
  {
    hide Counts, Joined, Consistent;
    GroupIsJoined(db, b);
    forall t | t in db.transactions
      ensures (Counts(db, b, t) <==> Joined(b, db.wallets, t) || Foreign(db, b, t))
      ensures !(Joined(b, db.wallets, t) && Foreign(db, b, t))
    {
      ForeignIs(db, b, t);
    }
    AggregateSplit(db.transactions, t => Joined(b, db.wallets, t), t => Foreign(db, b, t), t => Counts(db, b, t));
  }

  lemma GroupIsJoined(db: Database, b: Budget)
    requires Consistent(db)
    ensures AggregateRows(Group(db, b)) == Aggregate(db.transactions, t => Joined(b, db.wallets, t))
  {
    hide Joined, JoinAll, AggregateRows, Aggregate;
    JoinCountsOnce(db.transactions, b, db.wallets);
    OneRow(None);
    NoRows();
  }

  /**
   The batch agrees with the single query in amount, count and last date exactly when the user of the
   budget has booked nothing that counts for it in a wallet of somebody else.
   */
  lemma BatchAgreesIff(db: Database, b: Budget)
    requires Consistent(db) && b in db.budgets
    ensures Batched(db, b.userId, b) == GetSpendingSummary(db, b) <==>
      forall t :: t in db.transactions ==> !Foreign(db, b, t)
  {
    hide Foreign, Batched, GetSpendingSummary;
    SingleIsBatchPlusForeign(db, b);
    var foreign := t => Foreign(db, b, t);
    if Batched(db, b.userId, b) == GetSpendingSummary(db, b) {
      CountsNothing(db.transactions, foreign);
      assert forall t :: t in db.transactions ==> !foreign(t);
    }
    if forall t :: t in db.transactions ==> !Foreign(db, b, t) {
      AggregateNone(db.transactions, foreign);
      PlusLaws(Batched(db, b.userId, b), NOTHING, NOTHING);
    }
  }

  /** For a budget on one wallet, whoever owns it, the two always agree. */
  lemma WalletBudgetsAgree(db: Database, b: Budget)
    requires Consistent(db) && b in db.budgets && b.walletId.Some?
    ensures Batched(db, b.userId, b) == GetSpendingSummary(db, b)
  {
    BatchAgreesIff(db, b);
    forall t | t in db.transactions ensures !Foreign(db, b, t) {
      ForeignIs(db, b, t);
    }
  }

  const SHARED := Wallet(1, 7, "VND")
  const LUNCH := Transaction(8, 1, 3, 500, true, 10)
  const FOOD_BUDGET := Budget(1, 8, Some(3), None, "VND", 0, 30)
  const SHARING := Database([SHARED], [LUNCH], [FOOD_BUDGET])

  /** A member books lunch in the wallet of somebody else: the two queries differ for the member's budget. */
  lemma SharedWalletDiffers()
    ensures Consistent(SHARING) && FOOD_BUDGET in SHARING.budgets
    ensures Batched(SHARING, FOOD_BUDGET.userId, FOOD_BUDGET) != GetSpendingSummary(SHARING, FOOD_BUDGET)
  {
    var w := SHARING.wallets[0];
    assert w in SHARING.wallets && w.id == LUNCH.walletId;
    assert SHARING.budgets[0] == FOOD_BUDGET && SHARING.transactions[0] == LUNCH;
    hide Batched, GetSpendingSummary, Foreign, Joined;
    ForeignIs(SHARING, FOOD_BUDGET, LUNCH);
    BatchAgreesIff(SHARING, FOOD_BUDGET);
  }
}
