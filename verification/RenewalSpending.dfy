/** What the renewal of a chain of budgets takes as spent: the query of `SpendingSummary`. */
module RenewalSpending {
  import opened Prelude
  import opened BudgetPeriods
  import opened Rollover
  import opened BudgetRenewal
  import opened RenewalProofs
  import SpendingSummary
  import SpendingChange

  /** The fields of a budget that renewal hands to the query: no wallet, and the given days. */
  function Asked(user: Id, category: Option<Id>, first: int, last: int, currency: string): SpendingSummary.Budget {
    SpendingSummary.Budget(0, user, category, None, currency, first, last)
  }

  /** The rest of the database as renewal sees it. */
  function WorldOf(db: SpendingSummary.Database, categoryActive: (Id, Id) -> bool): World {
    World(categoryActive, (user: Id, category: Option<Id>, first: int, last: int, currency: string) =>
      SpendingSummary.GetSpendingSummary(db, Asked(user, category, first, last, currency)).amount)
  }

  /** What was spent from the first to the last day on the category of budget b. */
  function SpentIn(db: SpendingSummary.Database, b: Budget, first: int, last: int): int {
    SpendingSummary.GetSpendingSummary(db, Asked(b.userId, b.categoryId, first, last, b.currency)).amount
  }

  /**
   What a renewal takes as spent: of the user's own expenses in wallets of the budget's currency, those within
   its days, and of its category if it has one. The wallet of a budget plays no part.
   */
  lemma RenewalTakes(db: SpendingSummary.Database, active: (Id, Id) -> bool, b: Budget, i: nat,
                     t: SpendingSummary.Transaction)
    requires i <= |db.transactions|
    ensures Spending(WorldOf(SpendingChange.With(db, i, t), active), b) == Spending(WorldOf(db, active), b) +
      if t.isExpense && b.startDate <= t.date && t.date <= b.endDate && t.userId == b.userId
         && (b.categoryId.Some? ==> t.categoryId == b.categoryId.value)
         && exists w :: w in db.wallets && w.id == t.walletId && w.currency == b.currency
      then t.amount else 0
    ensures db.transactions == [] ==> Spending(WorldOf(db, active), b) == 0
  {
    SpendingChange.SingleTakes(db, Asked(b.userId, b.categoryId, b.startDate, b.endDate, b.currency), i, t);
  }

  function Total(xs: seq<int>): int {
    if xs == [] then 0 else Total(xs[..|xs| - 1]) + xs[|xs| - 1]
  }

  /** Adjacent periods: each transaction counts in exactly one of them. */
  lemma SpentSplits(db: SpendingSummary.Database, b: Budget, first: int, middle: int, last: int)
    requires first <= middle + 1 && middle <= last
    ensures SpentIn(db, b, first, last) == SpentIn(db, b, first, middle) + SpentIn(db, b, middle + 1, last)
  {
    var whole := Asked(b.userId, b.categoryId, first, last, b.currency);
    var early := Asked(b.userId, b.categoryId, first, middle, b.currency);
    var late := Asked(b.userId, b.categoryId, middle + 1, last, b.currency);
    SpendingSummary.AggregateSplit(
      db.transactions, t => SpendingSummary.Counts(db, early, t), t => SpendingSummary.Counts(db, late, t),
      t => SpendingSummary.Counts(db, whole, t));
  }

  /** What the j-th renewal of a chain takes as spent is what the query gives for the j-th cycle. */
  lemma SpendingIsQuery(db: SpendingSummary.Database, categoryActive: (Id, Id) -> bool, id: Id, b: Budget, next: Id,
                        j: nat)
    requires b.period != Custom
    ensures var d := Descendant(WorldOf(db, categoryActive), id, b, next, j);
      Spending(WorldOf(db, categoryActive), d) == SpentIn(db, b, d.startDate, d.endDate)
  {
    DescendantCurrency(WorldOf(db, categoryActive), id, b, next, j);
  }

  lemma {:induction false} DescendantCurrency(w: World, id: Id, b: Budget, next: Id, j: nat)
    requires b.period != Custom
    ensures Descendant(w, id, b, next, j).currency == b.currency
    decreases j
  {
    hide NextStart, Carry;
    if j > 0 {
      DescendantCurrency(w, id, b, next, j - 1);
    }
  }

  /** The last day of the n-th cycle of a chain. */
  lemma DescendantGoesOn(w: World, id: Id, b: Budget, next: Id, n: nat)
    requires b.period != Custom && n > 0
    ensures var (d, p) := (Descendant(w, id, b, next, n), Descendant(w, id, b, next, n - 1));
      d.startDate == p.endDate + 1 && d.startDate <= d.endDate
  {
    var p := Descendant(w, id, b, next, n - 1);
    NextStartIsLater(p.period, p.endDate + 1);
    hide NextStart, Carry;
  }

  /**
   What n renewals of a chain take as spent, in all, is what the query gives from the first day of
   the chain to the last of its n-th cycle: the rollovers count every transaction exactly once.
   */
  lemma {:induction false} ChainCountsOnce(db: SpendingSummary.Database, categoryActive: (Id, Id) -> bool,
                                           id: Id, b: Budget, next: Id, n: nat)
    requires b.period != Custom && b.startDate <= b.endDate && n > 0
    ensures var w := WorldOf(db, categoryActive);
      var last := Descendant(w, id, b, next, n - 1).endDate;
      && b.startDate <= last
      && Total(Spendings(w, id, b, next, n)) == SpentIn(db, b, b.startDate, last)
    decreases n
  {
    hide NextStart, Carry, SpentIn, Descendant;
    var w := WorldOf(db, categoryActive);
    var ss := Spendings(w, id, b, next, n);
    SpendingIsQuery(db, categoryActive, id, b, next, n - 1);
    assert ss[..n - 1] == Spendings(w, id, b, next, n - 1);
    if n > 1 {
      ChainCountsOnce(db, categoryActive, id, b, next, n - 1);
      DescendantGoesOn(w, id, b, next, n - 1);
      var middle := Descendant(w, id, b, next, n - 2).endDate;
      SpentSplits(db, b, b.startDate, middle, Descendant(w, id, b, next, n - 1).endDate);
    } else {
      FirstOfChain(w, id, b, next);
    }
  }

  lemma FirstOfChain(w: World, id: Id, b: Budget, next: Id)
    requires b.period != Custom
    ensures Descendant(w, id, b, next, 0) == b
  {
  }
}
