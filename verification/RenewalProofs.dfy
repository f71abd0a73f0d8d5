/**
 The catch-up is exact, whatever the table holds: a due chain is extended by as many cycles as it is
 behind, three at most, each on the calendar grid of the chain, up to the first one that is taken.
 */
module RenewalProofs {
  import FiniteSets
  import opened Prelude
  import opened BudgetPeriods
  import opened Rollover
  import opened BudgetRenewal

  /** How many cycles have begun, up to today, since a cycle that ended on the given day. */
  function Behind(period: Period, end: int, today: int): nat
    requires period != Custom
    decreases today - end
  {
    if end >= today then 0
    else
      NextStartIsLater(period, end + 1);
      1 + Behind(period, NextStart(period, end + 1) - 1, today)
  }

  function BehindOf(b: Budget, today: int): nat
    requires b.period != Custom
  {
    Behind(b.period, b.endDate, today)
  }

  // ---------------------------------------------------------------- one step

  lemma AdvanceKeepsValid(w: World, s: Store, id: Id)
    requires Valid(s) && id in s.rows && s.rows[id].period != Custom
    ensures Valid(Advance(w, s, id))
  {
    hide NextStart;
    NextStartIsLater(s.rows[id].period, s.rows[id].endDate + 1);
  }

  /** The child is the budget of the cycle after b: its columns, one by one. */
  ghost predicate IsRenewalOf(w: World, id: Id, b: Budget, child: Budget)
    requires b.period != Custom
  {
    var left := b.amount - w.spent(b.userId, b.categoryId, b.startDate, b.endDate, b.currency);
    var carried := match b.rolloverMode
      case Surplus => if left > 0 then left else 0
      case Deficit => if left < 0 then left else 0
      case Net => left
      case Reset => 0;
    && child.userId == b.userId && child.categoryId == b.categoryId && child.walletId == None
    && child.currency == b.currency && child.period == b.period
    && child.startDate == b.endDate + 1 && child.endDate + 1 == NextStart(b.period, b.endDate + 1)
    && child.rolloverMode == b.rolloverMode && child.rolloverAmount == carried
    && child.amount == (if b.amount + carried < 0 then 0 else b.amount + carried)
    && child.isRecurring && child.autoRenew && child.autoRenewUntil == b.autoRenewUntil
    && child.recurrenceGroupId == b.recurrenceGroupId && child.parentBudgetId == Some(id)
    && !child.renewed && !child.isArchived
  }

  ghost predicate OnlyChanges(before: map<Id, Budget>, id: Id, after: map<Id, Budget>) {
    before.Keys <= after.Keys && forall x :: x in before && x != id ==> after[x] == before[x]
  }

  /**
   When a budget is renewed, suspended or left alone, and every column of the row that is inserted; the
   renewed budget is marked, and no other row changes.
   */
  lemma RenewedRow(w: World, s: Store, id: Id)
    requires Valid(s) && id in s.rows && s.rows[id].amount >= 0
    ensures var (after, outcome) := TryRenew(w, s, id);
      var b := s.rows[id];
      var unusable := b.categoryId.Some? && !w.categoryActive(b.userId, b.categoryId.value);
      var taken := b.recurrenceGroupId.Some?
        && exists x :: x in s.rows && s.rows[x].recurrenceGroupId == b.recurrenceGroupId
                       && s.rows[x].startDate == b.endDate + 1;
      && (outcome.Suspended? <==> unusable)
      && (outcome.Failed? <==> !unusable && (b.period == Custom || taken))
      && (outcome.Failed? ==> after == s)
      && (!outcome.Failed? ==> OnlyChanges(s.rows, id, after.rows))
      && (outcome.Suspended? ==>
            after.next == s.next && after.rows.Keys == s.rows.Keys && after.rows[id] == b.(autoRenew := false))
      && (outcome.Renewed? ==>
            && outcome.child == s.next && after.next == s.next + 1 && after.rows.Keys == s.rows.Keys + {s.next}
            && after.rows[id] == b.(renewed := true) && IsRenewalOf(w, id, b, after.rows[s.next]))
  {
    hide NextStart;
  }

  // ---------------------------------------------------------------- which budgets are due

  /** What the query asks of a row, column by column. */
  ghost predicate AsksFor(rows: map<Id, Budget>, x: Id, today: int) {
    && x in rows && rows[x].isRecurring && rows[x].autoRenew && !rows[x].isArchived && !rows[x].renewed
    && rows[x].endDate < today
    && (rows[x].autoRenewUntil.Some? ==> rows[x].autoRenewUntil.value >= today)
  }

  /**
   What the query returns: rows that it asks for, each once, by their last days; all of them, or fifty of
   which none ends later than one that is left out.
   */
  lemma DueListIs(due: seq<Id>, s: Store, today: int)
    ensures IsDueList(due, s, today) <==>
      && (forall i :: 0 <= i < |due| ==> AsksFor(s.rows, due[i], today))
      && (forall i, j :: 0 <= i < j < |due| ==> due[i] != due[j] && s.rows[due[i]].endDate <= s.rows[due[j]].endDate)
      && |due| <= 50
      && (|due| < 50 ==> forall x :: AsksFor(s.rows, x, today) ==> x in due)
      && (forall x, i :: AsksFor(s.rows, x, today) && x !in due && 0 <= i < |due| ==>
            s.rows[due[i]].endDate <= s.rows[x].endDate)
  {
    var all := DueSet(s, today);
    assert forall x :: x in all <==> AsksFor(s.rows, x, today);
    hide AsksFor, DueSet, IsDue;
    if (forall i :: 0 <= i < |due| ==> due[i] in all) && FiniteSets.NoRepeats(due) {
      FiniteSets.Pigeonhole(all, due);
      if |due| == |all| {
        FiniteSets.FullList(due, all);
      }
      if forall x :: x in all ==> x in due {
        FiniteSets.HeldBound(due, all);
      }
    }
  }

  /** When the inner loop stops without a further turn, and what it does in a turn. */
  lemma CatchUpTurn(w: World, s: Store, today: int, id: Id, left: nat)
    requires id in s.rows && left > 0
    ensures var b := s.rows[id];
      if b.endDate >= today || (b.autoRenewUntil.Some? && b.autoRenewUntil.value <= b.endDate)
      then CatchUp(w, s, today, id, left) == (s, [])
      else
        var (after, outcome) := TryRenew(w, s, id);
        if outcome.Renewed?
        then var (last, more) := CatchUp(w, after, today, outcome.child, left - 1);
             CatchUp(w, s, today, id, left) == (last, [outcome.child] + more)
        else CatchUp(w, s, today, id, left) == (after, [])
  {
    hide NextStart, Carry;
  }

  // ---------------------------------------------------------------- a chain of steps

  /** The id of the j-th budget after budget id, when the next ids go to the chain. */
  function DescendantId(id: Id, next: Id, j: nat): Id {
    if j == 0 then id else next + j - 1
  }

  /** The j-th budget after b, as it is when created. */
  function Descendant(w: World, id: Id, b: Budget, next: Id, j: nat): (r: Budget)
    requires b.period != Custom
    ensures r.period == b.period && r.userId == b.userId && r.categoryId == b.categoryId
    ensures r.autoRenewUntil == b.autoRenewUntil && r.rolloverMode == b.rolloverMode
    ensures !b.renewed ==> !r.renewed
  {
    if j == 0 then b
    else Successor(w, DescendantId(id, next, j - 1), Descendant(w, id, b, next, j - 1))
  }

  /** The store after n renewals along the chain of budget id. */
  function AfterChain(w: World, s: Store, id: Id, n: nat): (r: Store)
    requires id in s.rows && s.rows[id].period != Custom
    ensures r.next == s.next + n
    ensures DescendantId(id, s.next, n) in r.rows && r.rows[DescendantId(id, s.next, n)].period == s.rows[id].period
  {
    if n == 0 then s
    else
      var before := AfterChain(w, s, id, n - 1);
      assert DescendantId(id, s.next, n) == before.next;
      Advance(w, before, DescendantId(id, s.next, n - 1))
  }

  lemma {:induction false} AfterChainHead(w: World, s: Store, id: Id, n: nat)
    requires id in s.rows && s.rows[id].period != Custom
    ensures AfterChain(w, s, id, n + 1) == AfterChain(w, Advance(w, s, id), s.next, n)
    decreases n
  {
    hide NextStart, Carry, Advance;
    if n > 0 {
      AfterChainHead(w, s, id, n - 1);
      assert DescendantId(id, s.next, n) == DescendantId(s.next, s.next + 1, n - 1);
    }
  }

  /** Store r is store s plus the first n budgets of the chain of budget id; all but the last are renewed. */
  ghost predicate HoldsChain(w: World, s: Store, id: Id, n: nat, r: Store)
    requires id in s.rows && s.rows[id].period != Custom
  {
    && r.next == s.next + n
    && (forall x :: x in r.rows <==> x in s.rows || s.next <= x < s.next + n)
    && (forall x :: x in s.rows && x != id ==> r.rows[x] == s.rows[x])
    && (forall j :: 0 <= j <= n ==> HoldsLink(w, s, id, n, r, j))
  }

  ghost predicate HoldsLink(w: World, s: Store, id: Id, n: nat, r: Store, j: nat)
    requires id in s.rows && s.rows[id].period != Custom
  {
    var x := DescendantId(id, s.next, j);
    x in r.rows && r.rows[x] == Descendant(w, id, s.rows[id], s.next, j).(renewed := j < n)
  }

  lemma LinkNext(w: World, s: Store, id: Id, n: nat, q: Store, j: nat)
    requires Valid(s) && id in s.rows && s.rows[id].period != Custom && !s.rows[id].renewed
    requires HoldsChain(w, s, id, n, q) && j <= n + 1
    requires DescendantId(id, s.next, n) in q.rows && q.rows[DescendantId(id, s.next, n)].period != Custom
    requires q.rows[DescendantId(id, s.next, n)] == Descendant(w, id, s.rows[id], s.next, n)
    ensures HoldsLink(w, s, id, n + 1, Advance(w, q, DescendantId(id, s.next, n)), j)
  {
    hide NextStart, Carry, Spending;
    var tail := DescendantId(id, s.next, n);
    if j <= n {
      assert HoldsLink(w, s, id, n, q, j);
      hide Descendant, Successor;
    } else {
      assert Descendant(w, id, s.rows[id], s.next, n + 1) == Successor(w, tail, q.rows[tail]);
      hide Descendant, Successor;
    }
  }

  lemma HoldsChainNext(w: World, s: Store, id: Id, n: nat, q: Store)
    requires Valid(s) && id in s.rows && s.rows[id].period != Custom && !s.rows[id].renewed
    requires HoldsChain(w, s, id, n, q)
    ensures var tail := DescendantId(id, s.next, n);
      tail in q.rows && q.rows[tail].period != Custom && HoldsChain(w, s, id, n + 1, Advance(w, q, tail))
  {
    hide NextStart, Carry, Descendant, Successor;
    var tail := DescendantId(id, s.next, n);
    assert HoldsLink(w, s, id, n, q, n);
    assert q.rows[tail].(renewed := false) == q.rows[tail];
    var m := n + 1;
    forall j | 0 <= j <= m ensures HoldsLink(w, s, id, m, Advance(w, q, tail), j) {
      LinkNext(w, s, id, n, q, j);
    }
  }

  /** What the store holds after n renewals: the old rows, and one row for each new cycle. */
  lemma {:induction false} AfterChainRows(w: World, s: Store, id: Id, n: nat)
    requires Valid(s) && id in s.rows && s.rows[id].period != Custom && !s.rows[id].renewed
    ensures HoldsChain(w, s, id, n, AfterChain(w, s, id, n))
    decreases n
  {
    hide NextStart, Carry, Advance;
    if n == 0 {
      assert HoldsLink(w, s, id, 0, s, 0);
    } else {
      AfterChainRows(w, s, id, n - 1);
      HoldsChainNext(w, s, id, n - 1, AfterChain(w, s, id, n - 1));
    }
  }

  lemma {:induction false} ShiftedCycle(period: Period, start: int, n: nat)
    requires period != Custom
    ensures CycleStart(period, NextStart(period, start), n) == CycleStart(period, start, n + 1)
    decreases n
  {
    hide NextStart;
    if n > 0 {
      ShiftedCycle(period, start, n - 1);
    }
  }

  /** The j-th new budget covers exactly the j-th cycle after the end of the first one. */
  lemma {:induction false} DescendantDates(w: World, id: Id, b: Budget, next: Id, j: nat)
    requires b.period != Custom
    ensures var r := Descendant(w, id, b, next, j);
      && r.endDate + 1 == CycleStart(b.period, b.endDate + 1, j)
      && (j > 0 ==> r.startDate == CycleStart(b.period, b.endDate + 1, j - 1))
    decreases j
  {
    hide NextStart, Carry;
    if j > 0 {
      DescendantDates(w, id, b, next, j - 1);
    }
  }

  /** The spendings of the first n cycles of the chain. */
  function Spendings(w: World, id: Id, b: Budget, next: Id, n: nat): (r: seq<int>)
    requires b.period != Custom
    ensures |r| == n
  {
    if n == 0 then []
    else Spendings(w, id, b, next, n - 1) + [Spending(w, Descendant(w, id, b, next, n - 1))]
  }

  /** The amount of the j-th new budget compounds all the carry-overs before it. */
  lemma {:induction false} DescendantAmount(w: World, id: Id, b: Budget, next: Id, j: nat)
    requires b.period != Custom
    ensures Descendant(w, id, b, next, j).amount
      == Chain(b.rolloverMode, b.amount, Spendings(w, id, b, next, j))
    decreases j
  {
    hide NextStart, Carry;
    if j > 0 {
      DescendantAmount(w, id, b, next, j - 1);
      SpendingsLast(w, id, b, next, j);
      AmountNext(w, id, b, next, j);
    }
  }

  lemma SpendingsLast(w: World, id: Id, b: Budget, next: Id, j: nat)
    requires b.period != Custom && j > 0
    ensures var ss := Spendings(w, id, b, next, j);
      ss[..j - 1] == Spendings(w, id, b, next, j - 1) && ss[j - 1] == Spending(w, Descendant(w, id, b, next, j - 1))
  {
    hide NextStart, Carry, Descendant, Spending;
  }

  lemma AmountNext(w: World, id: Id, b: Budget, next: Id, j: nat)
    requires b.period != Custom && j > 0
    ensures var p := Descendant(w, id, b, next, j - 1);
      Descendant(w, id, b, next, j).amount == Carry(b.rolloverMode, p.amount, Spending(w, p)).amount
  {
    hide NextStart, Carry, Spending;
  }

  /** A chain that is k cycles behind is k - j behind after j of them. */
  lemma {:induction false} BehindAfter(w: World, id: Id, b: Budget, next: Id, j: nat, today: int)
    requires b.period != Custom && j <= BehindOf(b, today)
    ensures BehindOf(Descendant(w, id, b, next, j), today) == BehindOf(b, today) - j
    decreases j
  {
    hide NextStart, Carry;
    if j > 0 {
      BehindAfter(w, id, b, next, j - 1, today);
      var p := Descendant(w, id, b, next, j - 1);
      assert p.endDate < today;
      NextStartIsLater(b.period, p.endDate + 1);
    }
  }

  // ---------------------------------------------------------------- the slots of the next cycles

  /** A row of the group of budget b starts on the first day of the j-th cycle after b. */
  predicate CycleTaken(rows: map<Id, Budget>, b: Budget, j: nat)
    requires b.period != Custom
  {
    SlotTaken(rows, b.recurrenceGroupId, CycleStart(b.period, b.endDate + 1, j))
  }

  /** How many of the next m cycles after budget b are free before the first one that is taken. */
  function FreeCycles(rows: map<Id, Budget>, b: Budget, m: nat): (n: nat)
    requires b.period != Custom
    ensures n <= m
  {
    if m == 0 then 0
    else
      var n := FreeCycles(rows, b, m - 1);
      if n == m - 1 && !CycleTaken(rows, b, m - 1) then m else n
  }

  lemma {:induction false} FreeCyclesIs(rows: map<Id, Budget>, b: Budget, m: nat)
    requires b.period != Custom
    ensures var n := FreeCycles(rows, b, m);
      && (forall j: nat :: j < n ==> !CycleTaken(rows, b, j))
      && (n < m ==> CycleTaken(rows, b, n))
    decreases m
  {
    hide CycleTaken;
    if m > 0 {
      FreeCyclesIs(rows, b, m - 1);
    }
  }

  /** Free cycles up to one that is taken, or up to the last, are all that count. */
  lemma FreeCyclesAre(rows: map<Id, Budget>, b: Budget, m: nat, n: nat)
    requires b.period != Custom && n <= m && (n < m ==> CycleTaken(rows, b, n))
    requires forall j: nat :: j < n ==> !CycleTaken(rows, b, j)
    ensures FreeCycles(rows, b, m) == n
  {
    hide CycleTaken, FreeCycles;
    FreeCyclesIs(rows, b, m);
  }

  /** A renewal adds a row to the group, on the day after the end of its budget. */
  lemma SlotTakenStep(w: World, s: Store, id: Id, start: int)
    requires Valid(s) && id in s.rows && s.rows[id].period != Custom && start > s.rows[id].endDate + 1
    ensures var group := s.rows[id].recurrenceGroupId;
      SlotTaken(Advance(w, s, id).rows, group, start) <==> SlotTaken(s.rows, group, start)
  {
    hide NextStart, Carry, Spending;
    var group, rows := s.rows[id].recurrenceGroupId, Advance(w, s, id).rows;
    forall x | x in s.rows && s.rows[x].recurrenceGroupId == group && s.rows[x].startDate == start
      ensures x in rows && rows[x].recurrenceGroupId == group && rows[x].startDate == start
    {
    }
    forall x | x in rows && rows[x].recurrenceGroupId == group && rows[x].startDate == start
      ensures x in s.rows && s.rows[x].recurrenceGroupId == group && s.rows[x].startDate == start
    {
    }
  }

  /** A renewal puts its row on the first cycle, and takes no later one. */
  lemma CycleTakenStep(w: World, s: Store, id: Id, j: nat)
    requires Valid(s) && id in s.rows && s.rows[id].period != Custom
    ensures var s1 := Advance(w, s, id);
      CycleTaken(s1.rows, s1.rows[s.next], j) <==> CycleTaken(s.rows, s.rows[id], j + 1)
  {
    hide NextStart, Carry, Successor, CycleStart, Advance, Valid, SlotTaken;
    var b := s.rows[id];
    ChildIs(w, s, id);
    ShiftedCycle(b.period, b.endDate + 1, j);
    LaterCycle(b.period, b.endDate + 1, j + 1);
    SlotTakenStep(w, s, id, CycleStart(b.period, b.endDate + 1, j + 1));
  }

  lemma ChildIs(w: World, s: Store, id: Id)
    requires id in s.rows && s.rows[id].period != Custom
    ensures var (b, child) := (s.rows[id], Advance(w, s, id).rows[s.next]);
      child.period == b.period && child.recurrenceGroupId == b.recurrenceGroupId
      && child.endDate + 1 == NextStart(b.period, b.endDate + 1)
  {
    hide NextStart, Carry;
  }

  lemma LaterCycle(period: Period, start: int, j: nat)
    requires period != Custom && j > 0
    ensures start < CycleStart(period, start, j)
  {
    CyclesAscend(period, start, 0, j);
    hide NextStart;
  }

  lemma FreeCyclesStep(w: World, s: Store, id: Id, m: nat)
    requires Valid(s) && id in s.rows && s.rows[id].period != Custom && !CycleTaken(s.rows, s.rows[id], 0)
    ensures var s1 := Advance(w, s, id);
      FreeCycles(s.rows, s.rows[id], m + 1) == 1 + FreeCycles(s1.rows, s1.rows[s.next], m)
  {
    hide CycleTaken, FreeCycles, Advance, Valid;
    var b, s1 := s.rows[id], Advance(w, s, id);
    var n := FreeCycles(s1.rows, s1.rows[s.next], m);
    FreeCyclesIs(s1.rows, s1.rows[s.next], m);
    forall j: nat | j < n + 1 ensures !CycleTaken(s.rows, b, j) {
      if j > 0 {
        CycleTakenStep(w, s, id, j - 1);
      }
    }
    CycleTakenStep(w, s, id, n);
    FreeCyclesAre(s.rows, b, m + 1, n + 1);
  }

  // ---------------------------------------------------------------- the catch-up of one budget

  /** A budget that renewal can go on with: what the query selects, minus the end date. */
  predicate Renewable(w: World, b: Budget, today: int) {
    !b.renewed && b.period != Custom && CategoryUsable(w, b)
    && (b.autoRenewUntil.None? || b.autoRenewUntil.value >= today)
  }

  /** The check of autoRenewUntil inside the loop never stops a budget that the query has selected. */
  lemma UntilNeverStops(b: Budget, today: int)
    requires b.autoRenewUntil.None? || b.autoRenewUntil.value >= today
    ensures StopsAt(b, today) <==> b.endDate >= today
  {
  }

  function Count(b: Budget, today: int, left: nat): nat
    requires b.period != Custom
  {
    Min(left, BehindOf(b, today))
  }

  lemma CatchUpStep(w: World, s: Store, today: int, id: Id, left: nat)
    requires Valid(s) && id in s.rows && Renewable(w, s.rows[id], today)
    requires left > 0 && s.rows[id].endDate < today && !CycleTaken(s.rows, s.rows[id], 0)
    ensures var s1 := Advance(w, s, id);
      && Valid(s1) && s.next in s1.rows && Renewable(w, s1.rows[s.next], today)
      && CatchUp(w, s, today, id, left).0 == CatchUp(w, s1, today, s.next, left - 1).0
      && |CatchUp(w, s, today, id, left).1| == 1 + |CatchUp(w, s1, today, s.next, left - 1).1|
  {
    hide NextStart, Carry;
    UntilNeverStops(s.rows[id], today);
    AdvanceKeepsValid(w, s, id);
    assert TryRenew(w, s, id) == (Advance(w, s, id), Renewed(s.next));
  }

  lemma CountStep(w: World, s: Store, today: int, id: Id, left: nat)
    requires id in s.rows && s.rows[id].period != Custom && left > 0 && s.rows[id].endDate < today
    ensures Count(s.rows[id], today, left) == 1 + Count(Advance(w, s, id).rows[s.next], today, left - 1)
  {
    hide NextStart, Carry;
    NextStartIsLater(s.rows[id].period, s.rows[id].endDate + 1);
  }

  /** How many budgets a catch-up creates: one for every cycle behind, up to the iterations left or a taken slot. */
  function Made(s: Store, today: int, id: Id, left: nat): nat
    requires id in s.rows && s.rows[id].period != Custom
  {
    FreeCycles(s.rows, s.rows[id], Count(s.rows[id], today, left))
  }

  ghost predicate Exact(w: World, s: Store, today: int, id: Id, left: nat)
    requires id in s.rows && s.rows[id].period != Custom
  {
    var n := Made(s, today, id, left);
    && CatchUp(w, s, today, id, left).0 == AfterChain(w, s, id, n)
    && |CatchUp(w, s, today, id, left).1| == n
    && Valid(AfterChain(w, s, id, n))
  }

  /** The catch-up stops at once without iterations, at today, or when the first slot is taken. */
  lemma ExactStop(w: World, s: Store, today: int, id: Id, left: nat)
    requires Valid(s) && id in s.rows && Renewable(w, s.rows[id], today)
    requires left == 0 || s.rows[id].endDate >= today || CycleTaken(s.rows, s.rows[id], 0)
    ensures Exact(w, s, today, id, left)
  {
    hide NextStart, Carry, Valid;
    UntilNeverStops(s.rows[id], today);
    var b := s.rows[id];
    assert CycleStart(b.period, b.endDate + 1, 0) == b.endDate + 1;
    if left > 0 && b.endDate < today {
      assert TryRenew(w, s, id) == (s, Failed);
      hide TryRenew, CycleTaken, Behind;
      FreeCyclesAre(s.rows, b, Count(b, today, left), 0);
    }
  }

  lemma ExactStep(w: World, s: Store, today: int, id: Id, left: nat)
    requires Valid(s) && id in s.rows && Renewable(w, s.rows[id], today)
    requires left > 0 && s.rows[id].endDate < today && !CycleTaken(s.rows, s.rows[id], 0)
    requires var s1 := Advance(w, s, id); s.next in s1.rows && s1.rows[s.next].period != Custom
                                          && Exact(w, s1, today, s.next, left - 1)
    ensures Exact(w, s, today, id, left)
  {
    hide NextStart, Carry, Advance, Valid, CatchUp, Count, CycleTaken, FreeCycles;
    CatchUpStep(w, s, today, id, left);
    CountStep(w, s, today, id, left);
    var m := Count(Advance(w, s, id).rows[s.next], today, left - 1);
    FreeCyclesStep(w, s, id, m);
    AfterChainHead(w, s, id, FreeCycles(Advance(w, s, id).rows, Advance(w, s, id).rows[s.next], m));
  }

  /**
   The catch-up creates one budget for every cycle the chain is behind, up to the iterations left or to
   the first cycle on whose start day a row of the group starts already.
   */
  lemma {:induction false} CatchUpExact(w: World, s: Store, today: int, id: Id, left: nat)
    requires Valid(s) && id in s.rows && Renewable(w, s.rows[id], today)
    ensures Exact(w, s, today, id, left)
    decreases left
  {
    hide NextStart, Carry, Advance, Valid, CatchUp, Count, Exact, CycleTaken;
    if left == 0 || s.rows[id].endDate >= today || CycleTaken(s.rows, s.rows[id], 0) {
      ExactStop(w, s, today, id, left);
    } else {
      CatchUpStep(w, s, today, id, left);
      CatchUpExact(w, Advance(w, s, id), today, s.next, left - 1);
      ExactStep(w, s, today, id, left);
    }
  }

  /**
   After the catch-up of a due budget, its chain has reached the cycle of today, or exactly three
   budgets were created, or the next start day is taken; every new cycle starts no later than today.
   */
  lemma CatchUpReachesToday(w: World, s: Store, today: int, id: Id)
    requires Valid(s) && id in s.rows
    requires IsDue(s.rows[id], today) && Renewable(w, s.rows[id], today)
    ensures var b, n := s.rows[id], Made(s, today, id, MAX_ITERATIONS);
      var tail := Descendant(w, id, b, s.next, n);
      && n <= 3
      && CatchUp(w, s, today, id, MAX_ITERATIONS).0 == AfterChain(w, s, id, n)
      && AfterChain(w, s, id, n).rows[DescendantId(id, s.next, n)] == tail
      && tail.startDate <= today
      && (n == 3 || tail.endDate >= today || CycleTaken(s.rows, b, n))
  {
    hide NextStart, Carry, AfterChain, CatchUp, CycleTaken, FreeCycles;
    var b, n := s.rows[id], Made(s, today, id, MAX_ITERATIONS);
    CatchUpExact(w, s, today, id, MAX_ITERATIONS);
    AfterChainRows(w, s, id, n);
    FreeCyclesIs(s.rows, b, Count(b, today, MAX_ITERATIONS));
    if n > 0 {
      BehindAfter(w, id, b, s.next, n - 1, today);
    }
    BehindAfter(w, id, b, s.next, n, today);
    var tail := Descendant(w, id, b, s.next, n);
    assert tail.(renewed := false) == tail;
    assert HoldsLink(w, s, id, n, AfterChain(w, s, id, n), n);
  }

  // ---------------------------------------------------------------- tables in which no date was moved

  /** In every group the rows start on different days, and one that was not renewed starts last. */
  ghost predicate OneTail(rows: map<Id, Budget>) {
    forall x, y :: x in rows && y in rows && x != y
                   && rows[x].recurrenceGroupId.Some? && rows[x].recurrenceGroupId == rows[y].recurrenceGroupId ==>
      rows[x].startDate != rows[y].startDate && (!rows[x].renewed ==> rows[y].startDate < rows[x].startDate)
  }

  /** Budgets that are each in a group of their own, as a created budget is, satisfy the rule. */
  lemma OwnGroupsHaveOneTail(rows: map<Id, Budget>)
    requires forall x, y :: x in rows && y in rows && x != y ==>
      rows[x].recurrenceGroupId.None? || rows[x].recurrenceGroupId != rows[y].recurrenceGroupId
    ensures OneTail(rows)
  {
  }

  /** And a renewal keeps it. */
  lemma AdvanceKeepsTail(w: World, s: Store, id: Id)
    requires Valid(s) && OneTail(s.rows) && id in s.rows && s.rows[id].period != Custom && !s.rows[id].renewed
    ensures OneTail(Advance(w, s, id).rows)
  {
    hide NextStart, Carry, Spending;
    var b, rows := s.rows[id], Advance(w, s, id).rows;
    var child := rows[s.next];
    assert child.recurrenceGroupId == b.recurrenceGroupId && child.startDate == b.endDate + 1 > b.startDate;
    assert rows[id] == b.(renewed := true);
    assert forall x :: x in s.rows && x != id ==> rows[x] == s.rows[x];
    assert b.recurrenceGroupId.Some? ==>
      (forall x :: x in s.rows && s.rows[x].recurrenceGroupId == b.recurrenceGroupId ==>
        s.rows[x].startDate <= b.startDate && (x != id ==> s.rows[x].renewed));
  }

  /** By that rule all cycles after a budget that was not renewed are free. */
  lemma TailIsFree(s: Store, id: Id, m: nat)
    requires Valid(s) && OneTail(s.rows) && id in s.rows && s.rows[id].period != Custom && !s.rows[id].renewed
    ensures FreeCycles(s.rows, s.rows[id], m) == m
  {
    hide NextStart, FreeCycles;
    var b := s.rows[id];
    forall j: nat | j < m ensures !CycleTaken(s.rows, b, j) {
      CyclesAscend(b.period, b.endDate + 1, 0, j);
    }
    FreeCyclesAre(s.rows, b, m, m);
  }
}
