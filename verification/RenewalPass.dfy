/**
 One pass of the renewal over a list of due budgets: what it does to every chain, whatever the table
 holds. A budget is stuck when its category can be used, but its period is custom or the start day of
 its next cycle is taken in its group: each attempt to renew it fails.
 */
module RenewalPass {
  import opened Prelude
  import opened FiniteSets
  import opened BudgetPeriods
  import opened Rollover
  import opened BudgetRenewal
  import opened RenewalProofs

  // ---------------------------------------------------------------- stuck and pending budgets

  predicate IsStuck(w: World, s: Store, today: int, x: Id)
    requires x in s.rows
  {
    var b := s.rows[x];
    IsDue(b, today) && CategoryUsable(w, b)
    && (b.period == Custom || SlotTaken(s.rows, b.recurrenceGroupId, b.endDate + 1))
  }

  /** A due budget that a pass takes off the list, or renews. */
  predicate IsPending(w: World, s: Store, today: int, x: Id)
    requires x in s.rows
  {
    IsDue(s.rows[x], today) && !IsStuck(w, s, today, x)
  }

  function StuckSet(w: World, s: Store, today: int): set<Id> {
    set x | x in s.rows && IsStuck(w, s, today, x)
  }

  function PendingSet(w: World, s: Store, today: int): set<Id> {
    set x | x in s.rows && IsPending(w, s, today, x)
  }

  /** How many budgets can follow budget x up to today: cycles up to the first one that is taken. */
  function Reach(s: Store, today: int, x: Id): nat
    requires x in s.rows && s.rows[x].period != Custom
  {
    FreeCycles(s.rows, s.rows[x], BehindOf(s.rows[x], today))
  }

  /** How often a budget, and the budgets that take its place, are to be on the list until none is pending. */
  function Rounds(w: World, s: Store, today: int, x: Id): nat
    requires x in s.rows
  {
    if !IsPending(w, s, today, x) then 0
    else if !CategoryUsable(w, s.rows[x]) then 1
    else (Reach(s, today, x) + 2) / 3
  }

  lemma DueIsBehind(b: Budget, today: int)
    requires b.period != Custom
    ensures b.endDate < today <==> BehindOf(b, today) > 0
  {
  }

  /** Budgets whose category can be used fail exactly when they are stuck. */
  lemma FailsIffStuck(w: World, s: Store, today: int, x: Id)
    requires x in DueSet(s, today)
    ensures TryRenew(w, s, x).1 == Failed <==> IsStuck(w, s, today, x)
  {
    hide NextStart, Carry, Successor;
  }

  lemma FirstCycle(rows: map<Id, Budget>, b: Budget)
    requires b.period != Custom
    ensures CycleTaken(rows, b, 0) <==> SlotTaken(rows, b.recurrenceGroupId, b.endDate + 1)
  {
  }

  lemma ReachIsPositive(w: World, s: Store, today: int, x: Id)
    requires x in s.rows && IsPending(w, s, today, x) && CategoryUsable(w, s.rows[x])
    ensures s.rows[x].period != Custom && Reach(s, today, x) > 0
  {
    var b := s.rows[x];
    hide SlotTaken, Behind;
    FirstCycle(s.rows, b);
    DueIsBehind(b, today);
    FreeCyclesIs(s.rows, b, BehindOf(b, today));
    hide FreeCycles, CycleTaken;
  }

  lemma PendingHasRounds(w: World, s: Store, today: int, x: Id)
    requires x in s.rows
    ensures IsPending(w, s, today, x) <==> Rounds(w, s, today, x) > 0
  {
    hide Reach;
    if IsPending(w, s, today, x) && CategoryUsable(w, s.rows[x]) {
      ReachIsPositive(w, s, today, x);
    }
  }

  // ---------------------------------------------------------------- tables that grow

  /** Rows stay, and change in two flags at most. */
  ghost predicate Extends(s: Store, r: Store) {
    && s.next <= r.next
    && forall y :: y in s.rows ==>
         y in r.rows && r.rows[y].(renewed := s.rows[y].renewed, autoRenew := s.rows[y].autoRenew) == s.rows[y]
  }

  /** All rows that are new belong to the group. */
  ghost predicate NewIn(s: Store, r: Store, group: Option<Id>) {
    forall y :: y in r.rows && y !in s.rows ==> r.rows[y].recurrenceGroupId == group
  }

  lemma TakenStays(s: Store, r: Store, b: Budget, j: nat)
    requires Extends(s, r) && b.period != Custom && CycleTaken(s.rows, b, j)
    ensures CycleTaken(r.rows, b, j)
  {
    hide CycleStart;
    var x :| x in s.rows && s.rows[x].recurrenceGroupId == b.recurrenceGroupId
      && s.rows[x].startDate == CycleStart(b.period, b.endDate + 1, j);
    assert x in r.rows && r.rows[x].recurrenceGroupId == s.rows[x].recurrenceGroupId
      && r.rows[x].startDate == s.rows[x].startDate;
  }

  lemma FreeFalls(s: Store, r: Store, b: Budget, m: nat)
    requires Extends(s, r) && b.period != Custom
    ensures FreeCycles(r.rows, b, m) <= FreeCycles(s.rows, b, m)
  {
    hide CycleTaken, FreeCycles, Extends;
    FreeCyclesIs(s.rows, b, m);
    FreeCyclesIs(r.rows, b, m);
    var n := FreeCycles(s.rows, b, m);
    if n < m {
      TakenStays(s, r, b, n);
    }
  }

  /** No new row belongs to the group of budget b. */
  ghost predicate NewElsewhere(s: Store, r: Store, b: Budget) {
    forall y :: y in r.rows && y !in s.rows ==>
      b.recurrenceGroupId.None? || r.rows[y].recurrenceGroupId != b.recurrenceGroupId
  }

  lemma TakenBefore(s: Store, r: Store, b: Budget, j: nat)
    requires Extends(s, r) && NewElsewhere(s, r, b) && b.period != Custom
    ensures CycleTaken(r.rows, b, j) ==> CycleTaken(s.rows, b, j)
  {
    hide CycleStart;
    var start := CycleStart(b.period, b.endDate + 1, j);
    if x :| x in r.rows && r.rows[x].recurrenceGroupId == b.recurrenceGroupId && r.rows[x].startDate == start {
      if b.recurrenceGroupId.Some? {
        assert x in s.rows && s.rows[x].recurrenceGroupId == b.recurrenceGroupId && s.rows[x].startDate == start;
      }
    }
  }

  /** Rows of other groups take no cycle. */
  lemma FreeSame(s: Store, r: Store, b: Budget, m: nat)
    requires Extends(s, r) && NewElsewhere(s, r, b) && b.period != Custom
    ensures FreeCycles(r.rows, b, m) == FreeCycles(s.rows, b, m)
  {
    hide CycleTaken, FreeCycles, Extends, NewElsewhere;
    FreeCyclesIs(r.rows, b, m);
    FreeCyclesIs(s.rows, b, m);
    FreeFalls(s, r, b, m);
    var n := FreeCycles(r.rows, b, m);
    if n < m {
      TakenBefore(s, r, b, n);
    }
  }

  /** A budget that is left alone stays stuck, and never takes more rounds. */
  lemma RowLeftAlone(w: World, s: Store, r: Store, today: int, y: Id)
    requires Extends(s, r) && y in s.rows && r.rows[y] == s.rows[y]
    ensures IsStuck(w, s, today, y) ==> IsStuck(w, r, today, y)
    ensures Rounds(w, r, today, y) <= Rounds(w, s, today, y)
  {
    var b := s.rows[y];
    if b.period != Custom {
      FreeFalls(s, r, b, BehindOf(b, today));
      FirstCycle(s.rows, b);
      FirstCycle(r.rows, b);
      if CycleTaken(s.rows, b, 0) {
        TakenStays(s, r, b, 0);
      }
    }
    hide SlotTaken, CycleTaken, FreeCycles, Behind, Extends;
  }

  // ---------------------------------------------------------------- the cycles after a renewed chain

  lemma {:induction false} CyclesAdd(period: Period, start: int, m: nat, n: nat)
    requires period != Custom
    ensures CycleStart(period, CycleStart(period, start, m), n) == CycleStart(period, start, m + n)
    decreases n
  {
    hide NextStart;
    if n > 0 {
      CyclesAdd(period, start, m, n - 1);
      assert m + n - 1 == m + (n - 1);
    }
  }

  /** The rows after n renewals: the old ones, and new ones that start on the first n cycles. */
  lemma ChainRow(w: World, s: Store, x: Id, n: nat, r: Store, y: Id)
    requires Valid(s) && x in s.rows && s.rows[x].period != Custom && HoldsChain(w, s, x, n, r) && y in r.rows
    ensures y in s.rows ==>
      r.rows[y].recurrenceGroupId == s.rows[y].recurrenceGroupId && r.rows[y].startDate == s.rows[y].startDate
    ensures y !in s.rows ==>
      r.rows[y].recurrenceGroupId == s.rows[x].recurrenceGroupId
      && r.rows[y].startDate < CycleStart(s.rows[x].period, s.rows[x].endDate + 1, n)
  {
    hide NextStart, Carry, CycleStart, Descendant;
    var b := s.rows[x];
    DescendantZero(w, x, b, s.next);
    assert HoldsLink(w, s, x, n, r, 0);
    if y !in s.rows {
      var i := y - s.next + 1;
      assert HoldsLink(w, s, x, n, r, i);
      DescendantDates(w, x, b, s.next, i);
      DescendantGroup(w, x, b, s.next, i);
      CyclesAscend(b.period, b.endDate + 1, i - 1, n);
    }
  }

  lemma SlotsAfterChain(w: World, s: Store, x: Id, n: nat, r: Store, start: int)
    requires Valid(s) && x in s.rows && s.rows[x].period != Custom && HoldsChain(w, s, x, n, r)
    requires start >= CycleStart(s.rows[x].period, s.rows[x].endDate + 1, n)
    ensures SlotTaken(r.rows, s.rows[x].recurrenceGroupId, start)
       <==> SlotTaken(s.rows, s.rows[x].recurrenceGroupId, start)
  {
    hide CycleStart, HoldsLink, Valid;
    var group := s.rows[x].recurrenceGroupId;
    forall y | y in r.rows && r.rows[y].recurrenceGroupId == group && r.rows[y].startDate == start
      ensures y in s.rows && s.rows[y].recurrenceGroupId == group && s.rows[y].startDate == start
    {
      ChainRow(w, s, x, n, r, y);
    }
    forall y | y in s.rows && s.rows[y].recurrenceGroupId == group && s.rows[y].startDate == start
      ensures y in r.rows && r.rows[y].recurrenceGroupId == group && r.rows[y].startDate == start
    {
      ChainRow(w, s, x, n, r, y);
    }
  }

  /** The new rows of a chain take only cycles before the end of its tail. */
  lemma ChainTakes(w: World, s: Store, x: Id, n: nat, r: Store, j: nat)
    requires Valid(s) && x in s.rows && s.rows[x].period != Custom && HoldsChain(w, s, x, n, r)
    ensures CycleTaken(r.rows, Descendant(w, x, s.rows[x], s.next, n), j) <==> CycleTaken(s.rows, s.rows[x], n + j)
  {
    hide NextStart, Carry, CycleStart, Descendant, HoldsChain, SlotTaken, Valid;
    var b := s.rows[x];
    DescendantDates(w, x, b, s.next, n);
    DescendantGroup(w, x, b, s.next, n);
    CyclesAdd(b.period, b.endDate + 1, n, j);
    CyclesAscend(b.period, b.endDate + 1, n, n + j);
    SlotsAfterChain(w, s, x, n, r, CycleStart(b.period, b.endDate + 1, n + j));
  }

  lemma {:induction false} DescendantGroup(w: World, id: Id, b: Budget, next: Id, j: nat)
    requires b.period != Custom
    ensures Descendant(w, id, b, next, j).recurrenceGroupId == b.recurrenceGroupId
    decreases j
  {
    hide NextStart, Carry;
    if j > 0 {
      DescendantGroup(w, id, b, next, j - 1);
    }
  }

  lemma DescendantZero(w: World, id: Id, b: Budget, next: Id)
    requires b.period != Custom
    ensures Descendant(w, id, b, next, 0) == b
  {
  }

  /** What is free for the tail is what was free for the chain, less the new rows. */
  lemma FreeAfterChain(w: World, s: Store, x: Id, n: nat, r: Store, m: nat)
    requires Valid(s) && x in s.rows && s.rows[x].period != Custom && HoldsChain(w, s, x, n, r)
    requires n <= FreeCycles(s.rows, s.rows[x], m + n)
    ensures FreeCycles(r.rows, Descendant(w, x, s.rows[x], s.next, n), m) == FreeCycles(s.rows, s.rows[x], m + n) - n
  {
    hide FreeCycles, CycleTaken, HoldsChain, Valid, Descendant;
    var b, tail := s.rows[x], Descendant(w, x, s.rows[x], s.next, n);
    FreeCyclesIs(s.rows, b, m + n);
    var k := FreeCycles(s.rows, b, m + n) - n;
    forall j: nat | j < k ensures !CycleTaken(r.rows, tail, j) {
      ChainTakes(w, s, x, n, r, j);
    }
    ChainTakes(w, s, x, n, r, k);
    FreeCyclesAre(r.rows, tail, m, k);
  }

  // ---------------------------------------------------------------- the catch-up of one due budget

  lemma StuckIsLeft(w: World, s: Store, today: int, x: Id)
    requires x in s.rows && IsStuck(w, s, today, x)
    ensures CatchUp(w, s, today, x, MAX_ITERATIONS) == (s, [])
  {
    UntilNeverStops(s.rows[x], today);
    assert TryRenew(w, s, x) == (s, Failed);
  }

  lemma SuspendedIs(w: World, s: Store, today: int, x: Id)
    requires Valid(s) && x in DueSet(s, today) && !CategoryUsable(w, s.rows[x])
    ensures var r := CatchUp(w, s, today, x, MAX_ITERATIONS).0;
      r == Store(s.rows[x := s.rows[x].(autoRenew := false)], s.next) && Valid(r) && Extends(s, r)
  {
    UntilNeverStops(s.rows[x], today);
  }

  lemma FreeCyclesCut(rows: map<Id, Budget>, b: Budget, m: nat, k: nat)
    requires b.period != Custom
    ensures FreeCycles(rows, b, Min(m, k)) == Min(m, FreeCycles(rows, b, k))
  {
    hide FreeCycles, CycleTaken;
    FreeCyclesIs(rows, b, k);
    FreeCyclesAre(rows, b, Min(m, k), Min(m, FreeCycles(rows, b, k)));
  }

  /** A budget that is not stuck is followed by as many budgets as it reaches, three at most. */
  lemma RenewedIs(w: World, s: Store, today: int, x: Id)
    requires Valid(s) && x in s.rows && IsPending(w, s, today, x) && CategoryUsable(w, s.rows[x])
    ensures s.rows[x].period != Custom
    ensures var (r, n) := (CatchUp(w, s, today, x, MAX_ITERATIONS).0, Made(s, today, x, MAX_ITERATIONS));
      && n == Min(3, Reach(s, today, x)) && 1 <= n <= BehindOf(s.rows[x], today)
      && HoldsChain(w, s, x, n, r) && Valid(r)
  {
    hide NextStart, Carry, Behind, CatchUp, AfterChain, Descendant, FreeCycles, CycleTaken;
    ReachIsPositive(w, s, today, x);
    var b, n := s.rows[x], Made(s, today, x, MAX_ITERATIONS);
    FreeCyclesCut(s.rows, b, 3, BehindOf(b, today));
    CatchUpExact(w, s, today, x, MAX_ITERATIONS);
    AfterChainRows(w, s, x, n);
  }

  lemma ChainExtends(w: World, s: Store, x: Id, n: nat, r: Store)
    requires Valid(s) && x in s.rows && s.rows[x].period != Custom && HoldsChain(w, s, x, n, r)
    ensures Extends(s, r) && NewIn(s, r, s.rows[x].recurrenceGroupId)
  {
    assert HoldsLink(w, s, x, n, r, 0);
    DescendantZero(w, x, s.rows[x], s.next);
    hide HoldsLink, CycleStart;
    forall y | y in r.rows && y !in s.rows ensures r.rows[y].recurrenceGroupId == s.rows[x].recurrenceGroupId {
      ChainRow(w, s, x, n, r, y);
    }
  }

  /** The budgets that are due after n renewals along the chain of x: others, and the new tail if it is still behind. */
  lemma ChainDue(w: World, s: Store, today: int, x: Id, n: nat, r: Store)
    requires Valid(s) && x in DueSet(s, today) && s.rows[x].period != Custom && 1 <= n <= BehindOf(s.rows[x], today)
    requires HoldsChain(w, s, x, n, r)
    ensures forall y :: y in DueSet(r, today) ==> (y in DueSet(s, today) && y != x) || y == s.next + n - 1
  {
    hide NextStart, Carry, Behind, Descendant;
    assert HoldsLink(w, s, x, n, r, 0);
    forall y | y in DueSet(r, today) ensures (y in DueSet(s, today) && y != x) || y == s.next + n - 1 {
      if y !in s.rows {
        assert HoldsLink(w, s, x, n, r, y - s.next + 1);
      }
    }
  }

  /** The new tail after n renewals. */
  lemma ChainTail(w: World, s: Store, today: int, x: Id, n: nat, r: Store)
    requires Valid(s) && x in DueSet(s, today) && s.rows[x].period != Custom && 1 <= n <= BehindOf(s.rows[x], today)
    requires HoldsChain(w, s, x, n, r)
    ensures var t := s.next + n - 1;
      && t in r.rows && t !in s.rows && r.rows[t] == Descendant(w, x, s.rows[x], s.next, n)
      && BehindOf(r.rows[t], today) == BehindOf(s.rows[x], today) - n
      && (t in DueSet(r, today) <==> BehindOf(s.rows[x], today) > n)
  {
    hide NextStart, Carry, Behind;
    var b, t := s.rows[x], s.next + n - 1;
    assert HoldsLink(w, s, x, n, r, n);
    BehindAfter(w, x, b, s.next, n, today);
    assert r.rows[t] == Successor(w, DescendantId(x, s.next, n - 1), Descendant(w, x, b, s.next, n - 1));
    DueIsBehind(r.rows[t], today);
  }

  /** A due budget of a regular period with a usable category is pending exactly when it reaches a cycle. */
  lemma PendingIffReaches(w: World, s: Store, today: int, x: Id)
    requires x in s.rows && s.rows[x].period != Custom && CategoryUsable(w, s.rows[x])
    ensures IsPending(w, s, today, x) ==> Reach(s, today, x) > 0
    ensures IsDue(s.rows[x], today) && Reach(s, today, x) > 0 ==> IsPending(w, s, today, x)
    ensures Reach(s, today, x) > 0 ==> BehindOf(s.rows[x], today) > 0
  {
    var b := s.rows[x];
    hide SlotTaken, Behind;
    FirstCycle(s.rows, b);
    DueIsBehind(b, today);
    FreeCyclesIs(s.rows, b, BehindOf(b, today));
    hide FreeCycles, CycleTaken;
  }

  lemma DescendantUsable(w: World, id: Id, b: Budget, next: Id, j: nat)
    requires b.period != Custom
    ensures CategoryUsable(w, Descendant(w, id, b, next, j)) <==> CategoryUsable(w, b)
  {
    hide Descendant;
  }

  /** Budget t of store r can be followed as far as budget x of store s, less n. */
  ghost predicate ReachesOn(w: World, s: Store, today: int, x: Id, n: nat, r: Store, t: Id)
    requires x in s.rows && s.rows[x].period != Custom
  {
    && t in r.rows && r.rows[t].period != Custom
    && (CategoryUsable(w, r.rows[t]) <==> CategoryUsable(w, s.rows[x]))
    && Reach(r, today, t) == Reach(s, today, x) - n
  }

  /** The tail reaches what the budget reached, less the new rows. */
  lemma TailReaches(w: World, s: Store, today: int, x: Id, n: nat, r: Store)
    requires Valid(s) && x in DueSet(s, today) && s.rows[x].period != Custom && HoldsChain(w, s, x, n, r)
    requires 1 <= n <= Reach(s, today, x)
    ensures ReachesOn(w, s, today, x, n, r, s.next + n - 1)
  {
    hide HoldsChain, FreeCycles, CycleTaken, Descendant, Valid, CategoryUsable, Behind;
    var t := s.next + n - 1;
    ChainTail(w, s, today, x, n, r);
    FreeAfterChain(w, s, x, n, r, BehindOf(r.rows[t], today));
    DescendantUsable(w, x, s.rows[x], s.next, n);
  }

  /** And it takes one round less. */
  lemma TailRounds(w: World, s: Store, today: int, x: Id, n: nat, r: Store)
    requires Valid(s) && x in s.rows && IsPending(w, s, today, x) && CategoryUsable(w, s.rows[x])
    requires s.rows[x].period != Custom && n == Min(3, Reach(s, today, x)) && HoldsChain(w, s, x, n, r)
    requires 1 <= n <= BehindOf(s.rows[x], today)
    ensures var t := s.next + n - 1; t in r.rows && Rounds(w, r, today, t) + 1 == Rounds(w, s, today, x)
  {
    hide HoldsChain, Reach, Behind, IsDue, CategoryUsable, IsStuck, Valid, Descendant;
    assert x in DueSet(s, today);
    TailReaches(w, s, today, x, n, r);
    ChainTail(w, s, today, x, n, r);
    PendingIffReaches(w, r, today, s.next + n - 1);
  }

  /** Store r holds the next n budgets of the chain of budget x, from id next on; all but the last are renewed. */
  ghost predicate HoldsLinks(w: World, s: Store, x: Id, n: nat, next: Id, r: Store)
    requires x in s.rows && s.rows[x].period != Custom
  {
    forall j :: 0 <= j <= n ==> HoldsLink(w, Store(s.rows, next), x, n, r, j)
  }

  /** Budget y is new in store r, and takes one round less than budget x did. */
  ghost predicate Replaces(w: World, s: Store, today: int, x: Id, r: Store, y: Id)
    requires x in s.rows && y in r.rows
  {
    y !in s.rows && Rounds(w, r, today, y) + 1 == Rounds(w, s, today, x)
  }

  /** What becomes of budget x: suspended, left alone, or its chain extended by as many budgets as can follow. */
  ghost predicate CaughtRow(w: World, s: Store, today: int, x: Id, r: Store)
    requires x in s.rows
  {
    var b := s.rows[x];
    && x in r.rows
    && if !CategoryUsable(w, b) then r.rows[x] == b.(autoRenew := false)
       else if b.period == Custom then r.rows[x] == b
       else HoldsLinks(w, s, x, Made(s, today, x, MAX_ITERATIONS), s.next, r)
  }

  /** What the catch-up of due budget x does to the table. */
  ghost predicate Caught(w: World, s: Store, today: int, x: Id, r: Store)
    requires x in s.rows
  {
    && Extends(s, r) && NewIn(s, r, s.rows[x].recurrenceGroupId)
    && (forall y :: y in s.rows && y != x ==> r.rows[y] == s.rows[y])
    && (IsStuck(w, s, today, x) ==> r == s)
    && (forall y :: y in DueSet(r, today) ==>
          (y in DueSet(s, today) && (y == x ==> IsStuck(w, s, today, x))) || Replaces(w, s, today, x, r, y))
    && CaughtRow(w, s, today, x, r)
    && |DueSet(r, today)| <= |DueSet(s, today)|
  }

  lemma CaughtStuck(w: World, s: Store, today: int, x: Id)
    requires x in s.rows && IsStuck(w, s, today, x)
    ensures Caught(w, s, today, x, s)
  {
    var b := s.rows[x];
    if b.period != Custom {
      FirstCycle(s.rows, b);
      FreeCyclesIs(s.rows, b, Count(b, today, MAX_ITERATIONS));
      DescendantZero(w, x, b, s.next);
      hide FreeCycles, CycleTaken, Behind, Descendant;
      assert HoldsLink(w, Store(s.rows, s.next), x, 0, s, 0);
    }
  }

  lemma CaughtSuspended(w: World, s: Store, today: int, x: Id)
    requires Valid(s) && x in DueSet(s, today) && !CategoryUsable(w, s.rows[x])
    ensures Caught(w, s, today, x, CatchUp(w, s, today, x, MAX_ITERATIONS).0)
  {
    SuspendedIs(w, s, today, x);
    hide CatchUp, SlotTaken;
    SwapBound(DueSet(s, today), DueSet(CatchUp(w, s, today, x, MAX_ITERATIONS).0, today), x, x);
  }

  lemma RenewedDue(w: World, s: Store, today: int, x: Id, n: nat, r: Store)
    requires Valid(s) && x in s.rows && IsPending(w, s, today, x) && CategoryUsable(w, s.rows[x])
    requires s.rows[x].period != Custom && n == Min(3, Reach(s, today, x)) && HoldsChain(w, s, x, n, r)
    requires 1 <= n <= BehindOf(s.rows[x], today)
    ensures forall y :: y in DueSet(r, today) ==>
      (y in DueSet(s, today) && y != x) || Replaces(w, s, today, x, r, y)
    ensures |DueSet(r, today)| <= |DueSet(s, today)|
  {
    hide HoldsChain, Valid, Reach, Rounds, CategoryUsable, IsStuck, Behind, Descendant, IsDue;
    assert x in DueSet(s, today);
    ChainDue(w, s, today, x, n, r);
    ChainTail(w, s, today, x, n, r);
    TailRounds(w, s, today, x, n, r);
    SwapBound(DueSet(s, today), DueSet(r, today), x, s.next + n - 1);
  }

  lemma CaughtRenewed(w: World, s: Store, today: int, x: Id)
    requires Valid(s) && x in s.rows && IsPending(w, s, today, x) && CategoryUsable(w, s.rows[x])
    ensures Caught(w, s, today, x, CatchUp(w, s, today, x, MAX_ITERATIONS).0)
  {
    var r, n := CatchUp(w, s, today, x, MAX_ITERATIONS).0, Made(s, today, x, MAX_ITERATIONS);
    RenewedIs(w, s, today, x);
    ChainExtends(w, s, x, n, r);
    RenewedDue(w, s, today, x, n, r);
    assert HoldsLink(w, s, x, n, r, 0);
    assert !IsStuck(w, s, today, x);
    hide CatchUp, HoldsLink, Reach, Made, Rounds, Extends, NewIn, Replaces, Valid, IsStuck, DueSet, Behind;
    assert s == Store(s.rows, s.next);
    assert HoldsLinks(w, s, x, n, s.next, r);
  }

  lemma CatchUpCatches(w: World, s: Store, today: int, x: Id)
    requires Valid(s) && x in DueSet(s, today)
    ensures var r := CatchUp(w, s, today, x, MAX_ITERATIONS).0; Valid(r) && Caught(w, s, today, x, r)
  {
    hide CatchUp, Caught, Valid, SlotTaken;
    if IsStuck(w, s, today, x) {
      StuckIsLeft(w, s, today, x);
      CaughtStuck(w, s, today, x);
    } else if !CategoryUsable(w, s.rows[x]) {
      SuspendedIs(w, s, today, x);
      CaughtSuspended(w, s, today, x);
    } else {
      RenewedIs(w, s, today, x);
      CaughtRenewed(w, s, today, x);
    }
  }

  // ---------------------------------------------------------------- the work that is left

  function Share(w: World, s: Store, today: int, x: Id): nat {
    if x in s.rows then Rounds(w, s, today, x) else 0
  }

  /** The rounds of the budgets with ids below n. */
  function Work(w: World, s: Store, today: int, n: nat): nat {
    if n == 0 then 0 else Work(w, s, today, n - 1) + Share(w, s, today, n - 1)
  }

  function TotalWork(w: World, s: Store, today: int): nat {
    Work(w, s, today, s.next)
  }

  lemma {:induction false} WorkFalls(w: World, s: Store, r: Store, today: int, x: Id, n: nat)
    requires Extends(s, r) && (forall y :: y < n && y in r.rows ==> y in s.rows)
    requires forall y :: y in s.rows && y != x ==> r.rows[y] == s.rows[y]
    ensures Work(w, r, today, n) + (if x < n then Share(w, s, today, x) else 0)
         <= Work(w, s, today, n) + (if x < n then Share(w, r, today, x) else 0)
    decreases n
  {
    hide Rounds;
    if n > 0 {
      WorkFalls(w, s, r, today, x, n - 1);
      if n - 1 != x && n - 1 in s.rows {
        RowLeftAlone(w, s, r, today, n - 1);
      }
    }
  }

  /** Renewed links of a chain are no work; what is left is in the tail. */
  lemma {:induction false} ChainWork(w: World, s: Store, today: int, x: Id, n: nat, r: Store, m: nat)
    requires Valid(s) && x in s.rows && s.rows[x].period != Custom && HoldsChain(w, s, x, n, r) && m < n
    ensures Work(w, r, today, s.next + m) == Work(w, r, today, s.next)
    decreases m
  {
    hide NextStart, Carry, Behind, Descendant, Reach, SlotTaken, Valid;
    if m > 0 {
      ChainWork(w, s, today, x, n, r, m - 1);
      assert HoldsLink(w, s, x, n, r, m);
      assert s.next + m - 1 == DescendantId(x, s.next, m);
    }
  }

  lemma RenewedWork(w: World, s: Store, today: int, x: Id, n: nat, r: Store)
    requires Valid(s) && x in s.rows && IsPending(w, s, today, x) && CategoryUsable(w, s.rows[x])
    requires s.rows[x].period != Custom && n == Min(3, Reach(s, today, x)) && HoldsChain(w, s, x, n, r)
    requires 1 <= n <= BehindOf(s.rows[x], today)
    ensures TotalWork(w, r, today) + 1 <= TotalWork(w, s, today)
  {
    hide HoldsChain, Reach, Rounds, Extends, NewIn, IsDue, CategoryUsable, Behind, IsPending, Valid;
    ChainExtends(w, s, x, n, r);
    TailRounds(w, s, today, x, n, r);
    HeadIsNoWork(w, s, today, x, n, r);
    ChainWork(w, s, today, x, n, r, n - 1);
    OldIdsBelow(w, s, x, n, r);
    WorkFalls(w, s, r, today, x, s.next);
  }

  lemma HeadIsNoWork(w: World, s: Store, today: int, x: Id, n: nat, r: Store)
    requires x in s.rows && s.rows[x].period != Custom && HoldsChain(w, s, x, n, r) && n > 0
    ensures x in r.rows && Rounds(w, r, today, x) == 0
  {
    assert HoldsLink(w, s, x, n, r, 0);
    hide Descendant, Reach;
    RenewedIsNoWork(w, r, today, x);
  }

  lemma OldIdsBelow(w: World, s: Store, x: Id, n: nat, r: Store)
    requires Valid(s) && x in s.rows && s.rows[x].period != Custom && HoldsChain(w, s, x, n, r)
    ensures x < s.next && forall y :: y < s.next && y in r.rows ==> y in s.rows
    ensures r.next == s.next + n && forall y :: y in s.rows && y != x ==> y in r.rows && r.rows[y] == s.rows[y]
  {
    hide HoldsLink;
  }

  lemma RenewedIsNoWork(w: World, s: Store, today: int, x: Id)
    requires x in s.rows && (s.rows[x].renewed || !s.rows[x].autoRenew)
    ensures Rounds(w, s, today, x) == 0
  {
  }

  /** The catch-up of a due budget that is not stuck takes a round off. */
  lemma CatchUpWork(w: World, s: Store, today: int, x: Id)
    requires Valid(s) && x in DueSet(s, today)
    ensures TotalWork(w, CatchUp(w, s, today, x, MAX_ITERATIONS).0, today)
      + (if IsStuck(w, s, today, x) then 0 else 1) <= TotalWork(w, s, today)
  {
    hide CatchUp, SlotTaken;
    if IsStuck(w, s, today, x) {
      StuckIsLeft(w, s, today, x);
    } else if !CategoryUsable(w, s.rows[x]) {
      SuspendedIs(w, s, today, x);
      var r := CatchUp(w, s, today, x, MAX_ITERATIONS).0;
      RenewedIsNoWork(w, r, today, x);
      PendingHasRounds(w, s, today, x);
      hide Rounds, Extends;
      WorkFalls(w, s, r, today, x, s.next);
    } else {
      RenewedIs(w, s, today, x);
      var r, n := CatchUp(w, s, today, x, MAX_ITERATIONS).0, Made(s, today, x, MAX_ITERATIONS);
      RenewedWork(w, s, today, x, n, r);
    }
  }

  // ---------------------------------------------------------------- budgets that can get stuck

  /** No other due budget belongs to the group of budget x. */
  ghost predicate Sole(s: Store, today: int, x: Id)
    requires x in s.rows
  {
    forall y :: y in DueSet(s, today) && y != x ==>
      s.rows[x].recurrenceGroupId.None? || s.rows[y].recurrenceGroupId != s.rows[x].recurrenceGroupId
  }

  /**
   Budget x is stuck, or will be before its chain has reached today, or could be: its period is custom,
   a cycle that it is behind is taken, or another due budget could take one.
   */
  ghost predicate AtRisk(w: World, s: Store, today: int, x: Id)
    requires x in s.rows
  {
    var b := s.rows[x];
    IsDue(b, today) && CategoryUsable(w, b)
    && (b.period == Custom || Reach(s, today, x) < BehindOf(b, today) || !Sole(s, today, x))
  }

  ghost function RiskSet(w: World, s: Store, today: int): set<Id> {
    set x | x in s.rows && AtRisk(w, s, today, x)
  }

  lemma StuckIsAtRisk(w: World, s: Store, today: int)
    ensures StuckSet(w, s, today) <= RiskSet(w, s, today)
  {
    hide CategoryUsable;
    forall x | x in StuckSet(w, s, today) ensures AtRisk(w, s, today, x) {
      var b := s.rows[x];
      if b.period != Custom {
        hide SlotTaken, Behind, Sole;
        FirstCycle(s.rows, b);
        DueIsBehind(b, today);
        FreeCyclesIs(s.rows, b, BehindOf(b, today));
        hide FreeCycles, CycleTaken;
      }
    }
  }

  /** A budget that is at risk after a renewal along the chain of x, and not the tail, was so before. */
  lemma RiskBefore(w: World, s: Store, today: int, x: Id, t: Id, r: Store, y: Id)
    requires x in DueSet(s, today) && Extends(s, r) && NewIn(s, r, s.rows[x].recurrenceGroupId)
    requires forall z :: z in s.rows && z != x ==> r.rows[z] == s.rows[z]
    requires forall z :: z in DueSet(r, today) ==> (z in DueSet(s, today) && z != x) || (z == t && t !in s.rows)
    requires y in r.rows && y != t && AtRisk(w, r, today, y)
    ensures y in s.rows && y != x && AtRisk(w, s, today, y)
  {
    hide CategoryUsable, Behind, FreeCycles, IsDue, Extends;
    assert y in DueSet(r, today);
    var b := s.rows[y];
    if b.period != Custom && Sole(s, today, y) {
      FreeSame(s, r, b, BehindOf(b, today));
      assert Sole(r, today, y);
    }
  }

  /** When the tail is at risk, so was the budget that it follows. */
  lemma TailRisk(w: World, s: Store, today: int, x: Id, n: nat, r: Store)
    requires Valid(s) && x in s.rows && IsPending(w, s, today, x) && CategoryUsable(w, s.rows[x])
    requires s.rows[x].period != Custom && n == Min(3, Reach(s, today, x)) && HoldsChain(w, s, x, n, r)
    requires 1 <= n <= BehindOf(s.rows[x], today)
    requires s.next + n - 1 in r.rows && AtRisk(w, r, today, s.next + n - 1)
    ensures AtRisk(w, s, today, x)
  {
    hide HoldsChain, Behind, CategoryUsable, Reach, Descendant, Valid, IsDue, IsStuck;
    var t := s.next + n - 1;
    assert x in DueSet(s, today);
    ChainTail(w, s, today, x, n, r);
    TailReaches(w, s, today, x, n, r);
    if Sole(s, today, x) && !Sole(r, today, t) {
      var z :| z in DueSet(r, today) && z != t
        && r.rows[t].recurrenceGroupId.Some? && r.rows[z].recurrenceGroupId == r.rows[t].recurrenceGroupId;
      ChainDue(w, s, today, x, n, r);
      ChainRow(w, s, x, n, r, z);
      ChainRow(w, s, x, n, r, t);
      assert false;
    }
  }

  lemma OthersAtRisk(w: World, s: Store, today: int, x: Id, n: nat, r: Store, y: Id)
    requires Valid(s) && x in s.rows && IsPending(w, s, today, x) && CategoryUsable(w, s.rows[x])
    requires s.rows[x].period != Custom && n == Min(3, Reach(s, today, x)) && HoldsChain(w, s, x, n, r)
    requires 1 <= n <= BehindOf(s.rows[x], today)
    requires y in RiskSet(w, r, today) && y != s.next + n - 1
    ensures y in RiskSet(w, s, today) && y != x
  {
    hide HoldsChain, Behind, CategoryUsable, Reach, Valid, IsDue, IsStuck, AtRisk, Extends, NewIn;
    assert x in DueSet(s, today);
    ChainTail(w, s, today, x, n, r);
    ChainDue(w, s, today, x, n, r);
    ChainExtends(w, s, x, n, r);
    OldIdsBelow(w, s, x, n, r);
    RiskBefore(w, s, today, x, s.next + n - 1, r, y);
  }

  lemma RiskRenewed(w: World, s: Store, today: int, x: Id, n: nat, r: Store)
    requires Valid(s) && x in s.rows && IsPending(w, s, today, x) && CategoryUsable(w, s.rows[x])
    requires s.rows[x].period != Custom && n == Min(3, Reach(s, today, x)) && HoldsChain(w, s, x, n, r)
    requires 1 <= n <= BehindOf(s.rows[x], today)
    ensures |RiskSet(w, r, today)| <= |RiskSet(w, s, today)|
  {
    var before, after, t := RiskSet(w, s, today), RiskSet(w, r, today), s.next + n - 1;
    if t in after {
      TailRisk(w, s, today, x, n, r);
      assert x in before;
    }
    hide HoldsChain, Behind, CategoryUsable, Reach, Valid, IsDue, IsStuck, AtRisk, RiskSet;
    forall y | y in after && y != t ensures y in before && y != x {
      OthersAtRisk(w, s, today, x, n, r, y);
    }
    if t in after {
      SwapBound(before, after, x, t);
    } else {
      SubsetBound(after, before);
    }
  }

  lemma RiskSuspended(w: World, s: Store, today: int, x: Id)
    requires x in s.rows
    ensures var r := Store(s.rows[x := s.rows[x].(autoRenew := false)], s.next);
      RiskSet(w, r, today) <= RiskSet(w, s, today)
  {
    var r := Store(s.rows[x := s.rows[x].(autoRenew := false)], s.next);
    hide CategoryUsable, Behind, FreeCycles;
    assert Extends(s, r) && Extends(r, s);
    assert x !in DueSet(r, today);
    forall y | y in RiskSet(w, r, today) ensures y in RiskSet(w, s, today) {
      var b := s.rows[y];
      assert y != x && r.rows[y] == b;
      if b.period != Custom {
        FreeFalls(s, r, b, BehindOf(b, today));
        FreeFalls(r, s, b, BehindOf(b, today));
      }
      forall z | z in DueSet(r, today) ensures z in DueSet(s, today) && r.rows[z] == s.rows[z] {
      }
    }
  }

  /** No catch-up makes more budgets get stuck than are at risk. */
  lemma CatchUpRisk(w: World, s: Store, today: int, x: Id)
    requires Valid(s) && x in DueSet(s, today)
    ensures |RiskSet(w, CatchUp(w, s, today, x, MAX_ITERATIONS).0, today)| <= |RiskSet(w, s, today)|
  {
    hide CatchUp, RiskSet, SlotTaken, Valid;
    if IsStuck(w, s, today, x) {
      StuckIsLeft(w, s, today, x);
    } else if !CategoryUsable(w, s.rows[x]) {
      SuspendedIs(w, s, today, x);
      RiskSuspended(w, s, today, x);
      SubsetBound(RiskSet(w, CatchUp(w, s, today, x, MAX_ITERATIONS).0, today), RiskSet(w, s, today));
    } else {
      RenewedIs(w, s, today, x);
      RiskRenewed(w, s, today, x, Made(s, today, x, MAX_ITERATIONS), CatchUp(w, s, today, x, MAX_ITERATIONS).0);
    }
  }

  // ---------------------------------------------------------------- one pass

  predicate AllDue(due: seq<Id>, s: Store, today: int) {
    forall i :: 0 <= i < |due| ==> due[i] in DueSet(s, today)
  }

  /**
   Budget x is followed in store r by n budgets of its chain: as many as could follow it before, if no
   other due budget is in its group; else maybe fewer, but only because the next start day is taken now.
   */
  ghost predicate Follows(w: World, s: Store, today: int, x: Id, n: nat, next: Id, r: Store)
    requires x in s.rows && s.rows[x].period != Custom
  {
    && next >= s.next && HoldsLinks(w, s, x, n, next, r)
    && n <= Made(s, today, x, MAX_ITERATIONS)
    && (n < Count(s.rows[x], today, MAX_ITERATIONS) ==> CycleTaken(r.rows, s.rows[x], n))
    && (Sole(s, today, x) ==> n == Made(s, today, x, MAX_ITERATIONS))
  }

  /** What becomes of a budget on the list: suspended, left alone when of a custom period, or followed. */
  ghost predicate Handled(w: World, s: Store, today: int, x: Id, r: Store)
    requires x in s.rows
  {
    var b := s.rows[x];
    && x in r.rows
    && if !CategoryUsable(w, b) then r.rows[x] == b.(autoRenew := false)
       else if b.period == Custom then r.rows[x] == b
       else exists n: nat, next: Id :: Follows(w, s, today, x, n, next, r)
  }

  /** New rows belong to groups of the list. */
  ghost predicate NewFrom(s: Store, today: int, due: seq<Id>, r: Store)
    requires AllDue(due, s, today)
  {
    forall y :: y in r.rows && y !in s.rows ==>
      exists i :: 0 <= i < |due| && s.rows[due[i]].recurrenceGroupId == r.rows[y].recurrenceGroupId
  }

  ghost predicate ReplacesOne(w: World, s: Store, today: int, due: seq<Id>, r: Store, y: Id)
    requires AllDue(due, s, today) && y in r.rows
  {
    exists i :: 0 <= i < |due| && Rounds(w, r, today, y) + 1 <= Rounds(w, s, today, due[i])
  }

  /** What a pass does to rows: every budget on the list is handled, no other one changes. */
  ghost predicate PassedRows(w: World, s: Store, today: int, due: seq<Id>, r: Store)
    requires AllDue(due, s, today)
  {
    && Extends(s, r) && NewFrom(s, today, due, r)
    && (forall y :: y in s.rows && y !in due ==> r.rows[y] == s.rows[y])
    && (forall i :: 0 <= i < |due| ==> Handled(w, s, today, due[i], r))
  }

  /** What is due after a pass was not on the list, or is stuck now, or replaces a budget with a longer way to go. */
  ghost predicate PassedDue(w: World, s: Store, today: int, due: seq<Id>, r: Store)
    requires AllDue(due, s, today)
  {
    forall y :: y in DueSet(r, today) ==>
      (y in DueSet(s, today) && (y in due ==> IsStuck(w, r, today, y)))
      || (y !in s.rows && ReplacesOne(w, s, today, due, r, y))
  }

  /** The accounts of a pass: every budget on the list that is not stuck afterwards takes a round off. */
  ghost predicate PassedWork(w: World, s: Store, today: int, due: seq<Id>, r: Store) {
    && |DueSet(r, today)| <= |DueSet(s, today)|
    && |RiskSet(w, r, today)| <= |RiskSet(w, s, today)|
    && StuckSet(w, s, today) <= StuckSet(w, r, today)
    && TotalWork(w, r, today) + |due| <= TotalWork(w, s, today) + CountIn(due, StuckSet(w, r, today))
  }

  /** What was followed stays so when another budget of before is caught up later. */
  lemma HandledStays(w: World, s: Store, today: int, z: Id, s1: Store, x: Id, r: Store)
    requires Valid(s) && z in s.rows && x in s.rows && z != x && x in s1.rows
    requires Handled(w, s, today, z, s1) && Caught(w, s1, today, x, r)
    ensures Handled(w, s, today, z, r)
  {
    hide NextStart, Carry, Behind, Descendant, CategoryUsable, IsDue, CycleTaken, FreeCycles, Sole, CaughtRow, IsStuck,
      DueSet;
    var b := s.rows[z];
    if CategoryUsable(w, b) && b.period != Custom {
      var n: nat, next: Id :| Follows(w, s, today, z, n, next, s1);
      forall j | 0 <= j <= n ensures HoldsLink(w, Store(s.rows, next), z, n, r, j) {
        assert HoldsLink(w, Store(s.rows, next), z, n, s1, j);
        assert DescendantId(z, next, j) != x;
      }
      if n < Count(b, today, MAX_ITERATIONS) {
        TakenStays(s1, r, b, n);
      }
      assert Follows(w, s, today, z, n, next, r);
    }
  }

  lemma SameLine(w: World, x: Id, s: Store, s1: Store, next: Id, n: nat, r: Store, j: int)
    requires 0 <= j <= n && x in s.rows && x in s1.rows && s1.rows[x] == s.rows[x] && s.rows[x].period != Custom
    ensures HoldsLink(w, Store(s.rows, next), x, n, r, j) <==> HoldsLink(w, Store(s1.rows, next), x, n, r, j)
  {
  }

  /** What is done to a row that did not change before is done to that row. */
  lemma HandledNow(w: World, s: Store, today: int, due: seq<Id>, s1: Store, x: Id, r: Store)
    requires AllDue(due, s, today) && x in DueSet(s, today) && x !in due
    requires Extends(s, s1) && NewFrom(s, today, due, s1) && s1.rows[x] == s.rows[x]
    requires Extends(s1, r) && CaughtRow(w, s1, today, x, r)
    ensures Handled(w, s, today, x, r)
  {
    hide NextStart, Carry, Behind, CategoryUsable, CycleTaken, FreeCycles, IsDue;
    var b := s.rows[x];
    if CategoryUsable(w, b) && b.period != Custom {
      var n, m := Made(s1, today, x, MAX_ITERATIONS), Count(b, today, MAX_ITERATIONS);
      forall j | 0 <= j <= n ensures HoldsLink(w, Store(s.rows, s1.next), x, n, r, j) {
        assert HoldsLink(w, Store(s1.rows, s1.next), x, n, r, j);
        SameLine(w, x, s, s1, s1.next, n, r, j);
      }
      FreeFalls(s, s1, b, m);
      FreeCyclesIs(s1.rows, b, m);
      if n < m {
        TakenStays(s1, r, b, n);
      }
      if Sole(s, today, x) {
        assert NewElsewhere(s, s1, b);
        FreeSame(s, s1, b, m);
      }
      assert Follows(w, s, today, x, n, s1.next, r);
    }
  }

  lemma ExtendsOn(s: Store, s1: Store, r: Store)
    requires Extends(s, s1) && Extends(s1, r)
    ensures Extends(s, r)
  {
  }

  lemma NewFromNext(s: Store, today: int, due: seq<Id>, x: Id, s1: Store, r: Store)
    requires x in DueSet(s, today) && AllDue(due, s, today) && AllDue(due + [x], s, today)
    requires NewFrom(s, today, due, s1) && Extends(s1, r)
    requires x in s1.rows && s1.rows[x] == s.rows[x] && NewIn(s1, r, s1.rows[x].recurrenceGroupId)
    ensures NewFrom(s, today, due + [x], r)
  {
    hide IsDue;
    var all := due + [x];
    assert all[|due|] == x && forall i :: 0 <= i < |due| ==> all[i] == due[i];
    forall y | y in r.rows && y !in s.rows
      ensures exists i :: 0 <= i < |all| && s.rows[all[i]].recurrenceGroupId == r.rows[y].recurrenceGroupId
    {
      if y in s1.rows {
        var i :| 0 <= i < |due| && s.rows[due[i]].recurrenceGroupId == s1.rows[y].recurrenceGroupId;
        assert s.rows[all[i]].recurrenceGroupId == r.rows[y].recurrenceGroupId;
      } else {
        assert s.rows[all[|due|]].recurrenceGroupId == r.rows[y].recurrenceGroupId;
      }
    }
  }

  lemma HandledNext(w: World, s: Store, today: int, due: seq<Id>, x: Id, s1: Store, r: Store, i: nat)
    requires Valid(s) && x in DueSet(s, today) && x !in due && AllDue(due, s, today) && i <= |due|
    requires PassedRows(w, s, today, due, s1) && x in s1.rows && Caught(w, s1, today, x, r)
    ensures Handled(w, s, today, (due + [x])[i], r)
  {
    hide Handled, CaughtRow, IsDue, Valid, Extends, IsStuck, Replaces, NewFrom, NewIn;
    if i < |due| {
      assert due[i] in DueSet(s, today) && due[i] != x;
      HandledStays(w, s, today, due[i], s1, x, r);
    } else {
      HandledNow(w, s, today, due, s1, x, r);
    }
  }

  lemma RowsNext(w: World, s: Store, today: int, due: seq<Id>, x: Id, s1: Store, r: Store)
    requires Valid(s) && x in DueSet(s, today) && x !in due && AllDue(due, s, today)
    requires PassedRows(w, s, today, due, s1) && x in s1.rows && Caught(w, s1, today, x, r)
    ensures AllDue(due + [x], s, today) && PassedRows(w, s, today, due + [x], r)
  {
    hide Handled, CaughtRow, IsDue, Valid, Extends, IsStuck, Replaces, NewFrom, NewIn;
    ExtendsOn(s, s1, r);
    NewFromNext(s, today, due, x, s1, r);
    forall i | 0 <= i < |due + [x]| ensures Handled(w, s, today, (due + [x])[i], r) {
      HandledNext(w, s, today, due, x, s1, r, i);
    }
    RowsKept(s, s1, r, due, x);
  }

  lemma RowIsThere(s: Store, r: Store, x: Id)
    requires Extends(s, r) && x in s.rows
    ensures x in r.rows
  {
  }

  lemma RowsKept(s: Store, s1: Store, r: Store, due: seq<Id>, x: Id)
    requires Extends(s, s1) && Extends(s1, r)
    requires forall y :: y in s.rows && y !in due ==> s1.rows[y] == s.rows[y]
    requires forall y :: y in s1.rows && y != x ==> r.rows[y] == s1.rows[y]
    ensures forall y :: y in s.rows && y !in due + [x] ==> y in r.rows && r.rows[y] == s.rows[y]
  {
  }

  lemma DueNext(w: World, s: Store, today: int, due: seq<Id>, x: Id, s1: Store, r: Store, y: Id)
    requires x in DueSet(s, today) && x !in due && AllDue(due, s, today) && AllDue(due + [x], s, today)
    requires Extends(s, s1) && s1.rows[x] == s.rows[x]
    requires PassedDue(w, s, today, due, s1) && Caught(w, s1, today, x, r) && y in DueSet(r, today)
    ensures (y in DueSet(s, today) && (y in due + [x] ==> IsStuck(w, r, today, y)))
      || (y !in s.rows && ReplacesOne(w, s, today, due + [x], r, y))
  {
    hide CaughtRow, IsDue, IsStuck, Rounds, NewIn;
    var all := due + [x];
    assert all[|due|] == x && forall i :: 0 <= i < |due| ==> all[i] == due[i];
    if y in DueSet(s1, today) && (y == x ==> IsStuck(w, s1, today, x)) {
      if y != x {
        RowLeftAlone(w, s1, r, today, y);
      }
      if y !in s.rows {
        var i :| 0 <= i < |due| && Rounds(w, s1, today, y) + 1 <= Rounds(w, s, today, due[i]);
        assert Rounds(w, r, today, y) + 1 <= Rounds(w, s, today, all[i]);
      }
    } else {
      RowLeftAlone(w, s, s1, today, x);
      assert Rounds(w, r, today, y) + 1 <= Rounds(w, s, today, all[|due|]);
    }
  }

  lemma StuckGrows(w: World, s: Store, today: int, x: Id, r: Store)
    requires x in s.rows && Caught(w, s, today, x, r)
    ensures StuckSet(w, s, today) <= StuckSet(w, r, today)
  {
    hide CaughtRow, IsDue, IsStuck, Rounds, NewIn;
    forall y | y in StuckSet(w, s, today) ensures y in StuckSet(w, r, today) {
      if y != x {
        RowIsThere(s, r, y);
        RowLeftAlone(w, s, r, today, y);
      }
    }
  }

  lemma WorkNext(w: World, s: Store, today: int, due: seq<Id>, x: Id, s1: Store, r: Store)
    requires x in s1.rows && PassedWork(w, s, today, due, s1) && Caught(w, s1, today, x, r)
    requires TotalWork(w, r, today) + (if IsStuck(w, s1, today, x) then 0 else 1) <= TotalWork(w, s1, today)
    requires |RiskSet(w, r, today)| <= |RiskSet(w, s1, today)|
    ensures PassedWork(w, s, today, due + [x], r)
  {
    StuckGrows(w, s1, today, x, r);
    var before, now, all := StuckSet(w, s1, today), StuckSet(w, r, today), due + [x];
    assert x in before <==> IsStuck(w, s1, today, x);
    hide Caught, StuckSet, RiskSet, TotalWork, IsStuck, DueSet;
    hide Extends, CaughtRow;
    assert all[..|due|] == due && all[|due|] == x;
    CountInGrows(due, before, now);
  }

  lemma StillDue(w: World, s: Store, today: int, due: seq<Id>, s1: Store, x: Id)
    requires AllDue(due, s, today) && PassedRows(w, s, today, due, s1) && x in DueSet(s, today) && x !in due
    ensures x in DueSet(s1, today) && s1.rows[x] == s.rows[x]
  {
    hide Handled, IsDue;
  }

  lemma PassedNone(w: World, s: Store, today: int)
    ensures PassedRows(w, s, today, [], s) && PassedDue(w, s, today, [], s) && PassedWork(w, s, today, [], s)
  {
    hide IsStuck, AtRisk, TotalWork;
  }

  lemma LastOfPass(w: World, s: Store, today: int, due: seq<Id>)
    requires due != [] && AllIn(due, s.rows)
    ensures var s1 := RenewAll(w, s, today, due[..|due| - 1]).0;
      due[|due| - 1] in s1.rows
      && RenewAll(w, s, today, due).0 == CatchUp(w, s1, today, due[|due| - 1], MAX_ITERATIONS).0
  {
    hide CatchUp;
  }

  /** One pass, over any list of due budgets without repetition, whatever the table holds. */
  lemma {:induction false} PassProgress(w: World, s: Store, today: int, due: seq<Id>)
    requires Valid(s) && AllIn(due, s.rows) && AllDue(due, s, today) && NoRepeats(due)
    ensures var r := RenewAll(w, s, today, due).0;
      && Valid(r)
      && PassedRows(w, s, today, due, r) && PassedDue(w, s, today, due, r) && PassedWork(w, s, today, due, r)
    decreases |due|
  {
    hide CatchUp, Valid, Caught, PassedRows, PassedDue, PassedWork, IsDue, IsStuck, TotalWork, RiskSet;
    if due == [] {
      EmptyPass(w, s, today);
      PassedNone(w, s, today);
    } else {
      hide RenewAll;
      var n := |due| - 1;
      var before, x := due[..n], due[n];
      assert due == before + [x] && x !in before;
      PassProgress(w, s, today, before);
      var s1 := RenewAll(w, s, today, before).0;
      StillDue(w, s, today, before, s1, x);
      CatchUpCatches(w, s1, today, x);
      CatchUpWork(w, s1, today, x);
      CatchUpRisk(w, s1, today, x);
      LastOfPass(w, s, today, due);
      PassStep(w, s, today, before, x, s1, CatchUp(w, s1, today, x, MAX_ITERATIONS).0);
    }
  }

  lemma PassStep(w: World, s: Store, today: int, due: seq<Id>, x: Id, s1: Store, r: Store)
    requires Valid(s) && x in DueSet(s, today) && x !in due && AllDue(due, s, today)
    requires PassedRows(w, s, today, due, s1) && PassedDue(w, s, today, due, s1) && PassedWork(w, s, today, due, s1)
    requires x in s1.rows && s1.rows[x] == s.rows[x] && Caught(w, s1, today, x, r)
    requires TotalWork(w, r, today) + (if IsStuck(w, s1, today, x) then 0 else 1) <= TotalWork(w, s1, today)
    requires |RiskSet(w, r, today)| <= |RiskSet(w, s1, today)|
    ensures AllDue(due + [x], s, today)
    ensures PassedRows(w, s, today, due + [x], r) && PassedDue(w, s, today, due + [x], r)
    ensures PassedWork(w, s, today, due + [x], r)
  {
    RowsNext(w, s, today, due, x, s1, r);
    WorkNext(w, s, today, due, x, s1, r);
    assert Extends(s, s1);
    hide Valid, Caught, PassedRows, PassedWork, IsDue, IsStuck, TotalWork, RiskSet, ReplacesOne, Extends, AllDue;
    forall y | y in DueSet(r, today)
      ensures (y in DueSet(s, today) && (y in due + [x] ==> IsStuck(w, r, today, y)))
        || (y !in s.rows && ReplacesOne(w, s, today, due + [x], r, y))
    {
      DueNext(w, s, today, due, x, s1, r, y);
    }
  }

  lemma EmptyPass(w: World, s: Store, today: int)
    ensures RenewAll(w, s, today, []).0 == s
  {
  }
}
