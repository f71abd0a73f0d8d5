/**
 Runs of passes of the renewal: how many passes a backlog takes, and when no number of passes is
 enough. The query returns at most fifty budgets, and a stuck one keeps its place in it.
 */
module RenewalRounds {
  import opened Prelude
  import opened FiniteSets
  import opened BudgetPeriods
  import opened Rollover
  import opened BudgetRenewal
  import opened RenewalProofs
  import opened RenewalPass

  ghost predicate IsPass(w: World, today: int, s: Store, due: seq<Id>, r: Store) {
    AllIn(due, s.rows) && IsDueList(due, s, today) && r == RenewAll(w, s, today, due).0
  }

  lemma PassIsPassed(w: World, today: int, s: Store, due: seq<Id>, r: Store)
    requires Valid(s) && IsPass(w, today, s, due, r)
    ensures Valid(r) && AllDue(due, s, today) && NoRepeats(due)
    ensures PassedRows(w, s, today, due, r) && PassedDue(w, s, today, due, r) && PassedWork(w, s, today, due, r)
  {
    hide RenewAll, Valid, PassedRows, PassedDue, PassedWork, IsDue;
    assert NoRepeats(due);
    PassProgress(w, s, today, due);
  }

  // ---------------------------------------------------------------- what a pass does to backlogs

  /** No pending budget, with those that take its place, is to be on the list more than n times. */
  ghost predicate AllWithin(w: World, s: Store, today: int, n: int) {
    forall x :: x in s.rows ==> Rounds(w, s, today, x) <= n || Rounds(w, s, today, x) == 0
  }

  /** Where a budget that is pending after a pass comes from. */
  lemma PendingAfter(w: World, s: Store, today: int, due: seq<Id>, r: Store, y: Id) returns (x: Id)
    requires AllDue(due, s, today) && PassedRows(w, s, today, due, r) && PassedDue(w, s, today, due, r)
    requires y in r.rows && Rounds(w, r, today, y) > 0
    ensures x in s.rows && Rounds(w, s, today, x) > 0
    ensures Rounds(w, r, today, y) <= Rounds(w, s, today, x) - if x in due then 1 else 0
  {
    PendingHasRounds(w, r, today, y);
    assert y in DueSet(r, today);
    hide Handled, IsDue, Rounds, IsStuck, NewFrom, Extends;
    if y in s.rows {
      assert y !in due;
      RowLeftAlone(w, s, r, today, y);
      x := y;
    } else {
      var i :| 0 <= i < |due| && Rounds(w, r, today, y) + 1 <= Rounds(w, s, today, due[i]);
      x := due[i];
    }
  }

  /** No pass makes a backlog longer, and a pass over all due budgets takes off a round for every chain. */
  lemma FullListWorks(w: World, today: int, s: Store, due: seq<Id>, r: Store, n: int)
    requires Valid(s) && IsPass(w, today, s, due, r) && AllWithin(w, s, today, n)
    ensures AllWithin(w, r, today, n)
    ensures |DueSet(s, today)| <= QUERY_LIMIT ==> AllWithin(w, r, today, n - 1)
  {
    PassIsPassed(w, today, s, due, r);
    if |DueSet(s, today)| <= QUERY_LIMIT {
      FullList(due, DueSet(s, today));
    }
    hide RenewAll, Valid, PassedRows, PassedDue, PassedWork, Rounds, IsDue, IsStuck;
    forall y | y in r.rows && Rounds(w, r, today, y) > 0
      ensures Rounds(w, r, today, y) <= n
      ensures |DueSet(s, today)| <= QUERY_LIMIT ==> Rounds(w, r, today, y) <= n - 1
    {
      var x := PendingAfter(w, s, today, due, r, y);
      PendingHasRounds(w, s, today, x);
      assert x in DueSet(s, today);
    }
  }

  /** When more than fifty budgets are due, a pass takes off a round for every place that cannot hold a stuck one. */
  lemma LongListWorks(w: World, today: int, s: Store, due: seq<Id>, r: Store)
    requires Valid(s) && IsPass(w, today, s, due, r) && |DueSet(s, today)| > QUERY_LIMIT
    ensures TotalWork(w, r, today) + QUERY_LIMIT - |StuckSet(w, r, today)| <= TotalWork(w, s, today)
    ensures |StuckSet(w, r, today)| <= |RiskSet(w, s, today)|
  {
    PassIsPassed(w, today, s, due, r);
    StuckIsAtRisk(w, r, today);
    SubsetBound(StuckSet(w, r, today), RiskSet(w, r, today));
    CountInBound(due, StuckSet(w, r, today));
    hide RenewAll, Valid, TotalWork, StuckSet, RiskSet, IsDue, PassedRows, PassedDue;
  }

  lemma {:induction false} NoWorkLeft(w: World, s: Store, today: int, x: Id, n: nat)
    requires x in s.rows && x < n
    ensures Rounds(w, s, today, x) <= Work(w, s, today, n)
    decreases n
  {
    hide Rounds;
    if x < n - 1 {
      NoWorkLeft(w, s, today, x, n - 1);
    }
  }

  // ---------------------------------------------------------------- runs of passes

  /** Stores, lists and days of a run of passes: every pass works on what the query returned on its day. */
  ghost predicate IsRun(w: World, days: seq<int>, stores: seq<Store>, lists: seq<seq<Id>>) {
    && |days| == |lists| && |stores| == |lists| + 1
    && forall i :: 0 <= i < |lists| ==> IsPass(w, days[i], stores[i], lists[i], stores[i + 1])
  }

  ghost predicate OneDay(days: seq<int>, today: int) {
    forall i :: 0 <= i < |days| ==> days[i] == today
  }

  /**
   Where a run can be after i passes: in i - b passes every chain came one round closer, and in b
   passes all of the work together came as many rounds closer as the list has places without risk.
   */
  ghost predicate Drained(w: World, first: Store, s: Store, today: int, n: nat, i: nat, b: nat) {
    && b <= i
    && AllWithin(w, s, today, n - (i - b))
    && TotalWork(w, s, today) + b * (QUERY_LIMIT - |RiskSet(w, first, today)|) <= TotalWork(w, first, today)
    && |RiskSet(w, s, today)| <= |RiskSet(w, first, today)|
  }

  /** The accounts of one more pass. */
  lemma DrainStep(work: nat, left: nat, now: nat, places: int, b: nat)
    requires left + b * places <= work && now + places <= left
    ensures now + (b + 1) * places <= work
  {
  }

  lemma {:induction false} RunDrains(w: World, today: int, days: seq<int>, stores: seq<Store>, lists: seq<seq<Id>>,
                                     n: nat, i: nat) returns (b: nat)
    requires IsRun(w, days, stores, lists) && OneDay(days, today) && i < |stores| && Valid(stores[0])
    requires AllWithin(w, stores[0], today, n)
    ensures Valid(stores[i]) && Drained(w, stores[0], stores[i], today, n, i, b)
    decreases i
  {
    hide RenewAll, Valid, TotalWork, StuckSet, RiskSet, AllWithin, IsPass, PassedRows, PassedDue;
    b := 0;
    if i > 0 {
      b := RunDrains(w, today, days, stores, lists, n, i - 1);
      var s, due, r := stores[i - 1], lists[i - 1], stores[i];
      PassIsPassed(w, today, s, due, r);
      FullListWorks(w, today, s, due, r, n - (i - 1 - b));
      PassBounds(w, today, s, due, r);
      if |DueSet(s, today)| > QUERY_LIMIT {
        LongListWorks(w, today, s, due, r);
        var places := QUERY_LIMIT - |RiskSet(w, stores[0], today)|;
        DrainStep(TotalWork(w, stores[0], today), TotalWork(w, s, today), TotalWork(w, r, today), places, b);
        b := b + 1;
      }
    }
  }

  lemma PassBounds(w: World, today: int, s: Store, due: seq<Id>, r: Store)
    requires PassedWork(w, s, today, due, r)
    ensures TotalWork(w, r, today) <= TotalWork(w, s, today) && |DueSet(r, today)| <= |DueSet(s, today)|
    ensures |RiskSet(w, r, today)| <= |RiskSet(w, s, today)|
  {
    hide TotalWork, StuckSet, RiskSet, DueSet;
    CountInLength(due, StuckSet(w, r, today));
  }

  /**
   However many budgets are due: with fewer than fifty at risk of getting stuck, nothing but stuck ones
   is due after as many passes as the longest backlog takes rounds, and the whole work divided by the
   places left.
   */
  lemma DrainBound(w: World, today: int, days: seq<int>, stores: seq<Store>, lists: seq<seq<Id>>, n: nat, i: nat)
    requires IsRun(w, days, stores, lists) && OneDay(days, today) && i < |stores| && Valid(stores[0])
    requires AllWithin(w, stores[0], today, n) && |RiskSet(w, stores[0], today)| < QUERY_LIMIT
    requires i >= n + TotalWork(w, stores[0], today) / (QUERY_LIMIT - |RiskSet(w, stores[0], today)|)
    ensures DueSet(stores[i], today) == StuckSet(w, stores[i], today)
  {
    var b := RunDrains(w, today, days, stores, lists, n, i);
    hide *;
    DrainedOut(w, stores[0], stores[i], today, n, i, b);
  }

  /** When that many passes are over, there is no room for a pending budget. */
  lemma DrainedOut(w: World, first: Store, s: Store, today: int, n: nat, i: nat, b: nat)
    requires Valid(s) && Drained(w, first, s, today, n, i, b) && |RiskSet(w, first, today)| < QUERY_LIMIT
    requires i >= n + TotalWork(w, first, today) / (QUERY_LIMIT - |RiskSet(w, first, today)|)
    ensures DueSet(s, today) == StuckSet(w, s, today)
  {
    hide Valid, AllWithin, TotalWork, StuckSet, RiskSet, DueSet, PendingSet;
    if x :| x in PendingSet(w, s, today) {
      PendingCosts(w, s, today, x, n - (i - b));
      NotYetDrained(TotalWork(w, first, today), TotalWork(w, s, today),
                    QUERY_LIMIT - |RiskSet(w, first, today)|, b, n, i);
      assert false;
    }
    OnlyStuckDue(w, s, today);
  }

  /** A pending budget needs a round, and adds to the work. */
  lemma PendingCosts(w: World, s: Store, today: int, x: Id, n: int)
    requires Valid(s) && x in PendingSet(w, s, today) && AllWithin(w, s, today, n)
    ensures n >= 1 && TotalWork(w, s, today) >= 1
  {
    hide Rounds, IsPending;
    PendingHasRounds(w, s, today, x);
    NoWorkLeft(w, s, today, x, s.next);
  }

  lemma OnlyStuckDue(w: World, s: Store, today: int)
    requires PendingSet(w, s, today) == {}
    ensures DueSet(s, today) == StuckSet(w, s, today)
  {
    hide IsDue, CategoryUsable, SlotTaken;
    forall x | x in DueSet(s, today) ensures x in StuckSet(w, s, today) {
      assert x !in PendingSet(w, s, today);
    }
  }

  lemma NotYetDrained(work: nat, left: nat, places: int, b: nat, n: nat, i: nat)
    requires places > 0 && left >= 1 && left + b * places <= work && n - (i - b) >= 1
    ensures i < n + work / places
  {
    if b > work / places {
      MoreThanQuotient(work, b, places);
    }
  }

  lemma MoreThanQuotient(work: int, b: nat, places: int)
    requires places > 0 && work >= 0 && b >= work / places + 1
    ensures b * places > work
  {
    var q := work / places;
    assert work < (q + 1) * places;
    assert b * places >= (q + 1) * places;
  }


  // ---------------------------------------------------------------- how many passes it takes at least

  /** Budget x can be renewed, alone in its group, and it and its followers are to be on the list n times. */
  ghost predicate RenewsFor(w: World, s: Store, today: int, x: Id, n: int) {
    && x in DueSet(s, today) && s.rows[x].period != Custom && CategoryUsable(w, s.rows[x]) && Sole(s, today, x)
    && Rounds(w, s, today, x) == n && n > 0
  }

  /** The catch-up of another due budget changes nothing for it. */
  lemma OtherKeeps(w: World, s: Store, today: int, z: Id, r: Store, x: Id, n: int)
    requires z in DueSet(s, today) && z != x && Caught(w, s, today, z, r) && RenewsFor(w, s, today, x, n)
    ensures RenewsFor(w, r, today, x, n)
  {
    var b := s.rows[x];
    assert NewElsewhere(s, r, b) by {
      hide Rounds, IsDue, CategoryUsable, CaughtRow, Replaces;
    }
    assert Sole(r, today, x) by {
      hide Rounds, IsDue, CategoryUsable, CaughtRow, IsStuck;
    }
    RowIsThere(s, r, x);
    FreeSame(s, r, b, BehindOf(b, today));
    PendingIffReaches(w, s, today, x);
    PendingIffReaches(w, r, today, x);
    hide CategoryUsable, CaughtRow, Replaces, IsStuck, FreeCycles, Behind, Extends, NewIn, Sole, NewElsewhere;
    assert r.rows[x] == b;
  }

  lemma FarFromDone(w: World, s: Store, today: int, x: Id, n: int)
    requires RenewsFor(w, s, today, x, n) && n > 1
    ensures x in s.rows && s.rows[x].period != Custom && CategoryUsable(w, s.rows[x])
    ensures IsPending(w, s, today, x) && Reach(s, today, x) > 3
  {
    hide Reach;
    PendingHasRounds(w, s, today, x);
  }

  lemma ThreeFollow(w: World, s: Store, today: int, x: Id, r: Store)
    requires Valid(s) && x in s.rows && IsPending(w, s, today, x) && CategoryUsable(w, s.rows[x])
    requires s.rows[x].period != Custom && Reach(s, today, x) > 3
    requires r == CatchUp(w, s, today, x, MAX_ITERATIONS).0
    ensures HoldsChain(w, s, x, 3, r)
  {
    hide HoldsChain, Reach, IsPending, Valid, CategoryUsable, CatchUp;
    RenewedIs(w, s, today, x);
  }

  lemma FollowerRenewsFor(w: World, s: Store, today: int, x: Id, n: int, r: Store)
    requires Valid(s) && RenewsFor(w, s, today, x, n) && n > 1
    requires IsPending(w, s, today, x) && Reach(s, today, x) > 3 && HoldsChain(w, s, x, 3, r)
    ensures RenewsFor(w, r, today, s.next + 2, n - 1) && s.next + 2 !in s.rows
  {
    hide HoldsChain, Reach, IsPending, Valid, CategoryUsable, Sole, Rounds, IsDue;
    assert x in DueSet(s, today) && Sole(s, today, x);
    FollowerIs(w, s, today, x, 3, r);
  }

  /** Its own catch-up leaves a budget that needs one round less. */
  lemma SelfGoesOn(w: World, s: Store, today: int, x: Id, n: int) returns (t: Id)
    requires Valid(s) && RenewsFor(w, s, today, x, n) && n > 1
    ensures RenewsFor(w, CatchUp(w, s, today, x, MAX_ITERATIONS).0, today, t, n - 1) && t !in s.rows
  {
    hide *;
    t := s.next + 2;
    FarFromDone(w, s, today, x, n);
    ThreeFollow(w, s, today, x, CatchUp(w, s, today, x, MAX_ITERATIONS).0);
    FollowerRenewsFor(w, s, today, x, n, CatchUp(w, s, today, x, MAX_ITERATIONS).0);
  }

  lemma FollowerIs(w: World, s: Store, today: int, x: Id, n: nat, r: Store)
    requires Valid(s) && x in s.rows && IsPending(w, s, today, x) && CategoryUsable(w, s.rows[x])
    requires s.rows[x].period != Custom && n == 3 < Reach(s, today, x) && HoldsChain(w, s, x, n, r)
    requires Sole(s, today, x)
    ensures var t := s.next + n - 1;
      && t !in s.rows && t in DueSet(r, today) && r.rows[t].period != Custom && CategoryUsable(w, r.rows[t])
      && Sole(r, today, t) && Rounds(w, r, today, t) == Rounds(w, s, today, x) - 1
  {
    hide HoldsChain, Behind, CategoryUsable, Reach, Descendant, Valid, IsDue, IsStuck;
    var t := s.next + n - 1;
    assert x in DueSet(s, today);
    ReachIsBehind(s, today, x);
    ChainTail(w, s, today, x, n, r);
    TailReaches(w, s, today, x, n, r);
    TailRounds(w, s, today, x, n, r);
    ChainRow(w, s, x, n, r, t);
    forall z | z in DueSet(r, today) && z != t
      ensures r.rows[t].recurrenceGroupId.None? || r.rows[z].recurrenceGroupId != r.rows[t].recurrenceGroupId
    {
      ChainDue(w, s, today, x, n, r);
      ChainRow(w, s, x, n, r, z);
    }
  }

  lemma ReachIsBehind(s: Store, today: int, x: Id)
    requires x in s.rows && s.rows[x].period != Custom
    ensures Reach(s, today, x) <= BehindOf(s.rows[x], today)
  {
  }

  /** A pass leaves a chain alone, or leaves a budget of it that needs one round less. */
  lemma {:induction false} ChainGoesOn(w: World, s: Store, today: int, due: seq<Id>, x: Id, n: int) returns (y: Id)
    requires Valid(s) && AllIn(due, s.rows) && AllDue(due, s, today) && NoRepeats(due)
    requires RenewsFor(w, s, today, x, n) && n > 1
    ensures var r := RenewAll(w, s, today, due).0;
      if x in due then y !in s.rows && RenewsFor(w, r, today, y, n - 1) else y == x && RenewsFor(w, r, today, x, n)
    decreases |due|
  {
    hide CatchUp, RenewsFor, Valid, IsDue, PassedDue, PassedWork;
    if due == [] {
      y := x;
      EmptyPass(w, s, today);
    } else {
      hide RenewAll;
      var before, z := due[..|due| - 1], due[|due| - 1];
      assert due == before + [z] && z !in before;
      y := ChainGoesOn(w, s, today, before, x, n);
      PassProgress(w, s, today, before);
      LastOfPass(w, s, today, due);
      var s1 := RenewAll(w, s, today, before).0;
      StillDue(w, s, today, before, s1, z);
      if z == x {
        y := SelfGoesOn(w, s1, today, x, n);
        NotBefore(s, s1, y);
      } else {
        CatchUpCatches(w, s1, today, z);
        OtherKeeps(w, s1, today, z, CatchUp(w, s1, today, z, MAX_ITERATIONS).0, y, if x in before then n - 1 else n);
      }
    }
  }

  lemma NotBefore(s: Store, r: Store, y: Id)
    requires Extends(s, r) && y !in r.rows
    ensures y !in s.rows
  {
  }

  /** After i passes, some budget of a chain that took n > i rounds still takes n - i or more. */
  lemma {:induction false} StillBehind(w: World, today: int, days: seq<int>, stores: seq<Store>, lists: seq<seq<Id>>,
                                       x: Id, n: nat, i: nat) returns (y: Id, m: nat)
    requires IsRun(w, days, stores, lists) && OneDay(days, today) && Valid(stores[0])
    requires RenewsFor(w, stores[0], today, x, n) && i < |stores| && i < n
    ensures Valid(stores[i]) && m >= n - i && RenewsFor(w, stores[i], today, y, m)
    decreases i
  {
    hide RenewAll, Valid, IsPass, RenewsFor, PassedRows, PassedDue, PassedWork, AllDue, AllIn;
    y, m := x, n;
    if i > 0 {
      y, m := StillBehind(w, today, days, stores, lists, x, n, i - 1);
      var s, due := stores[i - 1], lists[i - 1];
      assert IsPass(w, days[i - 1], s, due, stores[i]);
      PassIsPassed(w, today, s, due, stores[i]);
      PassIs(w, today, s, due, stores[i]);
      var z := ChainGoesOn(w, s, today, due, y, m);
      m := if y in due then m - 1 else m;
      y := z;
    }
  }

  lemma PassIs(w: World, today: int, s: Store, due: seq<Id>, r: Store)
    requires IsPass(w, today, s, due, r)
    ensures AllIn(due, s.rows) && r == RenewAll(w, s, today, due).0
  {
  }

  lemma {:induction false} FullListsDrain(w: World, today: int, days: seq<int>, stores: seq<Store>, lists: seq<seq<Id>>,
                                          n: nat, i: nat)
    requires IsRun(w, days, stores, lists) && OneDay(days, today) && i < |stores| && Valid(stores[0])
    requires AllWithin(w, stores[0], today, n) && |DueSet(stores[0], today)| <= QUERY_LIMIT
    ensures Valid(stores[i]) && AllWithin(w, stores[i], today, n - i) && |DueSet(stores[i], today)| <= QUERY_LIMIT
    decreases i
  {
    hide RenewAll, Valid, AllWithin, IsPass, PassedRows, PassedDue, PassedWork, DueSet;
    if i > 0 {
      FullListsDrain(w, today, days, stores, lists, n, i - 1);
      var s, due, r := stores[i - 1], lists[i - 1], stores[i];
      PassIsPassed(w, today, s, due, r);
      FullListWorks(w, today, s, due, r, n - (i - 1));
      PassBounds(w, today, s, due, r);
    }
  }

  /**
   With at most fifty due budgets, stuck ones included, repeated passes on one day are done exactly
   when they are as many as a third of the longest way k that a chain has to go, rounded up.
   */
  lemma CatchUpRounds(w: World, today: int, days: seq<int>, stores: seq<Store>, lists: seq<seq<Id>>,
                      x: Id, k: nat, i: nat)
    requires IsRun(w, days, stores, lists) && OneDay(days, today) && i < |stores| && Valid(stores[0])
    requires |DueSet(stores[0], today)| <= QUERY_LIMIT
    requires x in PendingSet(w, stores[0], today) && CategoryUsable(w, stores[0].rows[x]) && Sole(stores[0], today, x)
    requires stores[0].rows[x].period != Custom && Reach(stores[0], today, x) == k
    requires AllWithin(w, stores[0], today, (k + 2) / 3)
    ensures PendingSet(w, stores[i], today) == {} <==> 3 * i >= k
  {
    hide RenewAll, Valid, Reach, IsPass, IsDue, IsStuck, CategoryUsable, Sole;
    var n := (k + 2) / 3;
    FullListsDrain(w, today, days, stores, lists, n, i);
    if i < n {
      PendingHasRounds(w, stores[0], today, x);
      assert RenewsFor(w, stores[0], today, x, n);
      var y, m := StillBehind(w, today, days, stores, lists, x, n, i);
      PendingHasRounds(w, stores[i], today, y);
      assert y in PendingSet(w, stores[i], today);
    } else {
      forall y | y in PendingSet(w, stores[i], today) ensures false {
        PendingHasRounds(w, stores[i], today, y);
      }
    }
  }

  // ---------------------------------------------------------------- tables in which no date was moved

  /**
   There no budget of a regular period is at risk: every cycle that it is behind is free, and no
   other due budget is in its group.
   */
  lemma UndisturbedIsSafe(w: World, s: Store, today: int, x: Id)
    requires Valid(s) && OneTail(s.rows) && x in DueSet(s, today)
    ensures AtRisk(w, s, today, x) <==> s.rows[x].period == Custom && CategoryUsable(w, s.rows[x])
    ensures s.rows[x].period != Custom ==> Sole(s, today, x) && Reach(s, today, x) == BehindOf(s.rows[x], today)
  {
    hide Behind, CategoryUsable, FreeCycles;
    if s.rows[x].period != Custom {
      TailIsFree(s, x, BehindOf(s.rows[x], today));
    }
  }

  // ---------------------------------------------------------------- passes that change nothing

  /** What never goes back: rows stay, a renewed one stays renewed, and renewal that is off stays off. */
  ghost predicate Onward(s: Store, r: Store) {
    forall x :: x in s.rows ==>
      x in r.rows && (s.rows[x].renewed ==> r.rows[x].renewed) && (r.rows[x].autoRenew ==> s.rows[x].autoRenew)
  }

  ghost predicate IdsBelow(s: Store) {
    forall x :: x in s.rows ==> x < s.next
  }

  lemma RenewOnward(w: World, s: Store, x: Id)
    requires x in s.rows && IdsBelow(s)
    ensures var (s1, outcome) := TryRenew(w, s, x);
      && Onward(s, s1) && IdsBelow(s1)
      && (outcome.Renewed? ==> outcome.child in s1.rows)
  {
    hide NextStart, Carry, Successor, SlotTaken, CategoryUsable;
  }

  lemma OnwardFromStart(s: Store)
    ensures Onward(s, s)
  {
  }

  lemma OnwardOn(s: Store, s1: Store, r: Store)
    requires Onward(s, s1) && Onward(s1, r)
    ensures Onward(s, r)
  {
  }

  lemma CatchUpUnfolds(w: World, s: Store, today: int, x: Id, left: nat)
    requires x in s.rows && IdsBelow(s)
    ensures var (s1, outcome) := TryRenew(w, s, x);
      var r := CatchUp(w, s, today, x, left).0;
      if left == 0 || StopsAt(s.rows[x], today) then r == s
      else if outcome.Renewed? then outcome.child in s1.rows && r == CatchUp(w, s1, today, outcome.child, left - 1).0
      else r == s1
  {
    RenewOnward(w, s, x);
    hide TryRenew;
  }

  lemma {:induction false} CatchUpOnward(w: World, s: Store, today: int, x: Id, left: nat)
    requires x in s.rows && IdsBelow(s)
    ensures var r := CatchUp(w, s, today, x, left).0; Onward(s, r) && IdsBelow(r)
    decreases left
  {
    hide TryRenew, Onward, IdsBelow, StopsAt, CatchUp;
    RenewOnward(w, s, x);
    OnwardFromStart(s);
    CatchUpUnfolds(w, s, today, x, left);
    var (s1, outcome) := TryRenew(w, s, x);
    if left > 0 && !StopsAt(s.rows[x], today) && outcome.Renewed? {
      CatchUpOnward(w, s1, today, outcome.child, left - 1);
      OnwardOn(s, s1, CatchUp(w, s1, today, outcome.child, left - 1).0);
    }
  }

  lemma {:induction false} PassOnward(w: World, s: Store, today: int, due: seq<Id>)
    requires AllIn(due, s.rows) && IdsBelow(s)
    ensures var r := RenewAll(w, s, today, due).0; Onward(s, r) && IdsBelow(r)
    decreases |due|
  {
    hide CatchUp;
    if due != [] {
      PassOnward(w, s, today, due[..|due| - 1]);
      var s1 := RenewAll(w, s, today, due[..|due| - 1]).0;
      LastOfPass(w, s, today, due);
      CatchUpOnward(w, s1, today, due[|due| - 1], MAX_ITERATIONS);
    }
  }

  /** Budget x was renewed, or its renewal was turned off. */
  predicate FlagMoved(s: Store, r: Store, x: Id) {
    x in s.rows && x in r.rows
    && ((!s.rows[x].renewed && r.rows[x].renewed) || (s.rows[x].autoRenew && !r.rows[x].autoRenew))
  }

  /** The catch-up of a due budget either fails, and changes nothing, or moves a flag of that budget. */
  lemma CatchUpMoves(w: World, s: Store, today: int, x: Id)
    requires Valid(s) && x in DueSet(s, today)
    ensures var r := CatchUp(w, s, today, x, MAX_ITERATIONS).0;
      if TryRenew(w, s, x).1 == Failed then r == s else FlagMoved(s, r, x)
  {
    hide NextStart, Carry, Successor;
    UntilNeverStops(s.rows[x], today);
    var (s1, outcome) := TryRenew(w, s, x);
    if outcome.Renewed? {
      assert s1.rows[x].renewed;
      CatchUpOnward(w, s1, today, outcome.child, MAX_ITERATIONS - 1);
    }
  }

  ghost predicate AllFail(w: World, s: Store, due: seq<Id>)
    requires AllIn(due, s.rows)
  {
    forall i :: 0 <= i < |due| ==> TryRenew(w, s, due[i]).1 == Failed
  }

  ghost predicate SomeFlagMoved(s: Store, r: Store, due: seq<Id>) {
    exists i :: 0 <= i < |due| && FlagMoved(s, r, due[i])
  }

  lemma {:induction false} PassMoves(w: World, s: Store, today: int, due: seq<Id>)
    requires Valid(s) && AllIn(due, s.rows) && AllDue(due, s, today)
    ensures var r := RenewAll(w, s, today, due).0;
      if AllFail(w, s, due) then r == s else SomeFlagMoved(s, r, due)
    decreases |due|
  {
    hide CatchUp, TryRenew, RenewAll, IsDue;
    if due == [] {
      EmptyPass(w, s, today);
    } else {
      var before, x := due[..|due| - 1], due[|due| - 1];
      var s1, r := RenewAll(w, s, today, before).0, RenewAll(w, s, today, due).0;
      PassMoves(w, s, today, before);
      PassOnward(w, s, today, before);
      LastOfPass(w, s, today, due);
      if AllFail(w, s, before) {
        CatchUpMoves(w, s, today, x);
        assert due[|due| - 1] == x;
      } else {
        var i :| 0 <= i < |before| && FlagMoved(s, s1, before[i]);
        CatchUpOnward(w, s1, today, x, MAX_ITERATIONS);
        assert FlagMoved(s, r, due[i]);
        var j :| 0 <= j < |before| && TryRenew(w, s, before[j]).1 != Failed;
        assert TryRenew(w, s, due[j]).1 != Failed;
      }
    }
  }

  /** A pass changes nothing exactly when every budget on the list is stuck, whatever the table holds. */
  lemma IdlePassIff(w: World, today: int, s: Store, due: seq<Id>, r: Store)
    requires Valid(s) && IsPass(w, today, s, due, r)
    ensures r == s <==> forall i :: 0 <= i < |due| ==> IsStuck(w, s, today, due[i])
  {
    PassMoves(w, s, today, due);
    forall i | 0 <= i < |due| ensures TryRenew(w, s, due[i]).1 == Failed <==> IsStuck(w, s, today, due[i]) {
      FailsIffStuck(w, s, today, due[i]);
    }
    NotMoved(s, due);
    hide RenewAll, TryRenew, IsStuck, Valid, DueSet;
  }

  lemma NotMoved(s: Store, due: seq<Id>)
    ensures !SomeFlagMoved(s, s, due)
  {
  }

  /** A pass leaves a stuck budget alone, on the list or not. */
  lemma PassLeavesStuck(w: World, today: int, s: Store, due: seq<Id>, r: Store, x: Id)
    requires Valid(s) && IsPass(w, today, s, due, r) && x in s.rows && IsStuck(w, s, today, x)
    ensures x in r.rows && r.rows[x] == s.rows[x] && IsStuck(w, r, today, x)
  {
    PassIsPassed(w, today, s, due, r);
    StuckRow(w, s, today, due, r, x);
    hide RenewAll, Valid, PassedDue, PassedWork, IsStuck;
    RowIsThere(s, r, x);
    RowLeftAlone(w, s, r, today, x);
  }

  lemma StuckRow(w: World, s: Store, today: int, due: seq<Id>, r: Store, x: Id)
    requires AllDue(due, s, today) && PassedRows(w, s, today, due, r) && x in s.rows && IsStuck(w, s, today, x)
    ensures x in r.rows && r.rows[x] == s.rows[x]
  {
    var b := s.rows[x];
    hide NextStart, Carry, Behind, FreeCycles, CycleStart;
    if x in due {
      var i :| 0 <= i < |due| && due[i] == x;
      assert Handled(w, s, today, due[i], r);
      if b.period != Custom {
        var n: nat, next: Id :| Follows(w, s, today, x, n, next, r);
        FirstCycle(s.rows, b);
        FreeCyclesIs(s.rows, b, Count(b, today, MAX_ITERATIONS));
        assert n == 0;
        assert HoldsLink(w, Store(s.rows, next), x, 0, r, 0);
        DescendantZero(w, x, b, next);
      }
    }
  }

  /** A budget that is stuck without an end to its renewal stays stuck and due, on that day and all later ones. */
  lemma {:induction false} StuckForEver(w: World, today: int, days: seq<int>, stores: seq<Store>, lists: seq<seq<Id>>,
                                        x: Id, i: nat)
    requires IsRun(w, days, stores, lists) && i < |stores| && Valid(stores[0])
    requires forall j :: 0 <= j < |days| ==> days[j] >= today
    requires x in StuckSet(w, stores[0], today) && stores[0].rows[x].autoRenewUntil.None?
    ensures Valid(stores[i]) && x in StuckSet(w, stores[i], today) && stores[i].rows[x] == stores[0].rows[x]
    decreases i
  {
    hide RenewAll, Valid, IsStuck, IsPass;
    if i > 0 {
      StuckForEver(w, today, days, stores, lists, x, i - 1);
      var s, day, due, r := stores[i - 1], days[i - 1], lists[i - 1], stores[i];
      assert IsPass(w, day, s, due, r);
      StuckLater(w, s, today, x, day);
      PassIsPassed(w, day, s, due, r);
      PassLeavesStuck(w, day, s, due, r, x);
      StuckEarlier(w, s, r, today, x, day);
    }
  }

  lemma StuckLater(w: World, s: Store, today: int, x: Id, day: int)
    requires x in s.rows && IsStuck(w, s, today, x) && s.rows[x].autoRenewUntil.None? && day >= today
    ensures IsStuck(w, s, day, x)
  {
    hide SlotTaken, CategoryUsable;
  }

  lemma StuckEarlier(w: World, s: Store, r: Store, today: int, x: Id, day: int)
    requires x in s.rows && IsStuck(w, s, today, x) && x in r.rows && r.rows[x] == s.rows[x] && IsStuck(w, r, day, x)
    ensures IsStuck(w, r, today, x)
  {
    hide SlotTaken, CategoryUsable;
  }

  // ---------------------------------------------------------------- a date that was moved

  /** The update of a budget of a regular period that sets its first day: the last day follows. */
  function MoveStart(s: Store, x: Id, start: int): Store
    requires x in s.rows && s.rows[x].period != Custom
  {
    Store(s.rows[x := s.rows[x].(startDate := start, endDate := NextStart(s.rows[x].period, start) - 1)], s.next)
  }

  /** A weekly series: a week that was renewed, and the open week after it. */
  function Series(): Store {
    var week :=
      Budget(0, None, None, "VND", Weekly, 7, 13, 100, 0, Reset, false, true, true, None, Some(0), true, None);
    Store(map[0 := week, 1 := week.(startDate := 14, endDate := 20, renewed := false, parentBudgetId := Some(0))], 2)
  }

  /**
   When its open week is moved before the renewed one, the slot after it is taken: a series that
   renewal went on with before is stuck for ever.
   */
  lemma MovedStartSticks(w: World, today: int, days: seq<int>, stores: seq<Store>, lists: seq<seq<Id>>, i: nat)
    requires IsRun(w, days, stores, lists) && i < |stores| && stores[0] == MoveStart(Series(), 1, 0)
    requires today > 20 && forall j :: 0 <= j < |days| ==> days[j] >= today
    ensures Valid(Series()) && OneTail(Series().rows) && 1 in PendingSet(w, Series(), today)
    ensures Valid(stores[0]) && 1 in StuckSet(w, stores[i], today) && stores[i].rows[1] == stores[0].rows[1]
  {
    SeriesFacts(w, today);
    hide *;
    StuckForEver(w, today, days, stores, lists, 1, i);
  }

  lemma SeriesFacts(w: World, today: int)
    requires today > 20
    ensures Valid(Series()) && OneTail(Series().rows) && 1 in PendingSet(w, Series(), today)
    ensures var s := MoveStart(Series(), 1, 0);
      Valid(s) && 1 in StuckSet(w, s, today) && s.rows[1].autoRenewUntil.None?
  {
    assert NextStart(Weekly, 0) == 7;
    hide NextStart;
    var s, s1 := Series(), MoveStart(Series(), 1, 0);
    assert s1.rows[0].startDate == 7 && s1.rows[0].recurrenceGroupId == s1.rows[1].recurrenceGroupId == Some(0);
    assert SlotTaken(s1.rows, Some(0), 7);
    assert !SlotTaken(s.rows, Some(0), 21);
  }

  // ---------------------------------------------------------------- starvation

  /**
   The budgets in e fill the list: fifty or more that are stuck without an end, and every pending
   budget ended later than each of them.
   */
  ghost predicate FillList(w: World, s: Store, today: int, e: set<Id>) {
    && |e| >= QUERY_LIMIT
    && (forall x :: x in e ==> x in s.rows && IsStuck(w, s, today, x) && s.rows[x].autoRenewUntil.None?)
    && (forall x, y :: x in PendingSet(w, s, today) && y in e ==> s.rows[y].endDate < s.rows[x].endDate)
  }

  /** They do so on every later day. */
  lemma FillLater(w: World, s: Store, today: int, e: set<Id>, day: int)
    requires FillList(w, s, today, e) && day >= today
    ensures FillList(w, s, day, e)
  {
    hide SlotTaken, CategoryUsable;
    forall x, y | x in PendingSet(w, s, day) && y in e ensures s.rows[y].endDate < s.rows[x].endDate {
      assert IsStuck(w, s, today, y);
      if s.rows[x].endDate < today {
        assert x in PendingSet(w, s, today);
      }
    }
  }

  lemma FilledListIsStuck(w: World, s: Store, today: int, e: set<Id>, due: seq<Id>)
    requires FillList(w, s, today, e) && IsDueList(due, s, today)
    ensures forall i :: 0 <= i < |due| ==> IsStuck(w, s, today, due[i])
  {
    hide SlotTaken, CategoryUsable;
    forall i: nat | i < |due| ensures IsStuck(w, s, today, due[i]) {
      if !IsStuck(w, s, today, due[i]) {
        assert due[i] in PendingSet(w, s, today) && due[i] !in e;
        assert forall y :: y in e ==> y in DueSet(s, today) && y in due;
        ListedBound(due, e, i);
        assert false;
      }
    }
  }

  /** A set of listed elements that leaves one place of the list out is shorter than the list. */
  lemma ListedBound<T>(xs: seq<T>, s: set<T>, i: nat)
    requires i < |xs| && xs[i] !in s && forall y :: y in s ==> y in xs
    ensures |s| < |xs|
  {
    var rest := xs[..i] + xs[i + 1..];
    forall y | y in s ensures y in rest {
      var j :| 0 <= j < |xs| && xs[j] == y;
      assert y == if j < i then rest[j] else rest[j - 1];
    }
    HeldBound(rest, s);
  }

  /**
   Fifty such budgets starve all others: from then on no pass, on that day or any later one, renews
   anything for anybody.
   */
  lemma {:induction false} Starvation(w: World, today: int, days: seq<int>, stores: seq<Store>, lists: seq<seq<Id>>,
                                      e: set<Id>, i: nat)
    requires IsRun(w, days, stores, lists) && i < |stores| && Valid(stores[0]) && FillList(w, stores[0], today, e)
    requires forall j :: 0 <= j < |days| ==> days[j] >= today
    ensures stores[i] == stores[0]
    decreases i
  {
    hide RenewAll, FillList, Valid, IsStuck, DueSet;
    if i > 0 {
      Starvation(w, today, days, stores, lists, e, i - 1);
      var s, day, due := stores[0], days[i - 1], lists[i - 1];
      assert IsPass(w, day, stores[i - 1], due, stores[i]);
      FillLater(w, s, today, e, day);
      FilledListIsStuck(w, s, day, e, due);
      IdlePassIff(w, day, s, due, stores[i]);
    }
  }

  /** An overall budget of the day before the given one, for which renewal was turned on. */
  function OneDayBudget(period: Period, end: int): Budget {
    Budget(0, None, None, "VND", period, end, end, 0, 0, Reset, false, true, true, None, None, false, None)
  }

  function FirstIds(n: nat): (ids: set<Id>)
    ensures |ids| == n && forall x :: x in ids ==> x < n
  {
    if n == 0 then {} else FirstIds(n - 1) + {n - 1}
  }

  /** Budgets of a custom period with the first n ids. */
  function CustomRows(n: nat): (rows: map<Id, Budget>)
    ensures rows.Keys == FirstIds(n)
    ensures forall x :: x in rows ==> rows[x] == OneDayBudget(Custom, 0)
  {
    if n == 0 then map[] else CustomRows(n - 1)[n - 1 := OneDayBudget(Custom, 0)]
  }

  /** As many budgets of a custom period, and a monthly one that ended a day later. */
  function CrowdedTable(n: nat): Store {
    Store(CustomRows(n)[n := OneDayBudget(Monthly, 1)], n + 1)
  }

  lemma CrowdedRows(n: nat)
    ensures var s := CrowdedTable(n);
      && s.next == n + 1 && s.rows.Keys == FirstIds(n) + {n} && s.rows[n] == OneDayBudget(Monthly, 1)
      && forall x :: x in FirstIds(n) ==> s.rows[x] == OneDayBudget(Custom, 0)
  {
    var rows := CustomRows(n);
    hide FirstIds, CustomRows, OneDayBudget;
  }

  lemma CrowdedFills(w: World, s: Store, e: set<Id>, n: nat)
    requires |e| >= QUERY_LIMIT && n !in e && s.rows.Keys == e + {n} && s.next == n + 1
    requires forall x :: x in e ==> x < n && s.rows[x] == OneDayBudget(Custom, 0)
    requires s.rows[n] == OneDayBudget(Monthly, 1)
    ensures Valid(s) && FillList(w, s, 2, e) && n in PendingSet(w, s, 2)
  {
    assert CategoryUsable(w, OneDayBudget(Custom, 0)) && IsDue(OneDayBudget(Custom, 0), 2);
    assert IsDue(OneDayBudget(Monthly, 1), 2);
  }

  /** With fifty of them the monthly budget waits for ever. */
  lemma MonthlyStarves(w: World, n: nat, days: seq<int>, stores: seq<Store>, lists: seq<seq<Id>>, i: nat)
    requires n >= QUERY_LIMIT && IsRun(w, days, stores, lists) && i < |stores| && stores[0] == CrowdedTable(n)
    requires forall j :: 0 <= j < |days| ==> days[j] >= 2
    ensures stores[i] == stores[0] && n in PendingSet(w, stores[i], 2)
  {
    CrowdedRows(n);
    hide IsRun, FirstIds, CrowdedTable, FillList, PendingSet, Valid, OneDayBudget;
    CrowdedFills(w, CrowdedTable(n), FirstIds(n), n);
    Starvation(w, 2, days, stores, lists, FirstIds(n), i);
  }
}
