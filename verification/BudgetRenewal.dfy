/**
 The renewal of due budgets: a bounded catch-up along chains of cycles over the table of budgets.
 Dates are day numbers; `BudgetPeriods.CycleEndsBeforeNext` ties them to the date strings.
 */
module BudgetRenewal {
  import opened Prelude
  import opened BudgetPeriods
  import opened Rollover

  type Id = nat

  datatype Budget = Budget(
    userId: Id, categoryId: Option<Id>, walletId: Option<Id>, currency: string,
    period: Period, startDate: int, endDate: int,
    amount: int, rolloverAmount: int, rolloverMode: RolloverMode,
    isArchived: bool, isRecurring: bool, autoRenew: bool, autoRenewUntil: Option<int>,
    recurrenceGroupId: Option<Id>, renewed: bool, parentBudgetId: Option<Id>)

  /** What renewal asks of the rest of the database; neither changes during a pass. */
  datatype World = World(
    categoryActive: (Id, Id) -> bool,                       // user, category
    spent: (Id, Option<Id>, int, int, string) -> int)       // user, category, first day, last day, currency

  /** The table of budgets, and the id of the next row. */
  datatype Store = Store(rows: map<Id, Budget>, next: Id)

  ghost predicate Valid(s: Store) {
    && (forall x :: x in s.rows ==> x < s.next)
    && (forall x :: x in s.rows ==> s.rows[x].startDate <= s.rows[x].endDate)
  }

  // ---------------------------------------------------------------- one renewal

  function Spending(w: World, b: Budget): int {
    w.spent(b.userId, b.categoryId, b.startDate, b.endDate, b.currency)
  }

  /** The row that renewBudgetTransaction inserts for the cycle after b. The wallet is not carried over. */
  function Successor(w: World, id: Id, b: Budget): Budget
    requires b.period != Custom
  {
    var start := b.endDate + 1;
    var carried := Carry(b.rolloverMode, b.amount, Spending(w, b));
    Budget(b.userId, b.categoryId, None, b.currency,
           b.period, start, NextStart(b.period, start) - 1,
           carried.amount, carried.rollover, b.rolloverMode,
           false, true, true, b.autoRenewUntil,
           b.recurrenceGroupId, false, Some(id))
  }

  datatype Outcome = Renewed(child: Id) | Suspended | Failed

  predicate CategoryUsable(w: World, b: Budget) {
    b.categoryId.None? || w.categoryActive(b.userId, b.categoryId.value)
  }

  /** The unique constraint on group and start date. */
  predicate SlotTaken(rows: map<Id, Budget>, group: Option<Id>, start: int) {
    group.Some? && exists x :: x in rows && rows[x].recurrenceGroupId == group && rows[x].startDate == start
  }

  function Advance(w: World, s: Store, id: Id): (r: Store)
    requires id in s.rows && s.rows[id].period != Custom
    ensures r.next == s.next + 1 && s.next in r.rows && r.rows[s.next].period == s.rows[id].period
  {
    var b := s.rows[id];
    Store(s.rows[id := b.(renewed := true)][s.next := Successor(w, id, b)], s.next + 1)
  }

  /** renewSingleBudget. A failure is an exception that the caller catches. */
  function TryRenew(w: World, s: Store, id: Id): (Store, Outcome)
    requires id in s.rows
  {
    var b := s.rows[id];
    if !CategoryUsable(w, b) then (Store(s.rows[id := b.(autoRenew := false)], s.next), Suspended)
    else if b.period == Custom then (s, Failed)
    else if SlotTaken(s.rows, b.recurrenceGroupId, b.endDate + 1) then (s, Failed)
    else (Advance(w, s, id), Renewed(s.next))
  }

  // ---------------------------------------------------------------- the catch-up loop

  const MAX_ITERATIONS: nat := 3
  const QUERY_LIMIT := 50

  predicate StopsAt(b: Budget, today: int) {
    b.endDate >= today || (b.autoRenewUntil.Some? && b.endDate + 1 > b.autoRenewUntil.value)
  }

  /** The inner loop from budget id on, with the given number of iterations left; the ids it creates. */
  function CatchUp(w: World, s: Store, today: int, id: Id, left: nat): (Store, seq<Id>)
    requires id in s.rows
    decreases left
  {
    if left == 0 || StopsAt(s.rows[id], today) then (s, [])
    else
      var (s1, outcome) := TryRenew(w, s, id);
      match outcome
      case Renewed(child) =>
        var (s2, created) := CatchUp(w, s1, today, child, left - 1);
        (s2, [child] + created)
      case _ => (s1, [])
  }

  lemma {:induction false} CatchUpKeepsRows(w: World, s: Store, today: int, id: Id, left: nat)
    requires id in s.rows
    ensures s.rows.Keys <= CatchUp(w, s, today, id, left).0.rows.Keys
    decreases left
  {
    hide NextStart, Carry;
    if left > 0 && !StopsAt(s.rows[id], today) {
      var (s1, outcome) := TryRenew(w, s, id);
      if outcome.Renewed? {
        CatchUpKeepsRows(w, s1, today, outcome.child, left - 1);
      }
    }
  }

  predicate AllIn(due: seq<Id>, rows: map<Id, Budget>) {
    forall i :: 0 <= i < |due| ==> due[i] in rows
  }

  /** processDueRenewals over the given list of due budgets: the store, and how many budgets were created. */
  function RenewAll(w: World, s: Store, today: int, due: seq<Id>): (r: (Store, nat))
    requires AllIn(due, s.rows)
    ensures s.rows.Keys <= r.0.rows.Keys
    decreases |due|
  {
    if due == [] then (s, 0)
    else
      var last := due[|due| - 1];
      var (s1, n) := RenewAll(w, s, today, due[..|due| - 1]);
      CatchUpKeepsRows(w, s1, today, last, MAX_ITERATIONS);
      var (s2, created) := CatchUp(w, s1, today, last, MAX_ITERATIONS);
      (s2, n + |created|)
  }

  /** The condition of findDueForRenewal. */
  predicate IsDue(b: Budget, today: int) {
    && b.isRecurring && b.autoRenew && !b.isArchived && b.endDate < today && !b.renewed
    && (b.autoRenewUntil.None? || b.autoRenewUntil.value >= today)
  }

  function DueSet(s: Store, today: int): set<Id> {
    set x | x in s.rows && IsDue(s.rows[x], today)
  }

  /** What the query returns: due budgets without repetition, the earliest ended first, at most fifty of them. */
  ghost predicate IsDueList(due: seq<Id>, s: Store, today: int) {
    && (forall i :: 0 <= i < |due| ==> due[i] in DueSet(s, today))
    && (forall i, j :: 0 <= i < j < |due| ==> due[i] != due[j] && s.rows[due[i]].endDate <= s.rows[due[j]].endDate)
    && |due| == Min(QUERY_LIMIT, |DueSet(s, today)|)
    && (forall x, i :: x in DueSet(s, today) && x !in due && 0 <= i < |due| ==>
          s.rows[due[i]].endDate <= s.rows[x].endDate)
  }

  // ---------------------------------------------------------------- the store in place

  class BudgetService {
    const world: World
    var rows: map<Id, Budget>
    var next: Id

    constructor (world: World, rows: map<Id, Budget>, next: Id)
      ensures this.world == world && this.rows == rows && this.next == next
    {
      this.world, this.rows, this.next := world, rows, next;
    }

    ghost function State(): Store
      reads this
    {
      Store(rows, next)
    }

    method RenewSingleBudget(parent: Id) returns (outcome: Outcome)
      requires parent in rows
      modifies this
      ensures (State(), outcome) == TryRenew(world, old(State()), parent)
    {
      hide NextStart, Carry;
      var b := rows[parent];
      if b.categoryId.Some? && !world.categoryActive(b.userId, b.categoryId.value) {
        rows := rows[parent := b.(autoRenew := false)];
        return Suspended;
      }
      if b.period == Custom {
        return Failed;
      }
      if b.recurrenceGroupId.Some?
         && exists x | x in rows ::
              rows[x].recurrenceGroupId == b.recurrenceGroupId && rows[x].startDate == b.endDate + 1 {
        return Failed;
      }
      outcome := Renewed(next);
      rows := rows[parent := b.(renewed := true)][next := Successor(world, parent, b)];
      next := next + 1;
    }

    /** The inner loop of processDueRenewals, which catchUpDueBudgetsForUser repeats. */
    method CatchUpFrom(today: int, budget: Id) returns (created: nat)
      requires budget in rows
      modifies this
      ensures State() == CatchUp(world, old(State()), today, budget, MAX_ITERATIONS).0
      ensures created == |CatchUp(world, old(State()), today, budget, MAX_ITERATIONS).1|
    {
      hide NextStart, Carry;
      ghost var whole := CatchUp(world, State(), today, budget, MAX_ITERATIONS);
      var currentParent, iteration := budget, 0;
      created := 0;
      while iteration < MAX_ITERATIONS
        invariant 0 <= iteration <= MAX_ITERATIONS && currentParent in rows
        invariant whole.0 == CatchUp(world, State(), today, currentParent, MAX_ITERATIONS - iteration).0
        invariant |whole.1| == created + |CatchUp(world, State(), today, currentParent, MAX_ITERATIONS - iteration).1|
      {
        var parent := rows[currentParent];
        if parent.endDate >= today {
          return;
        }
        if parent.autoRenewUntil.Some? && parent.endDate + 1 > parent.autoRenewUntil.value {
          return;
        }
        iteration := iteration + 1;
        var outcome := RenewSingleBudget(currentParent);
        if !outcome.Renewed? {
          return;
        }
        created := created + 1;
        currentParent := outcome.child;
      }
    }

    method ProcessDueRenewals(today: int, due: seq<Id>) returns (renewedCount: nat)
      requires AllIn(due, rows)
      modifies this
      ensures (State(), renewedCount) == RenewAll(world, old(State()), today, due)
    {
      hide NextStart, Carry, CatchUp;
      renewedCount := 0;
      ghost var s0 := State();
      for i := 0 to |due|
        invariant AllIn(due[..i], s0.rows)
        invariant (State(), renewedCount) == RenewAll(world, s0, today, due[..i])
        invariant s0.rows.Keys <= rows.Keys
      {
        assert due[..i + 1][..i] == due[..i];
        CatchUpKeepsRows(world, State(), today, due[i], MAX_ITERATIONS);
        var created := CatchUpFrom(today, due[i]);
        renewedCount := renewedCount + created;
      }
      assert due[..|due|] == due;
    }
  }
}
