/**
 The dates of budget cycles: where a cycle ends, how the starts of successive cycles move
 through months of different length, and why the cycles tile the calendar.
 */
module BudgetPeriods {
  import opened Prelude
  import opened Calendar
  import opened Digits
  import opened BusinessTime

  datatype Period = Weekly | Monthly | Yearly | Custom

  datatype EndDateError = EndDateRequired | EndBeforeStart | DateFailure(e: DateError)

  function LastDayBefore(next: Result<string, DateError>): Result<string, EndDateError> {
    match next
    case Err(e) => Err(DateFailure(e))
    case Ok(s) =>
      match AddDays(s, -1)
      case Err(e) => Err(DateFailure(e))
      case Ok(t) => Ok(t)
  }

  function PlannedEnd(period: Period, start: string, customEnd: Option<string>): Result<string, EndDateError> {
    match period
    case Weekly =>
      (match AddDays(start, 6) case Err(e) => Err(DateFailure(e)) case Ok(t) => Ok(t))
    case Monthly => LastDayBefore(AddMonthsClamped(start, 1))
    case Yearly => LastDayBefore(AddMonthsClamped(start, 12))
    case Custom => if customEnd.None? then Err(EndDateRequired) else Ok(customEnd.value)
  }

  /** resolveEndDate. */
  function ResolveEndDate(period: Period, start: string, customEnd: Option<string>): Result<string, EndDateError> {
    match PlannedEnd(period, start, customEnd)
    case Err(e) => Err(e)
    case Ok(end) => if StringLess(end, start) then Err(EndBeforeStart) else Ok(end)
  }

  // ---------------------------------------------------------------- cycles as day numbers

  /** The first day of the cycle after the one that starts on the given day. */
  function NextStart(period: Period, start: int): (r: int)
    requires period != Custom
  {
    match period
    case Weekly => start + 7
    case Monthly => DayNumber(MonthsLater(CivilOf(start), 1))
    case Yearly => DayNumber(MonthsLater(CivilOf(start), 12))
  }

  lemma LaterMonthIsLater(c: Civil, months: int)
    requires ValidCivil(c) && months > 0
    ensures DayNumber(c) < DayNumber(MonthsLater(c, months))
  {
    EarlierIsSmaller(c, MonthsLater(c, months));
  }

  lemma NextStartIsLater(period: Period, start: int)
    requires period != Custom
    ensures start < NextStart(period, start)
  {
    if period == Monthly {
      LaterMonthIsLater(CivilOf(start), 1);
    } else if period == Yearly {
      LaterMonthIsLater(CivilOf(start), 12);
    }
  }

  lemma DayBefore(t: string, m: int)
    requires ParseDate(t) == Ok(m) && Representable(m - 1)
    ensures LastDayBefore(Ok(t)).Ok? && ParseDate(LastDayBefore(Ok(t)).value) == Ok(m - 1)
  {
    AddDaysMoves(t, m, -1);
  }

  lemma MonthsAhead(s: string, n: int, months: int)
    requires ParseDate(s) == Ok(n) && 100 <= MonthsLater(CivilOf(n), months).year <= 9999
    ensures var r := MonthsLater(CivilOf(n), months);
      AddMonthsClamped(s, months) == Ok(FormatCivil(r)) && ParseDate(FormatCivil(r)) == Ok(DayNumber(r))
  {
    var c := ParsedDate(s);
    AddMonthsClampedIsMonthsLater(s, c, months);
  }

  lemma MonthsEnd(s: string, n: int, months: int, r: Civil)
    requires ParseDate(s) == Ok(n) && months > 0 && Representable(n)
    requires r == MonthsLater(CivilOf(n), months) && Representable(DayNumber(r))
    ensures var end := LastDayBefore(AddMonthsClamped(s, months));
      end.Ok? && ParseDate(end.value) == Ok(DayNumber(r) - 1)
  {
    hide DayNumber, CivilOf, ParseDate;
    LaterMonthIsLater(CivilOf(n), months);
    YearInRange(r);
    MonthsAhead(s, n, months);
    DayBefore(FormatCivil(r), DayNumber(r));
  }

  lemma YearInRange(r: Civil)
    requires ValidCivil(r) && Representable(DayNumber(r))
    ensures 100 <= r.year <= 9999
  {
    CivilBijection(r, 0);
    RepresentableYears(DayNumber(r));
  }

  lemma PlannedEndDay(period: Period, s: string, n: int, customEnd: Option<string>)
    requires period != Custom && ParseDate(s) == Ok(n) && Representable(n) && Representable(NextStart(period, n))
    ensures var end := PlannedEnd(period, s, customEnd);
      end.Ok? && ParseDate(end.value) == Ok(NextStart(period, n) - 1)
  {
    hide ParseDate, DayNumber, CivilOf, AddDays, AddMonthsClamped, LastDayBefore, MonthsLater;
    match period
    case Weekly => AddDaysMoves(s, n, 6);
    case Monthly => MonthsEnd(s, n, 1, MonthsLater(CivilOf(n), 1));
    case Yearly => MonthsEnd(s, n, 12, MonthsLater(CivilOf(n), 12));
  }

  /**
   A cycle of a recurring period ends the day before the next one starts, as long as the
   calendar of the application reaches that far.
   */
  lemma CycleEndsBeforeNext(period: Period, s: string, n: int, customEnd: Option<string>)
    requires period != Custom && ParseDate(s) == Ok(n) && Representable(NextStart(period, n))
    ensures ResolveEndDate(period, s, customEnd).Ok?
    ensures ParseDate(ResolveEndDate(period, s, customEnd).value) == Ok(NextStart(period, n) - 1)
  {
    ParseThenFormat(s);
    PlannedEndDay(period, s, n, customEnd);
    NextStartIsLater(period, n);
    DateOrder(PlannedEnd(period, s, customEnd).value, s);
  }

  /** A custom budget ends on the day that is given, if one is and it does not come before the first day. */
  lemma CustomEnd(s: string, n: int, end: string, m: int)
    requires ParseDate(s) == Ok(n) && ParseDate(end) == Ok(m)
    ensures ResolveEndDate(Custom, s, Some(end)) == if n <= m then Ok(end) else Err(EndBeforeStart)
    ensures ResolveEndDate(Custom, s, None) == Err(EndDateRequired)
  {
    DateOrder(end, s);
  }

  // ---------------------------------------------------------------- drift of the day of the month

  /** The start after n cycles of k months each, every start computed from the one before. */
  function StartAfter(c: Civil, k: nat, n: nat): (r: Civil)
    requires ValidCivil(c)
    ensures ValidCivil(r)
  {
    if n == 0 then c else MonthsLater(StartAfter(c, k, n - 1), k)
  }

  /** The length of the shortest of the months index + k, index + 2k, ..., index + nk. */
  function Shortest(index: int, k: nat, n: nat): int {
    if n == 0 then 31 else Min(Shortest(index, k, n - 1), MonthLength(index + k * n))
  }

  /**
   After n cycles the month has moved by nk, and the day is the first day or the
   length of the shortest month landed on, whichever is smaller.
   */
  lemma {:induction false} StartClosedForm(c: Civil, k: nat, n: nat)
    requires ValidCivil(c)
    ensures var r := StartAfter(c, k, n);
      MonthIndex(r) == MonthIndex(c) + k * n && r.day == Min(c.day, Shortest(MonthIndex(c), k, n))
    decreases n
  {
    hide MonthsLater, MonthLength, MonthIndex;
    if n > 0 {
      StartClosedForm(c, k, n - 1);
      assert k * n == k * (n - 1) + k;
    }
  }

  lemma CivilFromMonthIndex(a: Civil, b: Civil)
    requires ValidCivil(a) && ValidCivil(b) && MonthIndex(a) == MonthIndex(b) && a.day == b.day
    ensures a == b
  {
  }

  lemma {:induction false} ShortestBound(index: int, k: nat, n: nat, d: int)
    requires d <= 31
    ensures Shortest(index, k, n) >= d <==> forall i :: 1 <= i <= n ==> MonthLength(index + k * i) >= d
    decreases n
  {
    if n > 0 {
      ShortestBound(index, k, n - 1, d);
    }
  }

  /**
   Renewing n times lands on the same date as one jump of nk months exactly when no month
   landed on in between is too short for the day that the jump would give.
   */
  lemma RenewalDriftsIff(c: Civil, k: nat, n: nat)
    requires ValidCivil(c) && n > 0
    ensures StartAfter(c, k, n) == MonthsLater(c, k * n) <==>
      forall i :: 1 <= i < n ==> MonthLength(MonthIndex(c) + k * i) >= MonthsLater(c, k * n).day
  {
    hide MonthsLater, MonthLength, StartAfter, ValidCivil;
    StartClosedForm(c, k, n);
    var day := MonthsLater(c, k * n).day;
    ShortestBound(MonthIndex(c), k, n - 1, day);
    if StartAfter(c, k, n).day == day {
      CivilFromMonthIndex(StartAfter(c, k, n), MonthsLater(c, k * n));
    }
  }

  /** Days up to the 28th never drift. */
  lemma NoDriftUpTo28(c: Civil, k: nat, n: nat)
    requires ValidCivil(c) && c.day <= 28
    ensures StartAfter(c, k, n) == MonthsLater(c, k * n)
  {
    if n > 0 {
      RenewalDriftsIff(c, k, n);
    } else {
      assert k * n == 0;
      CivilFromMonthIndex(c, MonthsLater(c, 0));
    }
  }

  lemma StartNext(c: Civil, k: nat, n: nat)
    requires ValidCivil(c)
    ensures StartAfter(c, k, 0) == c && StartAfter(c, k, n + 1) == MonthsLater(StartAfter(c, k, n), k)
  {
    hide MonthsLater;
  }

  lemma FromJanuary()
    ensures MonthsLater(Civil(2023, 1, 31), 1) == Civil(2023, 2, 28)
    ensures MonthsLater(Civil(2023, 2, 28), 1) == Civil(2023, 3, 28)
    ensures MonthsLater(Civil(2023, 1, 31), 2) == Civil(2023, 3, 31)
  {
  }

  /** A budget that starts on January 31 is renewed on February 28 and then on March 28. */
  lemma JanuaryDrifts()
    ensures StartAfter(Civil(2023, 1, 31), 1, 2) == Civil(2023, 3, 28)
    ensures MonthsLater(Civil(2023, 1, 31), 2) == Civil(2023, 3, 31)
  {
    hide StartAfter;
    FromJanuary();
    assert StartAfter(Civil(2023, 1, 31), 1, 1) == Civil(2023, 2, 28) by {
      StartNext(Civil(2023, 1, 31), 1, 0);
    }
    StartNext(Civil(2023, 1, 31), 1, 1);
  }

  // ---------------------------------------------------------------- tiling

  /** The first day of the n-th cycle, counted from 0. */
  function CycleStart(period: Period, start: int, n: nat): int
    requires period != Custom
  {
    if n == 0 then start else NextStart(period, CycleStart(period, start, n - 1))
  }

  lemma {:induction false} CyclesAscend(period: Period, start: int, m: nat, n: nat)
    requires period != Custom && m <= n
    ensures CycleStart(period, start, m) + (n - m) <= CycleStart(period, start, n)
    decreases n - m
  {
    hide NextStart;
    if m < n {
      CyclesAscend(period, start, m, n - 1);
      NextStartIsLater(period, CycleStart(period, start, n - 1));
    }
  }

  /** Day d belongs to the i-th cycle. */
  predicate InCycle(period: Period, start: int, i: nat, d: int)
    requires period != Custom
  {
    CycleStart(period, start, i) <= d < CycleStart(period, start, i + 1)
  }

  lemma {:induction false} SomeCycle(period: Period, start: int, n: nat, d: int) returns (i: nat)
    requires period != Custom && start <= d < CycleStart(period, start, n)
    ensures i < n && InCycle(period, start, i, d)
    decreases n
  {
    hide NextStart;
    assert n > 0;
    if CycleStart(period, start, n - 1) <= d {
      i := n - 1;
    } else {
      i := SomeCycle(period, start, n - 1, d);
    }
  }

  lemma InOneCycle(period: Period, start: int, i: nat, j: nat, d: int)
    requires period != Custom && InCycle(period, start, i, d) && InCycle(period, start, j, d)
    ensures i == j
  {
    hide NextStart, CycleStart;
    if i < j {
      CyclesAscend(period, start, i + 1, j);
    } else if j < i {
      CyclesAscend(period, start, j + 1, i);
    }
  }

  /** Every day from the start of a chain of n cycles to its end lies in exactly one of them. */
  lemma CyclesTile(period: Period, start: int, n: nat, d: int)
    requires period != Custom && start <= d < CycleStart(period, start, n)
    ensures exists i :: 0 <= i < n && InCycle(period, start, i, d)
    ensures forall i: nat, j: nat :: InCycle(period, start, i, d) && InCycle(period, start, j, d) ==> i == j
  {
    hide NextStart, CycleStart;
    var i := SomeCycle(period, start, n, d);
    forall j: nat, l: nat | InCycle(period, start, j, d) && InCycle(period, start, l, d) ensures j == l {
      InOneCycle(period, start, j, l, d);
    }
  }

  /** The months of one cycle of a period that is counted in months. */
  function MonthsOf(period: Period): nat {
    if period == Yearly then 12 else 1
  }

  lemma NextStartOfDate(period: Period, c: Civil)
    requires ValidCivil(c) && (period == Monthly || period == Yearly)
    ensures NextStart(period, DayNumber(c)) == DayNumber(MonthsLater(c, MonthsOf(period)))
  {
    CivilBijection(c, 0);
  }

  /** The n-th cycle of a chain that starts on c starts on the date of the closed form. */
  predicate OnClosedForm(period: Period, c: Civil, n: nat)
    requires ValidCivil(c) && (period == Monthly || period == Yearly)
  {
    CycleStart(period, DayNumber(c), n) == DayNumber(StartAfter(c, MonthsOf(period), n))
  }

  lemma CycleStep(period: Period, start: int, n: nat, k: nat, c: Civil)
    requires (period == Monthly || period == Yearly) && k == MonthsOf(period) && ValidCivil(c)
    requires CycleStart(period, start, n) == DayNumber(c)
    ensures CycleStart(period, start, n + 1) == DayNumber(MonthsLater(c, k))
  {
    NextStartOfDate(period, c);
  }

  lemma OnClosedFormFirst(period: Period, c: Civil)
    requires ValidCivil(c) && (period == Monthly || period == Yearly)
    ensures OnClosedForm(period, c, 0)
  {
  }

  lemma OnClosedFormNext(period: Period, c: Civil, n: nat)
    requires ValidCivil(c) && (period == Monthly || period == Yearly) && OnClosedForm(period, c, n)
    ensures OnClosedForm(period, c, n + 1)
  {
    CycleStep(period, DayNumber(c), n, MonthsOf(period), StartAfter(c, MonthsOf(period), n));
  }

  /** The starts of monthly and yearly cycles are the dates of the closed form. */
  lemma {:induction false} CycleStartIsClosedForm(period: Period, c: Civil, n: nat)
    requires ValidCivil(c) && (period == Monthly || period == Yearly)
    ensures OnClosedForm(period, c, n)
    decreases n
  {
    hide *;
    if n == 0 {
      OnClosedFormFirst(period, c);
    } else {
      CycleStartIsClosedForm(period, c, n - 1);
      OnClosedFormNext(period, c, n - 1);
    }
  }
}
