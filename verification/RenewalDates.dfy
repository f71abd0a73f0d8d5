/** The dates of the budgets that a catch-up creates, in the calendar. */
module RenewalDates {
  import opened Calendar
  import opened BudgetPeriods
  import opened BudgetRenewal
  import opened RenewalProofs

  lemma UnfoldClosedForm(period: Period, c: Civil, n: nat)
    requires ValidCivil(c) && (period == Monthly || period == Yearly) && OnClosedForm(period, c, n)
    ensures CycleStart(period, DayNumber(c), n) == DayNumber(StartAfter(c, MonthsOf(period), n))
  {
    hide CycleStart, DayNumber, StartAfter, ValidCivil, MonthsOf;
  }

  lemma CivilOfIsValid(n: int) returns (c: Civil)
    ensures ValidCivil(c) && DayNumber(c) == n && c == CivilOf(n)
  {
    c := CivilOf(n);
    CivilBijection(c, n);
  }

  /**
   The new budgets of a monthly or yearly chain start on the dates of the closed form: the month
   moves on by one cycle each time, and the day is cut to the shortest month landed on.
   */
  lemma DescendantOnClosedForm(w: World, id: Id, b: Budget, next: Id, j: nat) returns (first: Civil)
    requires (b.period == Monthly || b.period == Yearly) && j > 0
    ensures ValidCivil(first) && DayNumber(first) == b.endDate + 1
    ensures Descendant(w, id, b, next, j).startDate == DayNumber(StartAfter(first, MonthsOf(b.period), j - 1))
  {
    hide *;
    first := CivilOfIsValid(b.endDate + 1);
    DescendantDates(w, id, b, next, j);
    CycleStartIsClosedForm(b.period, first, j - 1);
    UnfoldClosedForm(b.period, first, j - 1);
  }
}
