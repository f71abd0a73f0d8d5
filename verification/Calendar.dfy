/**
 The proleptic Gregorian calendar as ECMA-262 section 21.4.1 defines it: civil dates,
 day numbers counted from 1970-01-01, and the bijection between them.
 Dafny's / and % by a positive constant are the floor and modulo of the standard.
 */
module Calendar {

  datatype Civil = Civil(year: int, month: int, day: int)

  predicate IsLeap(y: int) {
    y % 4 == 0 && (y % 100 != 0 || y % 400 == 0)
  }

  function DaysInYear(y: int): int {
    if IsLeap(y) then 366 else 365
  }

  function DaysInMonth(y: int, m: int): (r: int)
    requires 1 <= m <= 12
    ensures 28 <= r <= 31
  {
    if m == 2 then (if IsLeap(y) then 29 else 28)
    else if m == 4 || m == 6 || m == 9 || m == 11 then 30
    else 31
  }

  predicate ValidCivil(c: Civil) {
    1 <= c.month <= 12 && 1 <= c.day <= DaysInMonth(c.year, c.month)
  }

  /** DayFromYear: the day number of January 1 of year y. */
  function DayFromYear(y: int): int {
    365 * (y - 1970) + (y - 1969) / 4 - (y - 1901) / 100 + (y - 1601) / 400
  }

  /** The days of year y before month m. */
  function DaysBefore(y: int, m: int): int
    requires 1 <= m <= 13
  {
    if m == 1 then 0 else DaysBefore(y, m - 1) + DaysInMonth(y, m - 1)
  }

  function DayNumber(c: Civil): int
    requires ValidCivil(c)
  {
    DayFromYear(c.year) + DaysBefore(c.year, c.month) + c.day - 1
  }

  lemma FloorSteps(y: int)
    ensures (y - 1968) / 4 == (y - 1969) / 4 + (if y % 4 == 0 then 1 else 0)
    ensures (y - 1900) / 100 == (y - 1901) / 100 + (if y % 100 == 0 then 1 else 0)
    ensures (y - 1600) / 400 == (y - 1601) / 400 + (if y % 400 == 0 then 1 else 0)
  {
    FloorStep4(y);
    FloorStep100(y);
    FloorStep400(y);
  }

  lemma FloorStep4(y: int)
    ensures (y - 1968) / 4 == (y - 1969) / 4 + (if y % 4 == 0 then 1 else 0)
  {
  }

  lemma FloorStep100(y: int)
    ensures (y - 1900) / 100 == (y - 1901) / 100 + (if y % 100 == 0 then 1 else 0)
  {
  }

  lemma FloorStep400(y: int)
    ensures (y - 1600) / 400 == (y - 1601) / 400 + (if y % 400 == 0 then 1 else 0)
  {
  }

  lemma LeapMultiples(y: int)
    ensures y % 400 == 0 ==> y % 100 == 0
    ensures y % 100 == 0 ==> y % 4 == 0
  {
  }

  lemma YearLength(y: int)
    ensures DayFromYear(y + 1) == DayFromYear(y) + DaysInYear(y)
  {
    FloorSteps(y);
    LeapMultiples(y);
  }

  /** YearFromTime: the largest year that starts on or before day n. */
  function YearOf(n: int): (y: int)
    ensures DayFromYear(y) <= n < DayFromYear(y + 1)
  {
    var e := 1970 + 400 * n / 146097;
    YearLength(e);
    YearLength(e - 1);
    YearLength(e + 1);
    if n < DayFromYear(e) then e - 1 else if n < DayFromYear(e + 1) then e else e + 1
  }

  /** The month of year y that holds its k-th day, searched from month m down. */
  function MonthFrom(y: int, k: int, m: int): (r: int)
    requires 1 <= m <= 12 && 0 <= k < DaysBefore(y, m + 1)
    ensures 1 <= r <= m && DaysBefore(y, r) <= k < DaysBefore(y, r + 1)
  {
    if DaysBefore(y, m) <= k then m else MonthFrom(y, k, m - 1)
  }

  lemma DaysBeforeNextYear(y: int)
    ensures DaysBefore(y, 13) == DaysInYear(y)
  {
    assert DaysBefore(y, 2) == 31;
    assert DaysBefore(y, 3) == 31 + DaysInMonth(y, 2);
    assert DaysBefore(y, 5) == DaysBefore(y, 3) + 61;
    assert DaysBefore(y, 7) == DaysBefore(y, 5) + 61;
    assert DaysBefore(y, 9) == DaysBefore(y, 7) + 62;
    assert DaysBefore(y, 11) == DaysBefore(y, 9) + 61;
    assert DaysBefore(y, 13) == DaysBefore(y, 11) + 61;
  }

  /** The civil date of day n. */
  function CivilOf(n: int): (c: Civil)
    ensures ValidCivil(c) && DayNumber(c) == n
  {
    var y := YearOf(n);
    var k := n - DayFromYear(y);
    YearLength(y);
    DaysBeforeNextYear(y);
    var m := MonthFrom(y, k, 12);
    Civil(y, m, k - DaysBefore(y, m) + 1)
  }

  lemma {:induction false} YearsAscend(y: int, z: int)
    requires y <= z
    ensures DayFromYear(z) >= DayFromYear(y) + 365 * (z - y)
    decreases z - y
  {
    if y < z {
      YearsAscend(y, z - 1);
      YearLength(z - 1);
    }
  }

  lemma {:induction false} MonthsAscend(y: int, m: int, l: int)
    requires 1 <= m <= l <= 13
    ensures DaysBefore(y, m) <= DaysBefore(y, l)
    decreases l - m
  {
    if m < l {
      MonthsAscend(y, m, l - 1);
    }
  }

  predicate Earlier(a: Civil, b: Civil) {
    a.year < b.year
    || (a.year == b.year && (a.month < b.month
    || (a.month == b.month && a.day < b.day)))
  }

  lemma DayInYear(c: Civil)
    requires ValidCivil(c)
    ensures DayFromYear(c.year) <= DayNumber(c) < DayFromYear(c.year + 1)
    ensures DaysBefore(c.year, c.month) <= DayNumber(c) - DayFromYear(c.year) < DaysBefore(c.year, c.month + 1)
  {
    MonthsAscend(c.year, 1, c.month);
    MonthsAscend(c.year, c.month + 1, 13);
    DaysBeforeNextYear(c.year);
    YearLength(c.year);
  }

  lemma EarlierIsSmaller(a: Civil, b: Civil)
    requires ValidCivil(a) && ValidCivil(b) && Earlier(a, b)
    ensures DayNumber(a) < DayNumber(b)
  {
    DayInYear(a);
    DayInYear(b);
    if a.year < b.year {
      YearsAscend(a.year + 1, b.year);
    } else if a.month < b.month {
      MonthsAscend(a.year, a.month + 1, b.month);
    }
  }

  /** Day numbers order civil dates lexicographically by year, month and day. */
  lemma DayNumberOrder(a: Civil, b: Civil)
    requires ValidCivil(a) && ValidCivil(b)
    ensures DayNumber(a) < DayNumber(b) <==> Earlier(a, b)
    ensures DayNumber(a) == DayNumber(b) <==> a == b
  {
    if Earlier(a, b) {
      EarlierIsSmaller(a, b);
    } else if Earlier(b, a) {
      EarlierIsSmaller(b, a);
    }
  }

  /** CivilOf and DayNumber are inverse to each other. */
  lemma CivilBijection(c: Civil, n: int)
    requires ValidCivil(c)
    ensures CivilOf(DayNumber(c)) == c
    ensures DayNumber(c) == n <==> c == CivilOf(n)
  {
    DayNumberOrder(CivilOf(DayNumber(c)), c);
    DayNumberOrder(CivilOf(n), c);
  }

  // ---------------------------------------------------------------- Date.UTC

  /** MakeDay: months and days outside their range carry over. */
  function MakeDay(year: int, month0: int, date: int): int {
    DayNumber(Civil(year + month0 / 12, month0 % 12 + 1, 1)) + date - 1
  }

  /** Date.UTC on a date without time, as a day number: years 0 to 99 stand for 1900 to 1999. */
  function DateUTC(year: int, month0: int, date: int): int {
    MakeDay(if 0 <= year <= 99 then 1900 + year else year, month0, date)
  }

  lemma MakeDayOfValid(c: Civil)
    requires ValidCivil(c)
    ensures MakeDay(c.year, c.month - 1, c.day) == DayNumber(c)
  {
  }
}
