/**
 Business dates: the strings YYYY-MM-DD of the application, their conversion to and from the
 dates of the database (day numbers here), and the arithmetic on them.
 */
module BusinessTime {
  import opened Prelude
  import opened Calendar
  import opened Digits

  datatype DateError = BadFormat | NotACalendarDate | OutOfRange

  // Time values are limited to this many days on either side of the epoch (ECMA-262 section 21.4.1.1)
  const MAX_DAY := 100_000_000

  // ---------------------------------------------------------------- strings to days

  /** The pattern of four, two and two digits. */
  predicate DatePattern(s: string) {
    && |s| == 10 && s[4] == '-' && s[7] == '-'
    && AllDigits(s[..4]) && AllDigits(s[5..7]) && AllDigits(s[8..])
  }

  /** The year, month and day a string spells, whether or not the calendar has them. */
  function Spelled(s: string): Civil
    requires DatePattern(s)
  {
    Civil(NumberOf(s[..4]), NumberOf(s[5..7]), NumberOf(s[8..]))
  }

  /** assertBusinessDate and businessDateToPrismaDate: the day number, if Date.UTC does not adjust the date. */
  function ParseDate(s: string): Result<int, DateError> {
    if !DatePattern(s) then Err(BadFormat)
    else
      var c := Spelled(s);
      var n := DateUTC(c.year, c.month - 1, c.day);
      if CivilOf(n) == c then Ok(n) else Err(NotACalendarDate)
  }

  // ---------------------------------------------------------------- days to strings

  function FormatCivil(c: Civil): string
    requires 0 <= c.year && 0 <= c.month && 0 <= c.day
  {
    Pad(c.year, 4) + "-" + Pad(c.month, 2) + "-" + Pad(c.day, 2)
  }

  /** The first ten characters of toISOString: years outside 0 to 9999 take a sign and six digits. */
  function IsoPrefix(c: Civil): string
    requires ValidCivil(c)
  {
    if 0 <= c.year <= 9999 then FormatCivil(c)
    else (if c.year < 0 then "-" + Pad(-c.year, 6) else "+" + Pad(c.year, 6)) + "-" + Pad(c.month, 2)
  }

  /** prismaDateToBusinessDate. */
  function FormatDay(n: int): Result<string, DateError> {
    if n < -MAX_DAY || MAX_DAY < n then Err(OutOfRange) else Ok(IsoPrefix(CivilOf(n)))
  }

  // ---------------------------------------------------------------- arithmetic

  /** addBusinessDays. */
  function AddDays(s: string, amount: int): Result<string, DateError> {
    match ParseDate(s)
    case Err(e) => Err(e)
    case Ok(n) => FormatDay(n + amount)
  }

  /** The given day of the month that starts on day first, or the month's last day if it is too short. */
  function ClampedDay(first: int, day: int): int {
    var target := CivilOf(first);
    var lastDay := CivilOf(DateUTC(target.year, target.month, 0)).day;
    first + Min(day, lastDay) - 1
  }

  /** The first day of the month that comes so many months after the month of c. */
  function FirstOfMonth(c: Civil, months: int): int {
    DateUTC(c.year, c.month - 1 + months, 1)
  }

  function ClampedFrom(c: Civil, months: int): Result<string, DateError> {
    var first := FirstOfMonth(c, months);
    if first < -MAX_DAY || MAX_DAY < first then Err(OutOfRange) else FormatDay(ClampedDay(first, c.day))
  }

  /** addBusinessMonthsClamped. */
  function AddMonthsClamped(s: string, months: int): Result<string, DateError> {
    match ParseDate(s)
    case Err(e) => Err(e)
    case Ok(n) => ClampedFrom(CivilOf(n), months)
  }

  // ---------------------------------------------------------------- which strings are dates

  /** A full-date of section 5.6 of RFC 3339 that names a day of the years 0100 to 9999. */
  ghost predicate NamesDay(s: string, c: Civil) {
    ValidCivil(c) && 100 <= c.year <= 9999 && s == FormatCivil(c)
  }

  lemma FormatShape(c: Civil)
    requires 0 <= c.year <= 9999 && ValidCivil(c)
    ensures DatePattern(FormatCivil(c)) && Spelled(FormatCivil(c)) == c
  {
    var s := FormatCivil(c);
    assert s[..4] == Pad(c.year, 4) && s[5..7] == Pad(c.month, 2) && s[8..] == Pad(c.day, 2);
    assert Power10(4) == 10_000 && Power10(2) == 100 by {
      assert Power10(2) == 10 * Power10(1) && Power10(3) == 10 * Power10(2);
    }
    NumberOfPad(c.year, 4);
    NumberOfPad(c.month, 2);
    NumberOfPad(c.day, 2);
  }

  lemma SpelledShape(s: string)
    requires DatePattern(s)
    ensures var c := Spelled(s);
      0 <= c.year <= 9999 && 0 <= c.month <= 99 && 0 <= c.day <= 99 && FormatCivil(c) == s
  {
    assert Power10(4) == 10_000 && Power10(2) == 100 by {
      assert Power10(2) == 10 * Power10(1) && Power10(3) == 10 * Power10(2);
    }
    PadOfNumber(s[..4]);
    PadOfNumber(s[5..7]);
    PadOfNumber(s[8..]);
    assert s == s[..4] + "-" + s[5..7] + "-" + s[8..];
  }

  lemma DateUTCKeeps(c: Civil)
    requires ValidCivil(c) && c.year >= 100
    ensures DateUTC(c.year, c.month - 1, c.day) == DayNumber(c)
  {
    MakeDayOfValid(c);
  }

  lemma ShortYearIsAdded(c: Civil)
    requires ValidCivil(c) && 0 <= c.year < 100
    ensures DateUTC(c.year, c.month - 1, c.day) == DayNumber(Civil(1900 + c.year, c.month, 1)) + c.day - 1
  {
    hide CivilOf, YearOf, DayNumber;
  }

  lemma DateUTCShifts(c: Civil)
    requires ValidCivil(c) && 0 <= c.year < 100
    ensures DateUTC(c.year, c.month - 1, c.day) > DayNumber(c)
  {
    ShortYearIsAdded(c);
    hide CivilOf, YearOf, DateUTC, DayNumber;
    EarlierIsSmaller(c, Civil(1900 + c.year, c.month, 1));
  }

  /** Date.UTC leaves a date alone exactly when it is a calendar date outside the years 0 to 99. */
  lemma DateUTCAdjusts(c: Civil)
    requires 0 <= c.year
    ensures CivilOf(DateUTC(c.year, c.month - 1, c.day)) == c <==> ValidCivil(c) && c.year >= 100
    ensures ValidCivil(c) && c.year >= 100 ==> DateUTC(c.year, c.month - 1, c.day) == DayNumber(c)
  {
    if ValidCivil(c) {
      CivilBijection(c, 0);
      if c.year >= 100 {
        DateUTCKeeps(c);
      } else {
        DateUTCShifts(c);
      }
    }
  }

  lemma NamedDayParses(s: string, c: Civil)
    requires NamesDay(s, c)
    ensures ParseDate(s) == Ok(DayNumber(c))
  {
    FormatShape(c);
    DateUTCAdjusts(c);
    hide DayNumber, CivilOf, DateUTC, FormatCivil, Spelled;
  }

  lemma ParsedNamesDay(s: string)
    requires ParseDate(s).Ok?
    ensures NamesDay(s, Spelled(s))
  {
    SpelledShape(s);
    DateUTCAdjusts(Spelled(s));
    hide DayNumber, CivilOf, DateUTC, FormatCivil, Spelled;
  }

  /** A string is accepted as a date exactly when it names a day of the years 0100 to 9999. */
  lemma ParsesIffNamesDay(s: string)
    ensures ParseDate(s).Ok? <==> exists c :: NamesDay(s, c)
    ensures forall c :: NamesDay(s, c) ==> ParseDate(s) == Ok(DayNumber(c))
  {
    hide ParseDate, DayNumber, FormatCivil;
    if ParseDate(s).Ok? {
      ParsedNamesDay(s);
    }
    forall c | NamesDay(s, c) ensures ParseDate(s) == Ok(DayNumber(c)) {
      NamedDayParses(s, c);
    }
  }

  /** What an accepted string denotes. */
  lemma ParsedDate(s: string) returns (c: Civil)
    requires ParseDate(s).Ok?
    ensures NamesDay(s, c) && ParseDate(s) == Ok(DayNumber(c)) && CivilOf(DayNumber(c)) == c
  {
    ParsesIffNamesDay(s);
    c :| NamesDay(s, c);
    CivilBijection(c, 0);
  }

  // ---------------------------------------------------------------- round trips and order

  /** Day n lies in the years 0100 to 9999. */
  predicate Representable(n: int) {
    DayFromYear(100) <= n < DayFromYear(10_000)
  }

  lemma RepresentableYears(n: int)
    ensures Representable(n) <==> 100 <= CivilOf(n).year <= 9999
    ensures Representable(n) ==> -MAX_DAY <= n <= MAX_DAY
  {
    var c := CivilOf(n);
    DayInYear(c);
    if c.year < 100 {
      YearsAscend(c.year + 1, 100);
    } else {
      YearsAscend(100, c.year);
      if c.year <= 9999 {
        YearsAscend(c.year + 1, 10_000);
      } else {
        YearsAscend(10_000, c.year);
      }
    }
  }

  lemma RepresentableParses(n: int)
    requires Representable(n)
    ensures FormatDay(n) == Ok(FormatCivil(CivilOf(n)))
    ensures ParseDate(FormatCivil(CivilOf(n))) == Ok(n)
  {
    var c := CivilOf(n);
    RepresentableYears(n);
    assert NamesDay(FormatCivil(c), c);
    ParsesIffNamesDay(FormatCivil(c));
  }

  lemma EarlyYearRejected(c: Civil)
    requires ValidCivil(c) && 0 <= c.year < 100
    ensures ParseDate(FormatCivil(c)).Err?
  {
    FormatShape(c);
    DateUTCAdjusts(c);
  }

  lemma UnrepresentableRejected(n: int)
    requires !Representable(n)
    ensures ParseDate(IsoPrefix(CivilOf(n))).Err?
  {
    var c := CivilOf(n);
    RepresentableYears(n);
    if 0 <= c.year <= 9999 {
      EarlyYearRejected(c);
    } else {
    }
  }

  /** Formatting a day gives an accepted date, namely one that denotes that day, exactly for representable days. */
  lemma FormatThenParse(n: int)
    ensures FormatDay(n).Ok? && ParseDate(FormatDay(n).value).Ok? <==> Representable(n)
    ensures Representable(n) ==>
      FormatDay(n) == Ok(FormatCivil(CivilOf(n))) && ParseDate(FormatDay(n).value) == Ok(n)
  {
    if Representable(n) {
      RepresentableParses(n);
    } else if FormatDay(n).Ok? {
      UnrepresentableRejected(n);
    }
  }

  /** Parsing a date and formatting the day gives the date back. */
  lemma ParseThenFormat(s: string)
    requires ParseDate(s).Ok?
    ensures Representable(ParseDate(s).value)
    ensures FormatDay(ParseDate(s).value) == Ok(s)
  {
    var c := ParsedDate(s);
    RepresentableYears(DayNumber(c));
  }

  /** Accepted dates compare as strings as they do in time. */
  lemma DateOrder(s: string, t: string)
    requires ParseDate(s).Ok? && ParseDate(t).Ok?
    ensures StringLess(s, t) <==> ParseDate(s).value < ParseDate(t).value
    ensures s == t <==> ParseDate(s).value == ParseDate(t).value
  {
    var a := ParsedDate(s);
    var b := ParsedDate(t);
    DayNumberOrder(a, b);
    FormatOrder(a, b);
  }

  lemma FormatOrder(a: Civil, b: Civil)
    requires ValidCivil(a) && ValidCivil(b) && 0 <= a.year <= 9999 && 0 <= b.year <= 9999
    ensures StringLess(FormatCivil(a), FormatCivil(b)) <==> Earlier(a, b)
  {
    assert Power10(4) == 10_000 && Power10(2) == 100 by {
      assert Power10(2) == 10 * Power10(1) && Power10(3) == 10 * Power10(2);
    }
    var y, m, d := Pad(a.year, 4), Pad(a.month, 2), Pad(a.day, 2);
    var y', m', d' := Pad(b.year, 4), Pad(b.month, 2), Pad(b.day, 2);
    assert FormatCivil(a) == y + ("-" + (m + ("-" + d)));
    assert FormatCivil(b) == y' + ("-" + (m' + ("-" + d')));
    PadOrder(a.year, b.year, 4);
    PadOrder(a.month, b.month, 2);
    PadOrder(a.day, b.day, 2);
    NumberOfPad(a.year, 4);
    NumberOfPad(b.year, 4);
    NumberOfPad(a.month, 2);
    NumberOfPad(b.month, 2);
    if y != y' {
      StringLessHead(y, y', "-" + (m + ("-" + d)), "-" + (m' + ("-" + d')));
    } else {
      StringLessPrefix(y, "-" + (m + ("-" + d)), "-" + (m' + ("-" + d')));
      StringLessPrefix("-", m + ("-" + d), m' + ("-" + d'));
      if m != m' {
        StringLessHead(m, m', "-" + d, "-" + d');
      } else {
        StringLessPrefix(m, "-" + d, "-" + d');
        StringLessPrefix("-", d, d');
      }
    }
  }

  // ---------------------------------------------------------------- what the arithmetic means

  lemma AddDaysOn(s: string, n: int, amount: int)
    requires ParseDate(s) == Ok(n)
    ensures AddDays(s, amount) == FormatDay(n + amount)
  {
  }

  /** Adding days moves the day number, and the result is a date exactly when the day is representable. */
  lemma AddDaysMoves(s: string, n: int, amount: int)
    requires ParseDate(s) == Ok(n)
    ensures AddDays(s, amount).Ok? && ParseDate(AddDays(s, amount).value).Ok? <==> Representable(n + amount)
    ensures Representable(n + amount) ==>
      ParseDate(AddDays(s, amount).value) == Ok(n + amount) && AddDays(AddDays(s, amount).value, -amount) == Ok(s)
  {
    hide ParseDate, FormatDay, Representable;
    AddDaysOn(s, n, amount);
    FormatThenParse(n + amount);
    if Representable(n + amount) {
      AddDaysOn(FormatDay(n + amount).value, n + amount, -amount);
      ParseThenFormat(s);
    }
  }

  /** Day 0 is January 1, 1970, and the last day of a time value is September 13, 275760. */
  lemma EpochAndLastDay()
    ensures CivilOf(0) == Civil(1970, 1, 1) && CivilOf(MAX_DAY) == Civil(275760, 9, 13)
  {
    DaysOfThem();
    hide CivilOf, DayNumber;
    CivilBijection(Civil(1970, 1, 1), 0);
    CivilBijection(Civil(275760, 9, 13), 0);
  }

  lemma DaysOfThem()
    ensures DayNumber(Civil(1970, 1, 1)) == 0 && DayNumber(Civil(275760, 9, 13)) == MAX_DAY
  {
    hide CivilOf;
    assert DaysBefore(275760, 5) == 121;
    assert DaysBefore(275760, 9) == 244;
  }

  /** Which error is given for a string that is no date, and for a day or month that a time value cannot hold. */
  lemma ErrorsAre(s: string, n: int, months: int)
    ensures ParseDate(s) == Err(BadFormat) <==> !(exists y, m, d :: ReadsDate(y, m, d) && s == y + "-" + m + "-" + d)
    ensures ParseDate(s).Err? ==> ParseDate(s).error == BadFormat || ParseDate(s).error == NotACalendarDate
    ensures FormatDay(n) == Err(OutOfRange) <==> n < -100_000_000 || 100_000_000 < n
    ensures ParseDate(s).Ok? && !(-100_000_000 <= FirstOfMonth(CivilOf(ParseDate(s).value), months) <= 100_000_000) ==>
      AddMonthsClamped(s, months) == Err(OutOfRange)
  {
    hide CivilOf, FirstOfMonth, ClampedDay, IsoPrefix, NumberOf, DateUTC;
    if DatePattern(s) {
      assert ReadsDate(s[..4], s[5..7], s[8..]) && s == s[..4] + "-" + s[5..7] + "-" + s[8..];
    }
    if y, m, d :| ReadsDate(y, m, d) && s == y + "-" + m + "-" + d {
      assert s[..4] == y && s[5..7] == m && s[8..] == d;
    }
  }

  predicate ReadsDate(y: string, m: string, d: string) {
    |y| == 4 && |m| == 2 && |d| == 2 && AllDigits(y) && AllDigits(m) && AllDigits(d)
  }

  /** What is left of a year that four digits do not hold: its sign, six digits and the month. */
  lemma LongYearPrefix(c: Civil)
    requires ValidCivil(c) && !(0 <= c.year <= 9999) && -1_000_000 < c.year < 1_000_000
    ensures var s := IsoPrefix(c);
      && |s| == 10 && s[0] == (if c.year < 0 then '-' else '+') && s[7] == '-'
      && AllDigits(s[1..7]) && NumberOf(s[1..7]) == (if c.year < 0 then -c.year else c.year)
      && AllDigits(s[8..]) && NumberOf(s[8..]) == c.month
  {
    var size := if c.year < 0 then -c.year else c.year;
    var s, year, month := IsoPrefix(c), Pad(size, 6), Pad(c.month, 2);
    assert s[1..7] == year && s[8..] == month;
    assert Power10(6) == 1_000_000 && Power10(2) == 100 by {
      assert Power10(2) == 10 * Power10(1) && Power10(3) == 10 * Power10(2) && Power10(4) == 10 * Power10(3);
      assert Power10(5) == 10 * Power10(4);
    }
    NumberOfPad(size, 6);
    NumberOfPad(c.month, 2);
  }

  /** Months counted from year 0. */
  function MonthIndex(c: Civil): int {
    12 * c.year + c.month - 1
  }

  function MonthLength(index: int): (r: int)
    ensures 28 <= r <= 31
  {
    DaysInMonth(index / 12, index % 12 + 1)
  }

  /** The same day so many months later, or the last day of that month if it is too short. */
  function MonthsLater(c: Civil, months: int): (r: Civil)
    requires ValidCivil(c)
    ensures ValidCivil(r) && MonthIndex(r) == MonthIndex(c) + months
    ensures r.day == Min(c.day, MonthLength(MonthIndex(r)))
  {
    var index := MonthIndex(c) + months;
    var r := Civil(index / 12, index % 12 + 1, Min(c.day, MonthLength(index)));
    assert MonthIndex(r) == index;
    r
  }

  /** The day before the first of the next month is the last of this month. */
  lemma LastDayOfMonth(y: int, m: int)
    requires 1 <= m <= 12
    ensures CivilOf(MakeDay(y, m, 0)) == Civil(y, m, DaysInMonth(y, m))
  {
    var last := Civil(y, m, DaysInMonth(y, m));
    if m == 12 {
      DaysBeforeNextYear(y);
      YearLength(y);
    }
    assert MakeDay(y, m, 0) == DayNumber(last);
    CivilBijection(last, 0);
  }

  lemma FirstOfTargetMonth(c: Civil, months: int)
    requires ValidCivil(c) && c.year >= 100
    ensures var r := MonthsLater(c, months);
      FirstOfMonth(c, months) == DayNumber(Civil(r.year, r.month, 1))
  {
    var r := MonthsLater(c, months);
    assert c.year + (c.month - 1 + months) / 12 == r.year;
    assert (c.month - 1 + months) % 12 + 1 == r.month;
  }

  lemma FirstIsRepresentable(r: Civil)
    requires ValidCivil(r) && 100 <= r.year <= 9999
    ensures Representable(DayNumber(r)) && Representable(DayNumber(Civil(r.year, r.month, 1)))
    ensures -MAX_DAY <= DayNumber(Civil(r.year, r.month, 1)) <= MAX_DAY
  {
    var first := Civil(r.year, r.month, 1);
    CivilBijection(first, 0);
    CivilBijection(r, 0);
    RepresentableYears(DayNumber(first));
    RepresentableYears(DayNumber(r));
  }

  lemma LastDayByDateUTC(y: int, m: int)
    requires 1 <= m <= 12 && y >= 100
    ensures CivilOf(DateUTC(y, m, 0)).day == DaysInMonth(y, m)
  {
    LastDayOfMonth(y, m);
  }

  lemma ClampedDayIs(y: int, m: int, day: int)
    requires 1 <= m <= 12 && y >= 100 && day >= 1
    ensures ClampedDay(DayNumber(Civil(y, m, 1)), day) == DayNumber(Civil(y, m, Min(day, DaysInMonth(y, m))))
  {
    CivilBijection(Civil(y, m, 1), 0);
    LastDayByDateUTC(y, m);
  }

  lemma ClampedFromIs(c: Civil, months: int)
    requires ValidCivil(c) && c.year >= 100
    requires 100 <= MonthsLater(c, months).year <= 9999
    ensures ClampedFrom(c, months) == FormatDay(DayNumber(MonthsLater(c, months)))
  {
    var r := MonthsLater(c, months);
    FirstOfTargetMonth(c, months);
    var first := FirstOfMonth(c, months);
    ClampedDayIs(r.year, r.month, c.day);
    FirstIsRepresentable(r);
    assert r == Civil(r.year, r.month, Min(c.day, DaysInMonth(r.year, r.month)));
    assert ClampedDay(first, c.day) == DayNumber(r);
  }

  /** addBusinessMonthsClamped computes the clamped date, whenever that date is representable. */
  lemma AddMonthsClampedIsMonthsLater(s: string, c: Civil, months: int)
    requires NamesDay(s, c) && 100 <= MonthsLater(c, months).year <= 9999
    ensures AddMonthsClamped(s, months) == Ok(FormatCivil(MonthsLater(c, months)))
    ensures ParseDate(FormatCivil(MonthsLater(c, months))) == Ok(DayNumber(MonthsLater(c, months)))
  {
    var r := MonthsLater(c, months);
    ParsesIffNamesDay(s);
    CivilBijection(c, 0);
    ClampedFromIs(c, months);
    FirstIsRepresentable(r);
    CivilBijection(r, 0);
    RepresentableParses(DayNumber(r));
  }
}
