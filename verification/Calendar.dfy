/** The Gregorian calendar behind the ISO dates. ISO text compares as year, month and day do. */
module Calendar {

  datatype Date = Date(year: int, month: int, day: int)

  predicate IsLeap(year: int) {
    year % 4 == 0 && (year % 100 != 0 || year % 400 == 0)
  }

  function DaysInMonth(year: int, month: int): (n: int)
    ensures 28 <= n <= 31
  {
    if month == 2 then (if IsLeap(year) then 29 else 28)
    else if month == 4 || month == 6 || month == 9 || month == 11 then 30
    else 31
  }

  predicate ValidDate(d: Date) {
    1 <= d.month <= 12 && 1 <= d.day <= DaysInMonth(d.year, d.month)
  }

  predicate Before(a: Date, b: Date) {
    a.year < b.year || (a.year == b.year && (a.month < b.month || (a.month == b.month && a.day < b.day)))
  }

  predicate NotAfter(a: Date, b: Date) {
    !Before(b, a)
  }

  function NextDay(d: Date): Date {
    if d.day < DaysInMonth(d.year, d.month) then Date(d.year, d.month, d.day + 1)
    else if d.month < 12 then Date(d.year, d.month + 1, 1)
    else Date(d.year + 1, 1, 1)
  }

  /** `setUTCDate(getUTCDate() + n)` for a count of days to come. */
  function AddDays(d: Date, n: nat): Date {
    if n == 0 then d else NextDay(AddDays(d, n - 1))
  }

  // ----- day numbers -----

  /** Leap years among the years before `year`. */
  function LeapsBefore(year: int): int {
    (year - 1) / 4 - (year - 1) / 100 + (year - 1) / 400
  }

  function DaysBeforeYear(year: int): int {
    365 * year + LeapsBefore(year)
  }

  function DaysBeforeMonth(year: int, month: int): int {
    if month <= 1 then 0 else DaysBeforeMonth(year, month - 1) + DaysInMonth(year, month - 1)
  }

  /** Days since 1 January 1970. */
  function DayNumber(d: Date): int {
    DaysBeforeYear(d.year) + DaysBeforeMonth(d.year, d.month) + d.day - 1 - DaysBeforeYear(1970)
  }

  lemma Quarters(year: int)
    ensures year / 4 == (year - 1) / 4 + if year % 4 == 0 then 1 else 0
  {
  }

  lemma Centuries(year: int)
    ensures year / 100 == (year - 1) / 100 + if year % 100 == 0 then 1 else 0
    ensures year % 100 == 0 ==> year % 4 == 0
  {
    assert year == 4 * (25 * (year / 100)) + year % 100;
  }

  lemma QuadCenturies(year: int)
    ensures year / 400 == (year - 1) / 400 + if year % 400 == 0 then 1 else 0
    ensures year % 400 == 0 ==> year % 100 == 0
  {
    assert year == 100 * (4 * (year / 400)) + year % 400;
  }

  lemma LeapStep(year: int)
    ensures LeapsBefore(year + 1) == LeapsBefore(year) + if IsLeap(year) then 1 else 0
  {
    Quarters(year);
    Centuries(year);
    QuadCenturies(year);
  }

  lemma DaysInYear(year: int)
    ensures DaysBeforeMonth(year, 12) + 31 == if IsLeap(year) then 366 else 365
    ensures DaysBeforeYear(year + 1) == DaysBeforeYear(year) + DaysBeforeMonth(year, 12) + 31
  {
    LeapStep(year);
    assert DaysBeforeMonth(year, 2) == 31;
    assert DaysBeforeMonth(year, 4) == 62 + DaysInMonth(year, 2);
    assert DaysBeforeMonth(year, 6) == DaysBeforeMonth(year, 4) + 61;
    assert DaysBeforeMonth(year, 8) == DaysBeforeMonth(year, 6) + 61;
    assert DaysBeforeMonth(year, 10) == DaysBeforeMonth(year, 8) + 61;
    assert DaysBeforeMonth(year, 12) == DaysBeforeMonth(year, 10) + 61;
  }

  /** The day after is one day later. */
  lemma NextDayNumber(d: Date)
    requires ValidDate(d)
    ensures ValidDate(NextDay(d)) && DayNumber(NextDay(d)) == DayNumber(d) + 1
  {
    DaysInYear(d.year);
  }

  lemma {:induction false} AddDaysNumber(d: Date, n: nat)
    requires ValidDate(d)
    ensures ValidDate(AddDays(d, n)) && DayNumber(AddDays(d, n)) == DayNumber(d) + n
  {
    if n > 0 {
      AddDaysNumber(d, n - 1);
      NextDayNumber(AddDays(d, n - 1));
    }
  }

  lemma {:induction false} MonthsAdd(year: int, m: int, n: int)
    requires 1 <= m < n
    ensures DaysBeforeMonth(year, m) + DaysInMonth(year, m) <= DaysBeforeMonth(year, n)
    decreases n
  {
    if m + 1 < n {
      MonthsAdd(year, m, n - 1);
    }
  }

  lemma {:induction false} YearsAdd(y: int, z: int)
    requires y < z
    ensures DaysBeforeYear(y + 1) <= DaysBeforeYear(z)
    decreases z - y
  {
    if y + 1 < z {
      DaysInYear(z - 1);
      YearsAdd(y, z - 1);
    }
  }

  lemma YearBounds(d: Date)
    requires ValidDate(d)
    ensures DaysBeforeYear(d.year) <= DayNumber(d) + DaysBeforeYear(1970) < DaysBeforeYear(d.year + 1)
  {
    DaysInYear(d.year);
    if d.month > 1 {
      MonthsAdd(d.year, 1, d.month);
    }
    if d.month < 12 {
      MonthsAdd(d.year, d.month, 12);
    }
  }

  lemma EarlierIsLower(a: Date, b: Date)
    requires ValidDate(a) && ValidDate(b) && Before(a, b)
    ensures DayNumber(a) < DayNumber(b)
  {
    YearBounds(a);
    YearBounds(b);
    if a.year < b.year {
      YearsAdd(a.year, b.year);
    } else if a.month < b.month {
      MonthsAdd(a.year, a.month, b.month);
    }
  }

  /** ISO order is day order, so a day has one date. */
  lemma OrderIsDayOrder(a: Date, b: Date)
    requires ValidDate(a) && ValidDate(b)
    ensures Before(a, b) <==> DayNumber(a) < DayNumber(b)
    ensures DayNumber(a) == DayNumber(b) ==> a == b
  {
    if Before(a, b) {
      EarlierIsLower(a, b);
    } else if Before(b, a) {
      EarlierIsLower(b, a);
    }
  }

  // ----- the date of a day number -----

  /** Days before 1970 and since then. */
  function Elapsed(day: int): int {
    day + DaysBeforeYear(1970)
  }

  lemma YearsIncrease(year: int)
    ensures DaysBeforeYear(year) < DaysBeforeYear(year + 1)
  {
    DaysInYear(year);
  }

  /** The year of a day, searched upwards from a year that starts no later. */
  function YearUp(day: int, year: int): (y: int)
    requires DaysBeforeYear(year) <= Elapsed(day)
    ensures DaysBeforeYear(y) <= Elapsed(day) < DaysBeforeYear(y + 1)
    decreases Elapsed(day) - DaysBeforeYear(year)
  {
    YearsIncrease(year);
    if Elapsed(day) < DaysBeforeYear(year + 1) then year else YearUp(day, year + 1)
  }

  /** The same, searched downwards from a year that starts later. */
  function YearDown(day: int, year: int): (y: int)
    requires Elapsed(day) < DaysBeforeYear(year)
    ensures DaysBeforeYear(y) <= Elapsed(day) < DaysBeforeYear(y + 1)
    decreases DaysBeforeYear(year) - Elapsed(day)
  {
    YearsIncrease(year - 1);
    if DaysBeforeYear(year - 1) <= Elapsed(day) then year - 1 else YearDown(day, year - 1)
  }

  function YearOf(day: int): (y: int)
    ensures DaysBeforeYear(y) <= Elapsed(day) < DaysBeforeYear(y + 1)
  {
    if DaysBeforeYear(1970) <= Elapsed(day) then YearUp(day, 1970) else YearDown(day, 1970)
  }

  /** The month of a day of the year, searched from a month that starts no later. */
  function MonthUp(year: int, dayOfYear: int, month: int): (m: int)
    requires 1 <= month <= 12 && DaysBeforeMonth(year, month) <= dayOfYear < DaysBeforeMonth(year, 12) + 31
    ensures 1 <= m <= 12
    ensures DaysBeforeMonth(year, m) <= dayOfYear < DaysBeforeMonth(year, m) + DaysInMonth(year, m)
    decreases 12 - month
  {
    if month == 12 || dayOfYear < DaysBeforeMonth(year, month + 1) then month else MonthUp(year, dayOfYear, month + 1)
  }

  /** The date of a day number. */
  function DateOfDay(day: int): (d: Date)
    ensures ValidDate(d) && DayNumber(d) == day
  {
    var year := YearOf(day);
    DaysInYear(year);
    var dayOfYear := Elapsed(day) - DaysBeforeYear(year);
    var month := MonthUp(year, dayOfYear, 1);
    Date(year, month, dayOfYear - DaysBeforeMonth(year, month) + 1)
  }

  /** The first day of the month of a day: `${date.slice(0, 7)}-01`. */
  function MonthStart(day: int): (first: int)
    ensures first <= day
  {
    day - (DateOfDay(day).day - 1)
  }

  /** The first day of the month after. */
  function NextMonth(day: int): int {
    MonthStart(day) + DaysInMonth(DateOfDay(day).year, DateOfDay(day).month)
  }

  lemma MonthStartIs(d: Date)
    requires ValidDate(d)
    ensures MonthStart(DayNumber(d)) == DayNumber(Date(d.year, d.month, 1))
  {
    OrderIsDayOrder(DateOfDay(DayNumber(d)), d);
  }

  /** A later day starts its month today or later exactly if today is the first of its month or the day
      lies in a later month. */
  lemma MonthStartAhead(day: int, today: int)
    requires day >= today
    ensures MonthStart(day) >= today <==> MonthStart(today) == today || day >= NextMonth(today)
  {
    var d, t := DateOfDay(day), DateOfDay(today);
    var first := Date(d.year, d.month, 1);
    OrderIsDayOrder(d, t);
    if d.year != t.year || d.month != t.month {
      OrderIsDayOrder(t, first);
      var last := Date(t.year, t.month, DaysInMonth(t.year, t.month));
      OrderIsDayOrder(last, first);
    }
  }
}
