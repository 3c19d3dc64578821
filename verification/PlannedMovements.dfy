/** The expansion of planned cash movements: each recurrence is advanced date by date, from its start
    date, for at most 600 steps. */
module PlannedMovements {
  import opened Calendar
  import opened Options
  import opened Sorting

  datatype Recurrence = OneOff | Weekly | Monthly

  datatype Movement = Movement(
    id: int, enabled: bool, startDate: Date, endDate: Option<Date>, recurrence: Recurrence,
    bankAccountId: int, inflow: bool, amount: int)

  datatype Occurrence = Occurrence(movement: Movement, date: Date)

  const MAX_STEPS := 600

  /** The same day of the next month, or its last day if it is shorter. */
  function NextMonthlyDate(date: Date, targetDay: int): Date {
    var year := date.year + date.month / 12;
    var month := date.month % 12 + 1;
    var lastDay := DaysInMonth(year, month);
    Date(year, month, if targetDay < lastDay then targetDay else lastDay)
  }

  function NextDate(m: Movement, date: Date): Date {
    if m.recurrence.Weekly? then AddDays(date, 7) else NextMonthlyDate(date, m.startDate.day)
  }

  // ----- the closed form -----

  /** Month `k` after the start, with the day of the start where the month has it. */
  function MonthlyDate(start: Date, k: nat): Date {
    var t := start.month - 1 + k;
    var year, month := start.year + t / 12, t % 12 + 1;
    var lastDay := DaysInMonth(year, month);
    Date(year, month, if start.day < lastDay then start.day else lastDay)
  }

  /** The date of step `k` of a recurrence. */
  function DateOf(m: Movement, k: nat): Date {
    if m.recurrence.Weekly? then AddDays(m.startDate, 7 * k) else MonthlyDate(m.startDate, k)
  }

  function Steps(m: Movement): nat {
    if m.recurrence.OneOff? then 1 else MAX_STEPS
  }

  /** Clamping at a short month does not carry over to the months after it. */
  lemma MonthlyNeverDrifts(start: Date, k: nat)
    requires ValidDate(start)
    ensures MonthlyDate(start, 0) == start
    ensures ValidDate(MonthlyDate(start, k))
    ensures NextMonthlyDate(MonthlyDate(start, k), start.day) == MonthlyDate(start, k + 1)
  {
    var t := start.month - 1 + k;
    var year, month := start.year + t / 12, t % 12 + 1;
    assert (t + 1) / 12 == t / 12 + month / 12 && (t + 1) % 12 == month % 12;
  }

  lemma {:induction false} AddDaysAdds(d: Date, n: nat, m: nat)
    ensures AddDays(AddDays(d, n), m) == AddDays(d, n + m)
  {
    if m > 0 {
      AddDaysAdds(d, n, m - 1);
    }
  }

  /** Stepping `k` times from the start date reaches the closed form. */
  lemma NextDateCloses(m: Movement, k: nat)
    requires ValidDate(m.startDate)
    ensures DateOf(m, 0) == m.startDate
    ensures ValidDate(DateOf(m, k))
    ensures NextDate(m, DateOf(m, k)) == DateOf(m, k + 1)
    ensures m.recurrence.Weekly? ==> DayNumber(DateOf(m, k)) == DayNumber(m.startDate) + 7 * k
  {
    if m.recurrence.Weekly? {
      AddDaysAdds(m.startDate, 7 * k, 7);
      AddDaysNumber(m.startDate, 7 * k);
    } else {
      MonthlyNeverDrifts(m.startDate, k);
    }
  }

  lemma NextDateIsLater(m: Movement, k: nat)
    requires ValidDate(m.startDate)
    ensures Before(DateOf(m, k), DateOf(m, k + 1))
  {
    NextDateCloses(m, k);
    NextDateCloses(m, k + 1);
    if m.recurrence.Weekly? {
      OrderIsDayOrder(DateOf(m, k), DateOf(m, k + 1));
    } else {
      var t := m.startDate.month - 1 + k;
      assert ((t + 1) / 12 == t / 12 && (t + 1) % 12 == t % 12 + 1) || (t + 1) / 12 == t / 12 + 1;
    }
  }

  /** The dates of a recurrence strictly increase. */
  lemma {:induction false} DatesIncrease(m: Movement, j: nat, k: nat)
    requires ValidDate(m.startDate) && j < k
    ensures Before(DateOf(m, j), DateOf(m, k))
    decreases k
  {
    NextDateIsLater(m, k - 1);
    if j < k - 1 {
      DatesIncrease(m, j, k - 1);
    }
  }

  // ----- one movement -----

  function LastDate(m: Movement, to: Date): Date {
    if m.endDate.Some? && Before(m.endDate.value, to) then m.endDate.value else to
  }

  predicate InWindow(m: Movement, date: Date, from: Date, to: Date) {
    NotAfter(from, date) && NotAfter(date, LastDate(m, to))
  }

  /** The occurrences of the first `n` steps that fall into the window. */
  function Occurrences(m: Movement, from: Date, to: Date, n: nat): seq<Occurrence> {
    if n == 0 then []
    else
      Occurrences(m, from, to, n - 1) +
      if InWindow(m, DateOf(m, n - 1), from, to) then [Occurrence(m, DateOf(m, n - 1))] else []
  }

  lemma {:induction false} NothingAfterLastDate(m: Movement, from: Date, to: Date, k: nat, n: nat)
    requires ValidDate(m.startDate) && k <= n
    requires Before(LastDate(m, to), DateOf(m, k))
    ensures Occurrences(m, from, to, n) == Occurrences(m, from, to, k)
    decreases n
  {
    if k < n {
      NothingAfterLastDate(m, from, to, k, n - 1);
      if k < n - 1 {
        DatesIncrease(m, k, n - 1);
      }
    }
  }

  lemma {:induction false} OccurrenceMembers(m: Movement, from: Date, to: Date, n: nat, o: Occurrence)
    ensures o in Occurrences(m, from, to, n)
       <==> exists k :: 0 <= k < n && o == Occurrence(m, DateOf(m, k)) && InWindow(m, o.date, from, to)
  {
    if n > 0 {
      OccurrenceMembers(m, from, to, n - 1, o);
    }
  }

  /** Each movement has exactly its closed-form dates in the window, and each of them once. */
  lemma {:induction false} OccurrencesIncrease(m: Movement, from: Date, to: Date, n: nat)
    requires ValidDate(m.startDate)
    ensures var s := Occurrences(m, from, to, n);
            forall i, j :: 0 <= i < j < |s| ==> Before(s[i].date, s[j].date)
  {
    if n > 0 {
      var s := Occurrences(m, from, to, n - 1);
      OccurrencesIncrease(m, from, to, n - 1);
      forall i | 0 <= i < |s| ensures Before(s[i].date, DateOf(m, n - 1)) {
        OccurrenceMembers(m, from, to, n - 1, s[i]);
        var k :| 0 <= k < n - 1 && s[i] == Occurrence(m, DateOf(m, k));
        DatesIncrease(m, k, n - 1);
      }
    }
  }

  method ExpandMovement(m: Movement, from: Date, to: Date) returns (occurrences: seq<Occurrence>)
    requires ValidDate(m.startDate)
    ensures occurrences == Occurrences(m, from, to, Steps(m))
    ensures forall i, j :: 0 <= i < j < |occurrences| ==> Before(occurrences[i].date, occurrences[j].date)
  {
    OccurrencesIncrease(m, from, to, Steps(m));
    occurrences := [];
    var date := m.startDate;
    var end := LastDate(m, to);
    var guard := 0;
    NextDateCloses(m, 0);
    while NotAfter(date, end) && guard < MAX_STEPS
      invariant 0 <= guard <= MAX_STEPS
      invariant m.recurrence.OneOff? ==> guard == 0
      invariant date == DateOf(m, guard)
      invariant occurrences == Occurrences(m, from, to, guard)
    {
      if NotAfter(from, date) {
        occurrences := occurrences + [Occurrence(m, date)];
      }
      if m.recurrence.OneOff? {
        assert Occurrences(m, from, to, 1) == Occurrences(m, from, to, 0) + occurrences;
        return;
      }
      NextDateCloses(m, guard);
      date := NextDate(m, date);
      guard := guard + 1;
    }
    if guard < Steps(m) {
      NothingAfterLastDate(m, from, to, guard, Steps(m));
    }
  }

  // ----- what the guard loses -----

  /** Every date of the recurrence in the window is among the steps that are taken. */
  ghost predicate NothingLost(m: Movement, from: Date, to: Date) {
    forall k: nat :: InWindow(m, DateOf(m, k), from, to) ==> k < MAX_STEPS
  }

  lemma OrderOfDates(m: Movement, j: nat, k: nat)
    requires ValidDate(m.startDate)
    ensures j <= k <==> NotAfter(DateOf(m, j), DateOf(m, k))
  {
    if j < k {
      DatesIncrease(m, j, k);
    } else if k < j {
      DatesIncrease(m, k, j);
    }
  }

  /** Months from the start to `from`. */
  function MonthsUntil(start: Date, from: Date): int {
    12 * (from.year - start.year) + from.month - start.month
  }

  /** The first step of a recurrence that does not lie before `from`. */
  function FirstStep(m: Movement, from: Date): nat
    requires ValidDate(m.startDate) && ValidDate(from)
  {
    if NotAfter(from, m.startDate) then 0
    else
      OrderIsDayOrder(m.startDate, from);
      if m.recurrence.Weekly? then (DayNumber(from) - DayNumber(m.startDate) + 6) / 7
      else
        var months := MonthsUntil(m.startDate, from);
        if Before(DateOf(m, months), from) then months + 1 else months
  }

  lemma WeeklyStep(m: Movement, from: Date, k: nat)
    requires ValidDate(m.startDate) && ValidDate(from) && m.recurrence.Weekly?
    ensures Before(DateOf(m, k), from) <==> DayNumber(m.startDate) + 7 * k < DayNumber(from)
  {
    NextDateCloses(m, k);
    OrderIsDayOrder(DateOf(m, k), from);
  }

  lemma MonthlyStep(start: Date, from: Date, k: nat)
    requires ValidDate(start) && ValidDate(from)
    ensures k < MonthsUntil(start, from) ==> Before(MonthlyDate(start, k), from)
    ensures k > MonthsUntil(start, from) ==> Before(from, MonthlyDate(start, k))
  {
    var t := start.month - 1 + k;
    assert 12 * (t / 12) + t % 12 == t;
    var d := MonthlyDate(start, k);
    assert 12 * d.year + d.month - 1 == 12 * start.year + t;
    if k < MonthsUntil(start, from) {
      EarlierMonth(d, from);
    } else if k > MonthsUntil(start, from) {
      EarlierMonth(from, d);
    }
  }

  lemma EarlierMonth(a: Date, b: Date)
    requires ValidDate(a) && 1 <= b.month <= 12 && 12 * a.year + a.month < 12 * b.year + b.month
    ensures Before(a, b)
  {
  }

  /** Steps before the first one lie before `from`, the first one and later ones do not. */
  lemma FirstStepIs(m: Movement, from: Date, k: nat)
    requires ValidDate(m.startDate) && ValidDate(from) && !m.recurrence.OneOff?
    ensures k < FirstStep(m, from) <==> Before(DateOf(m, k), from)
  {
    var first := FirstStep(m, from);
    if NotAfter(from, m.startDate) {
      NextDateCloses(m, 0);
      OrderOfDates(m, 0, k);
    } else if m.recurrence.Weekly? {
      WeeklyStep(m, from, k);
    } else {
      MonthlyStep(m.startDate, from, k);
    }
  }

  /** The first step that the guard leaves out of the dates from `from` on. */
  function FirstUntaken(m: Movement, from: Date): nat
    requires ValidDate(m.startDate) && ValidDate(from)
  {
    if FirstStep(m, from) < MAX_STEPS then MAX_STEPS else FirstStep(m, from)
  }

  /** The guard loses no date of a recurrence exactly if the first date from `from` on that it does not take
      lies after the last date wanted. */
  lemma GuardLosesNothingIff(m: Movement, from: Date, to: Date)
    requires ValidDate(m.startDate) && ValidDate(from) && !m.recurrence.OneOff?
    ensures NothingLost(m, from, to) <==> Before(LastDate(m, to), DateOf(m, FirstUntaken(m, from)))
  {
    var s := FirstUntaken(m, from);
    FirstStepIs(m, from, s);
    if Before(LastDate(m, to), DateOf(m, s)) {
      forall k: nat | InWindow(m, DateOf(m, k), from, to) ensures k < MAX_STEPS {
        FirstStepIs(m, from, k);
        OrderOfDates(m, s, k);
      }
    } else {
      assert InWindow(m, DateOf(m, s), from, to);
    }
  }

  lemma NewYear(year: int)
    ensures DayNumber(Date(year, 1, 1)) == DaysBeforeYear(year) - DaysBeforeYear(1970)
  {
  }

  /** A weekly movement that started on 1 January 2014 has dates in 2026, and the guard loses all of them. */
  lemma GuardLoses2026(id: int, account: int, amount: int)
    ensures var m := Movement(id, true, Date(2014, 1, 1), None, Weekly, account, true, amount);
            var from, to := Date(2026, 1, 1), Date(2027, 1, 1);
            && !NothingLost(m, from, to)
            && Occurrences(m, from, to, Steps(m)) == []
  {
    var m := Movement(id, true, Date(2014, 1, 1), None, Weekly, account, true, amount);
    var from, to := Date(2026, 1, 1), Date(2027, 1, 1);
    NewYear(2014);
    NewYear(2026);
    NewYear(2027);
    OrderIsDayOrder(m.startDate, from);
    assert FirstStep(m, from) == 627;
    NextDateCloses(m, 627);
    OrderIsDayOrder(to, DateOf(m, 627));
    GuardLosesNothingIff(m, from, to);
    NothingBefore(m, from, to, Steps(m));
  }

  lemma {:induction false} NothingBefore(m: Movement, from: Date, to: Date, n: nat)
    requires ValidDate(m.startDate) && ValidDate(from) && !m.recurrence.OneOff? && n <= FirstStep(m, from)
    ensures Occurrences(m, from, to, n) == []
  {
    if n > 0 {
      NothingBefore(m, from, to, n - 1);
      FirstStepIs(m, from, n - 1);
    }
  }

  // ----- all movements -----

  function AllOccurrences(movements: seq<Movement>, from: Date, to: Date): seq<Occurrence> {
    if movements == [] then []
    else
      AllOccurrences(movements[..|movements| - 1], from, to) +
      var m := movements[|movements| - 1];
      if m.enabled then Occurrences(m, from, to, Steps(m)) else []
  }

  const Earlier: (Occurrence, Occurrence) -> bool := (a: Occurrence, b: Occurrence) =>
    Before(a.date, b.date) || (a.date == b.date && a.movement.id <= b.movement.id)

  method ExpandCashflowPlannedMovements(movements: seq<Movement>, dateFrom: Option<Date>, dateTo: Option<Date>)
    returns (occurrences: seq<Occurrence>)
    requires forall k :: 0 <= k < |movements| ==> ValidDate(movements[k].startDate)
    ensures dateFrom.None? || dateTo.None? || Before(dateTo.value, dateFrom.value) ==> occurrences == []
    ensures dateFrom.Some? && dateTo.Some? && NotAfter(dateFrom.value, dateTo.value) ==>
              && multiset(occurrences) == multiset(AllOccurrences(movements, dateFrom.value, dateTo.value))
              && forall i, j :: 0 <= i < j < |occurrences| ==>
                   || Before(occurrences[i].date, occurrences[j].date)
                   || (occurrences[i].date == occurrences[j].date
                       && occurrences[i].movement.id <= occurrences[j].movement.id)
  {
    if dateFrom.None? || dateTo.None? || Before(dateTo.value, dateFrom.value) {
      return [];
    }
    var from, to := dateFrom.value, dateTo.value;
    occurrences := [];
    var k := 0;
    while k < |movements|
      invariant 0 <= k <= |movements|
      invariant occurrences == AllOccurrences(movements[..k], from, to)
    {
      assert movements[..k + 1][..k] == movements[..k];
      if movements[k].enabled {
        var expanded := ExpandMovement(movements[k], from, to);
        occurrences := occurrences + expanded;
      }
      k := k + 1;
    }
    assert movements[..k] == movements;
    SortPermutes(occurrences, Earlier);
    EarlierIsPreorder();
    SortSorts(occurrences, Earlier);
    occurrences := Sort(occurrences, Earlier);
    forall i, j | 0 <= i < j < |occurrences| ensures Earlier(occurrences[i], occurrences[j]) {
    }
  }

  lemma EarlierIsPreorder()
    ensures TotalPreorder(Earlier)
  {
  }

  /** The expansion holds exactly the dates start + 7k days, or start month + k with the day clamped,
      for every enabled movement and every step within the window. */
  lemma {:induction false} ExpansionMembers(movements: seq<Movement>, from: Date, to: Date, o: Occurrence)
    ensures o in AllOccurrences(movements, from, to)
       <==> exists i, k :: 0 <= i < |movements| && 0 <= k < Steps(movements[i]) && movements[i].enabled
              && o == Occurrence(movements[i], DateOf(movements[i], k)) && InWindow(movements[i], o.date, from, to)
  {
    if movements != [] {
      var n := |movements| - 1;
      ExpansionMembers(movements[..n], from, to, o);
      OccurrenceMembers(movements[n], from, to, Steps(movements[n]), o);
    }
  }

  // ----- the expansion in terms of the movements -----

  /** `d` is the date of step `k`: `k` weeks after the start, or `k` months after it, on the day of the start
      or the last one of a shorter month. */
  predicate IsStep(m: Movement, k: nat, d: Date) {
    && ValidDate(d)
    && if m.recurrence.Weekly? then DayNumber(d) == DayNumber(m.startDate) + 7 * k
       else
         && 12 * d.year + d.month == 12 * m.startDate.year + m.startDate.month + k
         && (d.day == m.startDate.day || (d.day < m.startDate.day && d.day == DaysInMonth(d.year, d.month)))
  }

  lemma StepIs(m: Movement, k: nat, d: Date)
    requires ValidDate(m.startDate)
    ensures IsStep(m, k, d) <==> d == DateOf(m, k)
  {
    NextDateCloses(m, k);
    if m.recurrence.Weekly? {
      if ValidDate(d) {
        OrderIsDayOrder(d, DateOf(m, k));
        OrderIsDayOrder(DateOf(m, k), d);
      }
    } else {
      var t := m.startDate.month - 1 + k;
      assert 12 * (t / 12) + t % 12 == t;
      if IsStep(m, k, d) {
        SameMonth(d.year, d.month, DateOf(m, k).year, DateOf(m, k).month);
      }
    }
  }

  lemma SameMonth(y: int, m: int, year: int, month: int)
    requires 12 * y + m == 12 * year + month && 1 <= m <= 12 && 1 <= month <= 12
    ensures y == year && m == month
  {
  }

  /** An occurrence is listed exactly if it is the date of one of the first 600 steps of an enabled movement,
      of the only step if that happens once, and lies in the window and not behind the movement's end. */
  lemma {:induction false} ExpansionIs(movements: seq<Movement>, from: Date, to: Date, o: Occurrence)
    requires forall i :: 0 <= i < |movements| ==> ValidDate(movements[i].startDate)
    ensures o in AllOccurrences(movements, from, to) <==>
            exists i, k :: 0 <= i < |movements| && 0 <= k < 600 && o.movement == movements[i] && o.movement.enabled
                && (o.movement.recurrence.OneOff? ==> k == 0) && IsStep(movements[i], k, o.date)
                && NotAfter(from, o.date) && NotAfter(o.date, to)
                && (o.movement.endDate.Some? ==> NotAfter(o.date, o.movement.endDate.value))
  {
    ExpansionMembers(movements, from, to, o);
    forall i, k | 0 <= i < |movements| && 0 <= k ensures IsStep(movements[i], k, o.date) <==>
                                                          o.date == DateOf(movements[i], k) {
      StepIs(movements[i], k, o.date);
    }
    WindowIs(o.movement, o.date, from, to);
  }

  lemma WindowIs(m: Movement, date: Date, from: Date, to: Date)
    ensures InWindow(m, date, from, to) <==>
            && NotAfter(from, date) && NotAfter(date, to)
            && (m.endDate.Some? ==> NotAfter(date, m.endDate.value))
  {
  }
}
