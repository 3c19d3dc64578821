/** The date on which a buyer's remaining exposure is expected to be paid. Dates are day numbers
    counted from 1 January 1970, a Thursday. */
module ReleaseDate {
  import opened Options
  import PaymentDelay

  datatype Adjusted = Adjusted(date: Option<int>, original: Option<int>, moved: bool)

  const MAX_STEPS := 30

  /** `getUTCDay`: 0 is Sunday, 6 is Saturday. */
  function WeekDay(day: int): int {
    (day + 4) % 7
  }

  predicate IsWeekday(day: int) {
    WeekDay(day) != 0 && WeekDay(day) != 6
  }

  predicate IsFree(day: int, blocked: set<int>) {
    IsWeekday(day) && day !in blocked
  }

  /** The first free day among the next `steps` days, or none. */
  function FirstFree(day: int, blocked: set<int>, steps: nat): Option<int>
    decreases steps
  {
    if steps == 0 then None
    else if IsFree(day, blocked) then Some(day)
    else FirstFree(day + 1, blocked, steps - 1)
  }

  function Latest(a: int, b: int): int {
    if a < b then b else a
  }

  function BusinessDay(date: int, today: int, blocked: set<int>): int {
    var start := Latest(date, today);
    match FirstFree(start, blocked, MAX_STEPS)
    case Some(day) => day
    case None => start
  }

  method AdjustCreditForecastBusinessDay(date: Option<int>, today: Option<int>, blocked: set<int>)
    returns (result: Adjusted)
    ensures date.None? || today.None? ==> result == Adjusted(None, None, false)
    ensures date.Some? && today.Some? ==>
              var day := BusinessDay(date.value, today.value, blocked);
              result == Adjusted(Some(day), Some(Latest(date.value, today.value)), day != date.value)
  {
    if today.None? || date.None? {
      return Adjusted(None, None, false);
    }
    var current := date.value;
    if current < today.value {
      current := today.value;
    }
    var original := current;
    var guard := 0;
    while guard < MAX_STEPS
      invariant 0 <= guard <= MAX_STEPS
      invariant current == original + guard
      invariant FirstFree(current, blocked, MAX_STEPS - guard) == FirstFree(original, blocked, MAX_STEPS)
    {
      if WeekDay(current) != 0 && WeekDay(current) != 6 && current !in blocked {
        return Adjusted(Some(current), Some(original), current != date.value);
      }
      current := current + 1;
      guard := guard + 1;
    }
    return Adjusted(Some(original), Some(original), original != date.value);
  }

  // ----- the search -----

  lemma {:induction false} FirstFreeIsLeast(day: int, blocked: set<int>, steps: nat)
    ensures match FirstFree(day, blocked, steps)
            case Some(d) => day <= d < day + steps && IsFree(d, blocked)
                && forall e :: day <= e < d ==> !IsFree(e, blocked)
            case None => forall e :: day <= e < day + steps ==> !IsFree(e, blocked)
    decreases steps
  {
    if steps > 0 && !IsFree(day, blocked) {
      FirstFreeIsLeast(day + 1, blocked, steps - 1);
    }
  }

  /** The weekdays among `n` consecutive days. */
  function Weekdays(day: int, n: nat): set<int> {
    if n == 0 then {} else Weekdays(day, n - 1) + if IsWeekday(day + n - 1) then {day + n - 1} else {}
  }

  lemma {:induction false} WeekdaysRange(day: int, n: nat)
    ensures forall d :: d in Weekdays(day, n) <==> day <= d < day + n && IsWeekday(d)
  {
    if n > 0 {
      WeekdaysRange(day, n - 1);
    }
  }

  function Count(day: int, n: nat): nat {
    if n == 0 then 0 else Count(day, n - 1) + if IsWeekday(day + n - 1) then 1 else 0
  }

  lemma {:induction false} WeekdaysCount(day: int, n: nat)
    ensures |Weekdays(day, n)| == Count(day, n)
  {
    if n > 0 {
      WeekdaysCount(day, n - 1);
      WeekdaysRange(day, n - 1);
    }
  }

  lemma WeekHasFiveWeekdays(day: int, n: nat)
    ensures Count(day, n + 7) == Count(day, n) + 5
  {
    var d := day + n;
    CountStep(day, n);
    CountStep(day, n + 1);
    CountStep(day, n + 2);
    CountStep(day, n + 3);
    CountStep(day, n + 4);
    CountStep(day, n + 5);
    CountStep(day, n + 6);
    WeekCycle(d);
  }

  lemma CountStep(day: int, n: nat)
    ensures Count(day, n + 1) == Count(day, n) + if IsWeekday(day + n) then 1 else 0
  {
  }

  /** Of seven days in a row, two fall on the weekend. */
  lemma WeekCycle(d: int)
    ensures (if IsWeekday(d) then 1 else 0) + (if IsWeekday(d + 1) then 1 else 0) + (if IsWeekday(d + 2) then 1 else 0)
          + (if IsWeekday(d + 3) then 1 else 0) + (if IsWeekday(d + 4) then 1 else 0)
              + (if IsWeekday(d + 5) then 1 else 0)
          + (if IsWeekday(d + 6) then 1 else 0) == 5
  {
  }

  /** Thirty days in a row hold at least twenty weekdays. */
  lemma {:induction false} ThirtyDaysHoldTwenty(day: int)
    ensures Count(day, 30) >= 20
  {
    WeekHasFiveWeekdays(day, 2);
    WeekHasFiveWeekdays(day, 9);
    WeekHasFiveWeekdays(day, 16);
    WeekHasFiveWeekdays(day, 23);
  }

  lemma SmallerSet(a: set<int>, b: set<int>)
    requires a <= b
    ensures |a| <= |b|
  {
    assert b == a + (b - a);
  }

  /** With fewer than twenty blocked dates the search always finds a free weekday. */
  lemma {:induction false} SearchSucceeds(day: int, blocked: set<int>)
    requires |blocked| < 20
    ensures FirstFree(day, blocked, 30).Some?
  {
    FirstFreeIsLeast(day, blocked, 30);
    if FirstFree(day, blocked, 30).None? {
      WeekdaysRange(day, 30);
      WeekdaysCount(day, 30);
      ThirtyDaysHoldTwenty(day);
      forall d | d in Weekdays(day, 30) ensures d in blocked {
        assert !IsFree(d, blocked);
      }
      SmallerSet(Weekdays(day, 30), blocked);
    }
  }

  /** The adjusted date is the first free weekday from the later of date and today on. */
  lemma BusinessDayIsLeast(date: int, today: int, blocked: set<int>)
    requires |blocked| < 20
    ensures var day := BusinessDay(date, today, blocked);
            && day >= Latest(date, today)
            && IsFree(day, blocked)
            && forall e :: Latest(date, today) <= e < day ==> !IsFree(e, blocked)
  {
    var start := Latest(date, today);
    SearchSucceeds(start, blocked);
    FirstFreeIsLeast(start, blocked, MAX_STEPS);
  }

  /** The search ends on a free weekday exactly when one of the thirty days from the start on is free. */
  lemma BusinessDayIsFreeIff(date: int, today: int, blocked: set<int>)
    ensures IsFree(BusinessDay(date, today, blocked), blocked) <==>
            exists d :: Latest(date, today) <= d < Latest(date, today) + 30 && IsFree(d, blocked)
  {
    FirstFreeIsLeast(Latest(date, today), blocked, MAX_STEPS);
  }

  /** Twenty blocked dates can defeat the search: from Saturday 3 January 1970, with the weekdays of
      the next four weeks blocked, the date stays on the Saturday. */
  lemma TwentyBlockedDatesSuffice()
    ensures |Weekdays(2, 30)| == 20
    ensures BusinessDay(2, 2, Weekdays(2, 30)) == 2 && !IsFree(2, Weekdays(2, 30))
  {
    WeekdaysCount(2, 30);
    WeekdaysRange(2, 30);
    WeekHasFiveWeekdays(2, 2);
    WeekHasFiveWeekdays(2, 9);
    WeekHasFiveWeekdays(2, 16);
    WeekHasFiveWeekdays(2, 23);
    assert Count(2, 2) == 0;
    FirstFreeIsLeast(2, Weekdays(2, 30), MAX_STEPS);
  }

  /** Whatever is blocked, and even where the search gives up, a later date is never adjusted to an
      earlier day, and no date is adjusted into the past. */
  lemma BusinessDayMonotone(a: int, b: int, today: int, blocked: set<int>)
    requires a <= b
    ensures today <= BusinessDay(a, today, blocked) <= BusinessDay(b, today, blocked)
  {
    FirstFreeIsLeast(Latest(a, today), blocked, MAX_STEPS);
    FirstFreeIsLeast(Latest(b, today), blocked, MAX_STEPS);
  }

  // ----- the release candidate -----

  datatype Source =
    | BuyerInvoiceDue | CashflowInvoiceDue | StemInvoiceDue | ExpectedDeliveryTerm
    | PastDueUnknown | Unknown | PaymentForecast

  datatype Candidate = Candidate(date: Option<int>, missed: Option<int>, source: Source)

  /** What says when a STEM is due: the due dates of its invoices and cashflows, its own due date, and
      the delivery date plus payment term, none where the due date is overridden. */
  datatype DueEvidence = DueEvidence(invoices: seq<Option<int>>, cashflows: seq<Option<int>>, stemDue: Option<int>,
      expected: Option<int>)

  /** The earliest of the dates that are there. */
  function Earliest(dates: seq<Option<int>>): (earliest: Option<int>)
    ensures earliest.None? <==> forall k :: 0 <= k < |dates| ==> dates[k].None?
    ensures earliest.Some? ==> earliest in dates
    ensures earliest.Some? ==> forall k :: 0 <= k < |dates| && dates[k].Some? ==> earliest.value <= dates[k].value
  {
    if dates == [] then None
    else
      var rest := Earliest(dates[1..]);
      if dates[0].None? || (rest.Some? && rest.value < dates[0].value) then rest else dates[0]
  }

  /** Invoices before cashflows before the STEM's own due date before the delivery term. */
  function Due(e: DueEvidence): Option<int> {
    if Earliest(e.invoices).Some? then Earliest(e.invoices)
    else if Earliest(e.cashflows).Some? then Earliest(e.cashflows)
    else if e.stemDue.Some? then e.stemDue
    else e.expected
  }

  function DueSource(e: DueEvidence): Source {
    if Earliest(e.invoices).Some? then BuyerInvoiceDue
    else if Earliest(e.cashflows).Some? then CashflowInvoiceDue
    else if e.stemDue.Some? then StemInvoiceDue
    else ExpectedDeliveryTerm
  }

  function ContractualCandidate(e: DueEvidence, today: int): Candidate {
    var due := Due(e);
    if due.None? then Candidate(None, None, Unknown)
    else if due.value < today then Candidate(None, due, PastDueUnknown)
    else Candidate(due, None, DueSource(e))
  }

  function ReleaseCandidate(e: DueEvidence, today: int, delay: Option<int>, blocked: set<int>): Candidate {
    var contractual := ContractualCandidate(e, today);
    if contractual.date.None? && contractual.missed.None? then contractual
    else if delay.None? then contractual
    else
      var contractualDate := if contractual.date.Some? then contractual.date.value else contractual.missed.value;
      Candidate(Some(BusinessDay(contractualDate + delay.value, today, blocked)), None, PaymentForecast)
  }

  /** `d` is the earliest of the dates that are there. */
  predicate IsEarliest(dates: seq<Option<int>>, d: int) {
    && (exists k :: 0 <= k < |dates| && dates[k] == Some(d))
    && (forall k :: 0 <= k < |dates| && dates[k].Some? ==> d <= dates[k].value)
  }

  predicate NoDate(dates: seq<Option<int>>) {
    forall k :: 0 <= k < |dates| ==> dates[k].None?
  }

  /** The STEM is due on `d`, by that evidence: the earliest invoice, else the earliest cashflow, else the
      STEM's own due date, else the delivery term. */
  predicate IsDueBy(e: DueEvidence, d: int, source: Source) {
    match source
    case BuyerInvoiceDue => IsEarliest(e.invoices, d)
    case CashflowInvoiceDue => NoDate(e.invoices) && IsEarliest(e.cashflows, d)
    case StemInvoiceDue => NoDate(e.invoices) && NoDate(e.cashflows) && e.stemDue == Some(d)
    case ExpectedDeliveryTerm => NoDate(e.invoices) && NoDate(e.cashflows) && e.stemDue.None? && e.expected == Some(d)
    case _ => false
  }

  lemma {:induction false} EarliestIs(dates: seq<Option<int>>, d: int)
    ensures Earliest(dates) == Some(d) <==> IsEarliest(dates, d)
    ensures Earliest(dates).None? <==> NoDate(dates)
  {
  }

  /** Without a payment model the candidate is the due date, or none with a missed one if that is past; with
      one it is the due date plus the predicted delay, moved to a business day. */
  lemma CandidateIs(e: DueEvidence, today: int, delay: Option<int>, blocked: set<int>, d: int, source: Source)
    requires IsDueBy(e, d, source)
    ensures var c := ReleaseCandidate(e, today, delay, blocked);
            && (delay.None? && d >= today ==> c == Candidate(Some(d), None, source))
            && (delay.None? && d < today ==> c == Candidate(None, Some(d), PastDueUnknown))
            && (delay.Some? ==>
                  c == Candidate(Some(BusinessDay(d + delay.value, today, blocked)), None, PaymentForecast))
  {
    EarliestIs(e.invoices, d);
    EarliestIs(e.cashflows, d);
  }

  /** A candidate date is never in the past, and there is none exactly if nothing says when the STEM is
      due, or it is overdue and no payment model predicts a delay. */
  lemma CandidateFacts(e: DueEvidence, today: int, delay: Option<int>, blocked: set<int>)
    ensures var c := ReleaseCandidate(e, today, delay, blocked);
            && (c.date.Some? ==> c.date.value >= today)
            && (c.date.None? <==> Due(e).None? || (delay.None? && Due(e).value < today))
            && (Due(e).None? <==> (forall k :: 0 <= k < |e.invoices| ==> e.invoices[k].None?) &&
                                  (forall k :: 0 <= k < |e.cashflows| ==> e.cashflows[k].None?) && e.stemDue.None?
                                      && e.expected.None?)
  {
    if Due(e).Some? && delay.Some? {
      BusinessDayMonotone(Due(e).value + delay.value, Due(e).value + delay.value, today, blocked);
    }
  }

  lemma LongerDelayIsNotEarlier(e: DueEvidence, today: int, a: int, b: int, blocked: set<int>)
    requires a <= b && Due(e).Some?
    ensures var early, late := ReleaseCandidate(e, today, Some(a), blocked),
            ReleaseCandidate(e, today, Some(b), blocked);
            early.date.Some? && late.date.Some? && early.date.value <= late.date.value
  {
    BusinessDayMonotone(Due(e).value + a, Due(e).value + b, today, blocked);
  }

  /** The date modelled from the payments of a buyer, its group or everyone. */
  function ModelledDate(e: DueEvidence, today: int, blocked: set<int>, samples: seq<PaymentDelay.Sample>,
                        buyer: Option<int>,
                        group: Option<int>, minBuyer: nat, minGroup: nat, weight: PaymentDelay.Sample -> real,
                        c: PaymentDelay.Conservativeness): Option<int>
  {
    ReleaseCandidate(e, today, Some(PaymentDelay.PredictedDelay(samples, buyer, group, minBuyer, minGroup, weight, c)),
        blocked).date
  }

  /** A more conservative forecast is never earlier: with the delays predicted from the same payments,
      the typical date comes no later than the cautious one, and that no later than the severe one. */
  lemma ConservativeIsNeverEarlier(
      e: DueEvidence, today: int, blocked: set<int>, samples: seq<PaymentDelay.Sample>,
      buyer: Option<int>, group: Option<int>, minBuyer: nat, minGroup: nat,
      weight: PaymentDelay.Sample -> real)
    requires PaymentDelay.Positive(weight) && Due(e).Some?
    ensures var typical := ModelledDate(e, today, blocked, samples, buyer, group, minBuyer, minGroup, weight,
            PaymentDelay.Typical);
            var cautious := ModelledDate(e, today, blocked, samples, buyer, group, minBuyer, minGroup, weight,
                PaymentDelay.Cautious);
            var severe := ModelledDate(e, today, blocked, samples, buyer, group, minBuyer, minGroup, weight,
                PaymentDelay.Severe);
            typical.Some? && cautious.Some? && severe.Some? && typical.value <= cautious.value <= severe.value
  {
    var typical := PaymentDelay.PredictedDelay(samples, buyer, group, minBuyer, minGroup, weight, PaymentDelay.Typical);
    var cautious := PaymentDelay.PredictedDelay(samples, buyer, group, minBuyer, minGroup, weight,
        PaymentDelay.Cautious);
    var severe := PaymentDelay.PredictedDelay(samples, buyer, group, minBuyer, minGroup, weight, PaymentDelay.Severe);
    PaymentDelay.PredictedDelayOrdered(samples, buyer, group, minBuyer, minGroup, weight);
    LongerDelayIsNotEarlier(e, today, typical, cautious, blocked);
    LongerDelayIsNotEarlier(e, today, cautious, severe, blocked);
  }
}
