/** What the account owes its suppliers and when it is due to leave: every issued invoice and every
    cost without an invoice is spread over dated events, and what has no date stays undated. Money is
    in whole cents, so the half-cent tolerance is zero. */
module SupplierForecast {
  import opened Integers
  import opened Options
  import opened Sorting
  import opened SupplierEstimate

  datatype Cashflow = Cashflow(id: int, scheduled: Option<int>, due: Option<int>, amount: Option<int>)

  datatype Source = ScheduledPayment | CashflowDue | PartialDue | InvoiceDue | DeliveryTerm

  datatype Event = Event(date: int, amount: int, source: Source)

  datatype Forecast = Forecast(events: seq<Event>, undated: int)

  // ----- the order of the cashflows -----

  function SortDate(c: Cashflow): Option<int> {
    if c.scheduled.Some? then c.scheduled else c.due
  }

  /** No date sorts first, as an empty text does. */
  predicate ByDateThenId(a: Cashflow, b: Cashflow) {
    var x, y := SortDate(a), SortDate(b);
    if x == y then a.id <= b.id else x.None? || (y.Some? && x.value < y.value)
  }

  // ----- pouring -----

  function PayDate(c: Cashflow, today: int, allowInvoiceDue: bool): Option<int> {
    var date := if c.scheduled.Some? then c.scheduled else if allowInvoiceDue then c.due else None;
    if date.Some? && date.value >= today then date else None
  }

  /** The most a cashflow can take; none says that it takes everything. */
  function Cap(c: Cashflow): Option<int> {
    if c.amount.Some? && c.amount.value > 0 then c.amount else None
  }

  function Taken(c: Cashflow, remaining: int): int {
    if Cap(c).Some? then Min(remaining, Cap(c).value) else remaining
  }

  function EventOf(c: Cashflow, date: int, amount: int): Event {
    Event(date, amount, if c.scheduled.Some? then ScheduledPayment else CashflowDue)
  }

  /** Cashflow after cashflow until nothing is left. */
  function Pour(cashflows: seq<Cashflow>, remaining: int, today: int, allowInvoiceDue: bool): Forecast {
    if cashflows == [] || remaining <= 0 then Forecast([], remaining)
    else
      var date, taken := PayDate(cashflows[0], today, allowInvoiceDue), Taken(cashflows[0], remaining);
      if date.None? then Pour(cashflows[1..], remaining, today, allowInvoiceDue)
      else
        var more := Pour(cashflows[1..], remaining - taken, today, allowInvoiceDue);
        Forecast([EventOf(cashflows[0], date.value, taken)] + more.events, more.undated)
  }

  function Floored(obligation: Option<int>): int {
    if obligation.None? then 0 else Max(0, obligation.value)
  }

  method CashflowEventsForAmount(cashflows: seq<Cashflow>, obligation: Option<int>, today: int, allowInvoiceDue: bool)
    returns (events: seq<Event>, remaining: int)
    ensures Forecast(events, remaining) == Pour(Sort(cashflows, ByDateThenId), Floored(obligation), today,
            allowInvoiceDue)
  {
    events, remaining := [], Floored(obligation);
    var ordered := Sort(cashflows, ByDateThenId);
    ghost var whole := Pour(ordered, remaining, today, allowInvoiceDue);
    var k := 0;
    while k < |ordered|
      invariant 0 <= k <= |ordered| && remaining >= 0
      invariant var more := Pour(ordered[k..], remaining, today, allowInvoiceDue);
                whole == Forecast(events + more.events, more.undated)
    {
      if remaining <= 0 {
        break;
      }
      var cashflow := ordered[k];
      assert ordered[k..][0] == cashflow && ordered[k..][1..] == ordered[k + 1..];
      var date := if cashflow.scheduled.Some? then cashflow.scheduled else if allowInvoiceDue then cashflow.due
          else None;
      k := k + 1;
      if date.None? || date.value < today {
        continue;
      }
      var release := Min(remaining, if cashflow.amount.Some? && cashflow.amount.value > 0 then cashflow.amount.value
          else remaining);
      var event := Event(date.value, release, if cashflow.scheduled.Some? then ScheduledPayment else CashflowDue);
      Regroup(events, [event], Pour(ordered[k..], remaining - release, today, allowInvoiceDue).events);
      events := events + [event];
      remaining := remaining - release;
    }
    assert events + [] == events;
  }

  // ----- issued invoices -----

  datatype Invoice = Invoice(payable: Option<int>, partialDate: Option<int>, partialAmount: Option<int>,
      due: Option<int>)

  function TakePartial(f: Forecast, invoice: Invoice, today: int): Forecast {
    if f.undated > 0 && invoice.partialDate.Some? && invoice.partialDate.value >= today
       && invoice.partialAmount.Some? && invoice.partialAmount.value > 0 then
      var release := Min(f.undated, invoice.partialAmount.value);
      Forecast(f.events + [Event(invoice.partialDate.value, release, PartialDue)], f.undated - release)
    else f
  }

  function TakeRest(f: Forecast, date: Option<int>, source: Source, today: int): Forecast {
    if f.undated > 0 && date.Some? && date.value >= today
        then Forecast(f.events + [Event(date.value, f.undated, source)], 0) else f
  }

  function InvoiceForecast(invoice: Invoice, cashflows: seq<Cashflow>, payable: int, today: int): Forecast {
    TakeRest(TakePartial(Pour(Sort(cashflows, ByDateThenId), Max(0, payable), today, false), invoice, today),
             invoice.due, InvoiceDue, today)
  }

  method InvoiceForecastEvents(invoice: Invoice, cashflows: seq<Cashflow>, payable: int, today: int)
    returns (forecast: Forecast)
    ensures forecast == InvoiceForecast(invoice, cashflows, payable, today)
  {
    var events, remaining := CashflowEventsForAmount(cashflows, Some(payable), today, false);
    if remaining > 0 && invoice.partialDate.Some? && invoice.partialDate.value >= today
       && invoice.partialAmount.Some? && invoice.partialAmount.value > 0 {
      var release := Min(remaining, invoice.partialAmount.value);
      events := events + [Event(invoice.partialDate.value, release, PartialDue)];
      remaining := remaining - release;
    }
    if remaining > 0 && invoice.due.Some? && invoice.due.value >= today {
      events := events + [Event(invoice.due.value, remaining, InvoiceDue)];
      remaining := 0;
    }
    return Forecast(events, remaining);
  }

  // ----- costs without an invoice -----

  /** `stem`, `supplier` and `currency` together name the row that a cost belongs to. */
  datatype Key = Key(stem: int, supplier: int, currency: int)

  datatype Child = Child(key: Key, cost: Cost, cashflows: seq<Cashflow>, term: Option<nat>, delivery: Option<int>) {
    function Estimated(): Estimate {
      EstimateUninvoicedSupplierChild(cost)
    }
  }

  function DueDates(cashflows: seq<Cashflow>, today: int): seq<int> {
    if cashflows == [] then []
    else
      (if cashflows[0].due.Some? && cashflows[0].due.value >= today then [cashflows[0].due.value] else []) +
      DueDates(cashflows[1..], today)
  }

  /** The earliest due date from today on, else the delivery date plus the payment term. */
  function EstimatedDate(child: Child, today: int): Option<int> {
    var dates := DistinctDates(DueDates(child.cashflows, today));
    if dates != [] then Some(dates[0])
    else if child.delivery.Some? && child.term.Some? then Some(child.delivery.value + child.term.value)
    else None
  }

  function EstimatedSource(child: Child, today: int): Source {
    if DueDates(child.cashflows, today) != [] then CashflowDue else DeliveryTerm
  }

  function ChildForecast(child: Child, amount: int, today: int): Forecast {
    TakeRest(Pour(Sort(child.cashflows, ByDateThenId), Max(0, amount), today, true),
             EstimatedDate(child, today), EstimatedSource(child, today), today)
  }

  lemma {:induction false} DistinctDatesEmpty(dates: seq<int>)
    ensures DistinctDates(dates) == [] <==> dates == []
  {
    if dates != [] {
      DistinctDatesOrder(dates);
      assert dates[0] in DistinctDates(dates);
    }
  }

  method UninvoicedChildForecast(child: Child, amount: int, today: int) returns (forecast: Forecast)
    ensures forecast == ChildForecast(child, amount, today)
  {
    var events, remaining := CashflowEventsForAmount(child.cashflows, Some(amount), today, true);
    DistinctDatesEmpty(DueDates(child.cashflows, today));
    if remaining > 0 {
      var dueDates := DistinctDates(DueDates(child.cashflows, today));
      var estimated: Option<int> := None;
      if dueDates != [] {
        estimated := Some(dueDates[0]);
      } else if child.delivery.Some? && child.term.Some? {
        estimated := Some(child.delivery.value + child.term.value);
      }
      if estimated.Some? && estimated.value >= today {
        events := events + [Event(estimated.value, remaining, if dueDates != [] then CashflowDue else DeliveryTerm)];
        remaining := 0;
      }
    }
    return Forecast(events, remaining);
  }

  // ----- conservation -----

  function Total(events: seq<Event>): int {
    if events == [] then 0 else events[0].amount + Total(events[1..])
  }

  lemma {:induction false} TotalAppend(a: seq<Event>, b: seq<Event>)
    ensures Total(a + b) == Total(a) + Total(b)
  {
    if a == [] {
      assert a + b == b;
    } else {
      assert (a + b)[1..] == a[1..] + b;
      TotalAppend(a[1..], b);
    }
  }

  ghost predicate EventsAhead(events: seq<Event>, today: int) {
    forall k :: 0 <= k < |events| ==> events[k].amount > 0 && events[k].date >= today
  }

  /** All of the obligation is either in a positive event dated today or later, or undated. */
  ghost predicate Spreads(f: Forecast, obligation: int, today: int) {
    Total(f.events) + f.undated == obligation && f.undated >= 0 && EventsAhead(f.events, today)
  }

  lemma {:induction false} PourSpreads(cashflows: seq<Cashflow>, remaining: int, today: int, allowInvoiceDue: bool)
    requires remaining >= 0
    ensures Spreads(Pour(cashflows, remaining, today, allowInvoiceDue), remaining, today)
  {
    if cashflows != [] && remaining > 0 {
      var taken := Taken(cashflows[0], remaining);
      PourSpreads(cashflows[1..], remaining, today, allowInvoiceDue);
      PourSpreads(cashflows[1..], remaining - taken, today, allowInvoiceDue);
    }
  }

  lemma OneMore(f: Forecast, event: Event, obligation: int, today: int)
    requires Spreads(f, obligation, today) && 0 < event.amount <= f.undated && event.date >= today
    ensures Spreads(Forecast(f.events + [event], f.undated - event.amount), obligation, today)
  {
    TotalAppend(f.events, [event]);
  }

  lemma TakeRestSpreads(f: Forecast, date: Option<int>, source: Source, obligation: int, today: int)
    requires Spreads(f, obligation, today)
    ensures Spreads(TakeRest(f, date, source, today), obligation, today)
  {
    if f.undated > 0 && date.Some? && date.value >= today {
      OneMore(f, Event(date.value, f.undated, source), obligation, today);
    }
  }

  /** An invoice's payable balance is conserved. */
  lemma InvoiceConserves(invoice: Invoice, cashflows: seq<Cashflow>, payable: int, today: int)
    ensures Spreads(InvoiceForecast(invoice, cashflows, payable, today), Max(0, payable), today)
  {
    var f := Pour(Sort(cashflows, ByDateThenId), Max(0, payable), today, false);
    PourSpreads(Sort(cashflows, ByDateThenId), Max(0, payable), today, false);
    if f.undated > 0 && invoice.partialDate.Some? && invoice.partialDate.value >= today
       && invoice.partialAmount.Some? && invoice.partialAmount.value > 0 {
      OneMore(f, Event(invoice.partialDate.value, Min(f.undated, invoice.partialAmount.value), PartialDue),
          Max(0, payable), today);
    }
    TakeRestSpreads(TakePartial(f, invoice, today), invoice.due, InvoiceDue, Max(0, payable), today);
  }

  /** A cost estimate is conserved; a negative one leaves nothing. */
  lemma ChildConserves(child: Child, amount: int, today: int)
    ensures Spreads(ChildForecast(child, amount, today), Max(0, amount), today)
  {
    var ordered := Sort(child.cashflows, ByDateThenId);
    PourSpreads(ordered, Max(0, amount), today, true);
    TakeRestSpreads(Pour(ordered, Max(0, amount), today, true), EstimatedDate(child, today),
        EstimatedSource(child, today),
                    Max(0, amount), today);
  }

  // ----- the pour is greedy -----

  /** The cashflow pays today or later: on its scheduled date, or, if it has none and that is allowed, when it
      is due. */
  predicate PaysAhead(c: Cashflow, today: int, allowInvoiceDue: bool) {
    || (c.scheduled.Some? && c.scheduled.value >= today)
    || (c.scheduled.None? && allowInvoiceDue && c.due.Some? && c.due.value >= today)
  }

  predicate Bounded(c: Cashflow) {
    c.amount.Some? && c.amount.value > 0
  }

  /** The most the cashflows can take together; none says that there is no bound. */
  function Capacity(cashflows: seq<Cashflow>, today: int, allowInvoiceDue: bool): Option<int> {
    if cashflows == [] then Some(0)
    else
      var more := Capacity(cashflows[1..], today, allowInvoiceDue);
      if !PaysAhead(cashflows[0], today, allowInvoiceDue) then more
      else if !Bounded(cashflows[0]) || more.None? then None
      else Some(cashflows[0].amount.value + more.value)
  }

  /** What the next cashflow takes of what the ones before it leave: all of it, or its own amount. */
  function NextEvent(c: Cashflow, left: int, today: int, allowInvoiceDue: bool): seq<Event> {
    if left <= 0 || !PaysAhead(c, today, allowInvoiceDue) then []
    else
      var amount := if Bounded(c) && c.amount.value < left then c.amount.value else left;
      if c.scheduled.Some? then [Event(c.scheduled.value, amount, ScheduledPayment)]
      else [Event(c.due.value, amount, CashflowDue)]
  }

  lemma FirstPours(cashflows: seq<Cashflow>, remaining: int, today: int, allowInvoiceDue: bool)
    requires cashflows != [] && remaining >= 0
    ensures var next := NextEvent(cashflows[0], remaining, today, allowInvoiceDue);
            var more := Pour(cashflows[1..], remaining - Total(next), today, allowInvoiceDue);
            && 0 <= Total(next) <= remaining
            && Pour(cashflows, remaining, today, allowInvoiceDue) == Forecast(next + more.events, more.undated)
  {
    var next := NextEvent(cashflows[0], remaining, today, allowInvoiceDue);
    assert Total(next) == if next == [] then 0 else next[0].amount;
    if remaining == 0 {
      NothingPours(cashflows[1..], today, allowInvoiceDue);
    }
  }

  lemma {:induction false} NothingPours(cashflows: seq<Cashflow>, today: int, allowInvoiceDue: bool)
    ensures Pour(cashflows, 0, today, allowInvoiceDue) == Forecast([], 0)
  {
  }

  /** Cashflow by cashflow: each one adds its event behind those of the earlier ones. */
  lemma {:induction false} PourStep(cashflows: seq<Cashflow>, c: Cashflow, remaining: int, today: int,
                                    allowInvoiceDue: bool)
    requires remaining >= 0
    ensures var before := Pour(cashflows, remaining, today, allowInvoiceDue);
            var next := NextEvent(c, before.undated, today, allowInvoiceDue);
            Pour(cashflows + [c], remaining, today, allowInvoiceDue) ==
            Forecast(before.events + next, before.undated - Total(next))
    decreases |cashflows|
  {
    if cashflows == [] {
      assert [] + [c] == [c] && [c][1..] == [];
      FirstPours([c], remaining, today, allowInvoiceDue);
    } else {
      var all, rest := cashflows + [c], cashflows[1..];
      var next := NextEvent(cashflows[0], remaining, today, allowInvoiceDue);
      assert all[0] == cashflows[0] && all[1..] == rest + [c];
      FirstPours(cashflows, remaining, today, allowInvoiceDue);
      FirstPours(all, remaining, today, allowInvoiceDue);
      PourStep(rest, c, remaining - Total(next), today, allowInvoiceDue);
      var more := Pour(rest, remaining - Total(next), today, allowInvoiceDue);
      Regroup(next, more.events, NextEvent(c, more.undated, today, allowInvoiceDue));
    }
  }

  lemma {:induction false} CapacityNonNegative(cashflows: seq<Cashflow>, today: int, allowInvoiceDue: bool)
    ensures var c := Capacity(cashflows, today, allowInvoiceDue); c.Some? ==> c.value >= 0
  {
    if cashflows != [] {
      CapacityNonNegative(cashflows[1..], today, allowInvoiceDue);
    }
  }

  lemma {:induction false} PourTakes(cashflows: seq<Cashflow>, remaining: int, today: int, allowInvoiceDue: bool)
    requires remaining >= 0
    ensures var capacity := Capacity(cashflows, today, allowInvoiceDue);
            Total(Pour(cashflows, remaining, today, allowInvoiceDue).events) ==
            (if capacity.None? then remaining else Min(remaining, capacity.value))
  {
    CapacityNonNegative(cashflows, today, allowInvoiceDue);
    if cashflows != [] {
      var rest, next := cashflows[1..], NextEvent(cashflows[0], remaining, today, allowInvoiceDue);
      FirstPours(cashflows, remaining, today, allowInvoiceDue);
      CapacityNonNegative(rest, today, allowInvoiceDue);
      PourTakes(rest, remaining - Total(next), today, allowInvoiceDue);
      TotalAppend(next, Pour(rest, remaining - Total(next), today, allowInvoiceDue).events);
    }
  }

  lemma PrefixAfter(first: seq<Event>, a: seq<Event>, b: seq<Event>)
    requires a <= b
    ensures first + a <= first + b
  {
  }

  lemma {:induction false} FirstOnesComeFirst(cashflows: seq<Cashflow>, k: nat, remaining: int, today: int,
                                              allowInvoiceDue: bool)
    requires k <= |cashflows| && remaining >= 0
    ensures Pour(cashflows[..k], remaining, today, allowInvoiceDue).events
         <= Pour(cashflows, remaining, today, allowInvoiceDue).events
  {
    if k > 0 {
      var rest, next := cashflows[1..], NextEvent(cashflows[0], remaining, today, allowInvoiceDue);
      assert cashflows[..k][1..] == rest[..k - 1] && cashflows[..k][0] == cashflows[0];
      FirstPours(cashflows, remaining, today, allowInvoiceDue);
      FirstPours(cashflows[..k], remaining, today, allowInvoiceDue);
      FirstOnesComeFirst(rest, k - 1, remaining - Total(next), today, allowInvoiceDue);
      PrefixAfter(next, Pour(rest[..k - 1], remaining - Total(next), today, allowInvoiceDue).events,
                  Pour(rest, remaining - Total(next), today, allowInvoiceDue).events);
    }
  }

  /** What the first cashflows take is everything, or everything they can take. */
  lemma {:induction false} PourIsGreedy(cashflows: seq<Cashflow>, k: nat, remaining: int, today: int,
                                        allowInvoiceDue: bool)
    requires k <= |cashflows| && remaining >= 0
    ensures var first, capacity := Pour(cashflows[..k], remaining, today, allowInvoiceDue),
            Capacity(cashflows[..k], today, allowInvoiceDue);
            && Total(first.events) == (if capacity.None? then remaining else Min(remaining, capacity.value))
            && first.events <= Pour(cashflows, remaining, today, allowInvoiceDue).events
  {
    PourTakes(cashflows[..k], remaining, today, allowInvoiceDue);
    FirstOnesComeFirst(cashflows, k, remaining, today, allowInvoiceDue);
  }

  lemma CashflowOrder()
    ensures TotalPreorder(ByDateThenId)
  {
  }

  /** The scheduled date, else the due date; no date comes first. */
  predicate NotLater(a: Cashflow, b: Cashflow) {
    var x, y := if a.scheduled.Some? then a.scheduled else a.due, if b.scheduled.Some? then b.scheduled else b.due;
    || (x.None? && y.Some?)
    || (x.Some? && y.Some? && x.value < y.value)
    || (x == y && a.id <= b.id)
  }

  /** The cashflows are poured in date order, then by Id, and their input order does not show when no two
      share an Id. */
  lemma {:induction false} CashflowsInDateOrder(cashflows: seq<Cashflow>, other: seq<Cashflow>)
    requires multiset(cashflows) == multiset(other)
    requires DistinctBy(cashflows, (c: Cashflow) => c.id)
    ensures var sorted := Sort(cashflows, ByDateThenId);
            && multiset(sorted) == multiset(cashflows)
            && (forall i, j :: 0 <= i < j < |sorted| ==> NotLater(sorted[i], sorted[j]))
    ensures Sort(cashflows, ByDateThenId) == Sort(other, ByDateThenId)
  {
    var sorted := Sort(cashflows, ByDateThenId);
    CashflowOrder();
    SortSorts(cashflows, ByDateThenId);
    SortPermutes(cashflows, ByDateThenId);
    forall i, j | 0 <= i < j < |sorted| ensures NotLater(sorted[i], sorted[j]) {
      assert ByDateThenId(sorted[i], sorted[j]);
    }
    forall x, y | x in cashflows && y in cashflows && ByDateThenId(x, y) && ByDateThenId(y, x) ensures x == y {
      var i :| 0 <= i < |cashflows| && cashflows[i] == x;
      var j :| 0 <= j < |cashflows| && cashflows[j] == y;
      SameKeySamePlace(cashflows, (c: Cashflow) => c.id, i, j);
    }
    SortIgnoresOrder(cashflows, other, ByDateThenId);
  }

  // ----- where the money goes -----

  /** What the events of one source amount to. */
  function TotalFrom(events: seq<Event>, source: Source): int {
    if events == [] then 0
    else (if events[0].source == source then events[0].amount else 0) + TotalFrom(events[1..], source)
  }

  ghost predicate DatedBy(events: seq<Event>, source: Source, date: Option<int>) {
    forall k :: 0 <= k < |events| && events[k].source == source ==> Some(events[k].date) == date
  }

  lemma {:induction false} TotalFromAppend(a: seq<Event>, b: seq<Event>, source: Source)
    ensures TotalFrom(a + b, source) == TotalFrom(a, source) + TotalFrom(b, source)
  {
    if a == [] {
      assert a + b == b;
    } else {
      assert (a + b)[1..] == a[1..] + b;
      TotalFromAppend(a[1..], b, source);
    }
  }

  /** What a number of cashflows leave of an amount: nothing if one of them has no bound. */
  function LeftBy(amount: int, capacity: Option<int>): int {
    if capacity.None? || capacity.value >= amount then 0 else amount - capacity.value
  }

  lemma {:induction false} PourSources(cashflows: seq<Cashflow>, remaining: int, today: int, allowInvoiceDue: bool,
                                       source: Source)
    requires source != ScheduledPayment && source != CashflowDue
    ensures var f := Pour(cashflows, remaining, today, allowInvoiceDue);
            TotalFrom(f.events, source) == 0 && forall k :: 0 <= k < |f.events| ==> f.events[k].source != source
  {
    if cashflows != [] && remaining > 0 {
      PourSources(cashflows[1..], remaining, today, allowInvoiceDue, source);
      PourSources(cashflows[1..], remaining - Taken(cashflows[0], remaining), today, allowInvoiceDue, source);
    }
  }

  lemma {:induction false} PourLeaves(cashflows: seq<Cashflow>, remaining: int, today: int, allowInvoiceDue: bool)
    requires remaining >= 0
    ensures Pour(cashflows, remaining, today, allowInvoiceDue).undated
         == LeftBy(remaining, Capacity(cashflows, today, allowInvoiceDue))
  {
    PourTakes(cashflows, remaining, today, allowInvoiceDue);
    PourSpreads(cashflows, remaining, today, allowInvoiceDue);
    CapacityNonNegative(cashflows, today, allowInvoiceDue);
  }

  predicate IsAhead(date: Option<int>, today: int) {
    date.Some? && date.value >= today
  }

  /** What the partial due date of an invoice can take. */
  function PartialRoom(invoice: Invoice, today: int): int {
    if IsAhead(invoice.partialDate, today) && invoice.partialAmount.Some? && invoice.partialAmount.value > 0
    then invoice.partialAmount.value else 0
  }

  lemma PartialGoes(f: Forecast, invoice: Invoice, today: int)
    requires f.undated >= 0 && DatedBy(f.events, PartialDue, invoice.partialDate)
    requires DatedBy(f.events, InvoiceDue, invoice.due)
    ensures var g := TakePartial(f, invoice, today);
            var taken := if PartialRoom(invoice, today) < f.undated then PartialRoom(invoice, today) else f.undated;
            && TotalFrom(g.events, PartialDue) == TotalFrom(f.events, PartialDue) + taken
            && TotalFrom(g.events, InvoiceDue) == TotalFrom(f.events, InvoiceDue)
            && g.undated == f.undated - taken
            && DatedBy(g.events, PartialDue, invoice.partialDate) && DatedBy(g.events, InvoiceDue, invoice.due)
  {
    if f.undated > 0 && PartialRoom(invoice, today) > 0 {
      var event := Event(invoice.partialDate.value, Min(f.undated, invoice.partialAmount.value), PartialDue);
      OneMoreFrom(f.events, event, PartialDue);
      OneMoreFrom(f.events, event, InvoiceDue);
    }
  }

  lemma {:induction false} OneMoreFrom(events: seq<Event>, event: Event, source: Source)
    ensures TotalFrom(events + [event], source)
         == TotalFrom(events, source) + if event.source == source then event.amount else 0
  {
    TotalFromAppend(events, [event], source);
    assert [event][1..] == [];
  }

  lemma {:induction false} RestGoes(f: Forecast, date: Option<int>, source: Source, today: int, other: Source)
    requires f.undated >= 0 && DatedBy(f.events, source, date) && other != source
    ensures var g := TakeRest(f, date, source, today);
            && TotalFrom(g.events, source) == TotalFrom(f.events, source) + f.undated - g.undated
            && TotalFrom(g.events, other) == TotalFrom(f.events, other)
            && g.undated == (if IsAhead(date, today) then 0 else f.undated)
            && DatedBy(g.events, source, date)
            && forall d :: DatedBy(f.events, other, d) ==> DatedBy(g.events, other, d)
  {
    if f.undated > 0 && IsAhead(date, today) {
      OneMoreFrom(f.events, Event(date.value, f.undated, source), source);
      OneMoreFrom(f.events, Event(date.value, f.undated, source), other);
    }
  }

  /** An invoice is paid by its scheduled cashflows; of the rest its partial amount on the partial date, and
      what is then left on its due date; only what lies behind has no date. */
  lemma {:induction false} InvoiceGoes(invoice: Invoice, cashflows: seq<Cashflow>, payable: int, today: int)
    ensures var f := InvoiceForecast(invoice, cashflows, payable, today);
            var left := LeftBy(Max(0, payable), Capacity(Sort(cashflows, ByDateThenId), today, false));
            var room := PartialRoom(invoice, today);
            && TotalFrom(f.events, PartialDue) == (if room < left then room else left)
            && DatedBy(f.events, PartialDue, invoice.partialDate)
            && TotalFrom(f.events, InvoiceDue) == (if room < left && IsAhead(invoice.due, today) then left - room
                else 0)
            && DatedBy(f.events, InvoiceDue, invoice.due)
            && f.undated == (if room < left && !IsAhead(invoice.due, today) then left - room else 0)
  {
    var sorted := Sort(cashflows, ByDateThenId);
    var f := Pour(sorted, Max(0, payable), today, false);
    PourSources(sorted, Max(0, payable), today, false, PartialDue);
    PourSources(sorted, Max(0, payable), today, false, InvoiceDue);
    PourLeaves(sorted, Max(0, payable), today, false);
    PartialGoes(f, invoice, today);
    RestGoes(TakePartial(f, invoice, today), invoice.due, InvoiceDue, today, PartialDue);
  }

  /** The earliest due date of a cashflow from today on; if there is none, the delivery date plus the term. */
  predicate IsEstimatedDate(child: Child, today: int, date: Option<int>) {
    var n := |child.cashflows|;
    if forall k :: 0 <= k < n ==> !IsAhead(child.cashflows[k].due, today) then
      if child.delivery.Some? && child.term.Some? then date == Some(child.delivery.value + child.term.value)
      else date == None
    else
      && (exists k :: 0 <= k < n && child.cashflows[k].due == date && IsAhead(date, today))
      && (forall k :: 0 <= k < n && IsAhead(child.cashflows[k].due, today) ==>
            date.Some? && date.value <= child.cashflows[k].due.value)
  }

  lemma {:induction false} DueDatesAre(cashflows: seq<Cashflow>, today: int)
    ensures forall d :: d in DueDates(cashflows, today) <==>
              exists k :: 0 <= k < |cashflows| && cashflows[k].due == Some(d) && d >= today
  {
    if cashflows != [] {
      var rest := cashflows[1..];
      DueDatesAre(rest, today);
      assert forall k :: 0 < k < |cashflows| ==> cashflows[k] == rest[k - 1];
      forall d ensures d in DueDates(cashflows, today) <==>
                         exists k :: 0 <= k < |cashflows| && cashflows[k].due == Some(d) && d >= today
      {
        if k :| 0 <= k < |rest| && rest[k].due == Some(d) && d >= today {
          assert cashflows[k + 1].due == Some(d);
        }
        if k :| 0 <= k < |cashflows| && cashflows[k].due == Some(d) && d >= today {
          assert k > 0 ==> rest[k - 1].due == Some(d);
        }
      }
    }
  }

  lemma EstimatedDateIs(child: Child, today: int)
    ensures IsEstimatedDate(child, today, EstimatedDate(child, today))
    ensures EstimatedSource(child, today)
         == if forall k :: 0 <= k < |child.cashflows| ==> !IsAhead(child.cashflows[k].due, today) then DeliveryTerm
            else CashflowDue
  {
    var dates := DueDates(child.cashflows, today);
    DueDatesAre(child.cashflows, today);
    DistinctDatesOrder(dates);
    DistinctDatesEmpty(dates);
    forall k | 0 <= k < |child.cashflows| && IsAhead(child.cashflows[k].due, today)
      ensures child.cashflows[k].due.value in dates
    {
      assert child.cashflows[k].due == Some(child.cashflows[k].due.value);
    }
    if dates != [] {
      assert DistinctDates(dates)[0] in DistinctDates(dates) && dates[0] in dates;
    }
  }

  /** A cost without an invoice is paid by its cashflows, and what they leave on the estimated date, unless
      that is past or unknown. */
  lemma {:induction false} ChildGoes(child: Child, amount: int, today: int, date: Option<int>)
    requires IsEstimatedDate(child, today, date)
    ensures var sorted := Sort(child.cashflows, ByDateThenId);
            var poured := Pour(sorted, Max(0, amount), today, true);
            var left := LeftBy(Max(0, amount), Capacity(sorted, today, true));
            && poured.undated == left
            && ChildForecast(child, amount, today)
            == if left == 0 || !IsAhead(date, today) then poured
               else Forecast(poured.events + [Event(date.value, left, EstimatedSource(child, today))], 0)
  {
    EstimatedDateIs(child, today);
    PourLeaves(Sort(child.cashflows, ByDateThenId), Max(0, amount), today, true);
    assert date == EstimatedDate(child, today);
  }
}
