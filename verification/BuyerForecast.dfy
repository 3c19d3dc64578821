/** The release forecast of one STEM: its exposure is poured through the confirmed payments, then
    through the scheduled payments, and what is left falls on one residual date. */
module BuyerForecast {
  import opened Money
  import opened Options
  import opened Sorting

  datatype Source = ConfirmedPayment | ScheduledPayment | Residual

  /** A payment to come; no amount means everything that is left. */
  datatype Slot = Slot(date: int, amount: Option<real>)

  datatype Event = Event(date: Option<int>, amount: real, source: Source)

  datatype Poured = Poured(events: seq<Event>, rest: real)

  const SETTLED := 0.01

  function ReleasedBy(slot: Slot, remaining: real): real {
    var proposed := if slot.amount.None? then remaining else slot.amount.value;
    Min(Max(proposed, 0.0), remaining)
  }

  /** Slot after slot until at most a cent is left. */
  function Pour(slots: seq<Slot>, remaining: real, source: Source): Poured {
    if slots == [] then Poured([], remaining)
    else
      var released := ReleasedBy(slots[0], remaining);
      if released <= 0.0 then Pour(slots[1..], remaining, source)
      else
        var event := Event(Some(slots[0].date), released, source);
        if remaining - released <= SETTLED then Poured([event], remaining - released)
        else
          var more := Pour(slots[1..], remaining - released, source);
          Poured([event] + more.events, more.rest)
  }

  function Forecast(exposure: real, payments: seq<Slot>, scheduled: seq<Slot>, residual: Option<int>): seq<Event> {
    var confirmed := Pour(payments, exposure, ConfirmedPayment);
    var planned := Pour(scheduled, confirmed.rest, ScheduledPayment);
    confirmed.events + planned.events +
    if Abs(planned.rest) > SETTLED then [Event(residual, planned.rest, Residual)] else []
  }

  lemma {:induction false} NothingToPour(slots: seq<Slot>, remaining: real, source: Source)
    requires remaining <= 0.0
    ensures Pour(slots, remaining, source) == Poured([], remaining)
  {
    if slots != [] {
      NothingToPour(slots[1..], remaining, source);
    }
  }

  method PourSlots(slots: seq<Slot>, exposure: real, source: Source) returns (events: seq<Event>, remaining: real)
    ensures Poured(events, remaining) == Pour(slots, exposure, source)
  {
    events, remaining := [], exposure;
    var k := 0;
    while k < |slots|
      invariant 0 <= k <= |slots|
      invariant Poured(events + Pour(slots[k..], remaining, source).events, Pour(slots[k..], remaining, source).rest)
             == Pour(slots, exposure, source)
    {
      var slot := slots[k];
      assert slots[k..][1..] == slots[k + 1..];
      var proposed := if slot.amount.None? then remaining else slot.amount.value;
      var released := Min(Max(proposed, 0.0), remaining);
      if released > 0.0 {
        var event := Event(Some(slot.date), released, source);
        Regroup(events, [event], Pour(slots[k + 1..], remaining - released, source).events);
        events := events + [event];
        remaining := remaining - released;
        if remaining <= SETTLED {
          return;
        }
      }
      k := k + 1;
    }
    assert slots[k..] == [];
    assert events + [] == events;
  }

  method ForecastEventsForExposure(exposure: real, futurePayments: seq<Slot>, scheduled: seq<Slot>,
                                   candidate: Option<int>)
    returns (forecastEvents: seq<Event>)
    ensures forecastEvents == Forecast(exposure, futurePayments, scheduled, candidate)
  {
    forecastEvents := [];
    var remaining := exposure;
    NothingToPourIfSettled(futurePayments, exposure, ConfirmedPayment);
    if remaining > 0.0 {
      forecastEvents, remaining := PourSlots(futurePayments, remaining, ConfirmedPayment);
    }
    NothingToPourIfSettled(scheduled, remaining, ScheduledPayment);
    if remaining > 0.0 {
      var planned;
      planned, remaining := PourSlots(scheduled, remaining, ScheduledPayment);
      forecastEvents := forecastEvents + planned;
    } else {
      assert forecastEvents + [] == forecastEvents;
    }
    if Abs(remaining) > SETTLED {
      forecastEvents := forecastEvents + [Event(candidate, remaining, Residual)];
    }
  }

  lemma {:induction false} NothingToPourIfSettled(slots: seq<Slot>, remaining: real, source: Source)
    ensures remaining <= 0.0 ==> Pour(slots, remaining, source) == Poured([], remaining)
  {
    if remaining <= 0.0 {
      NothingToPour(slots, remaining, source);
    }
  }

  // ----- conservation -----

  /** The amounts of the events whose date satisfies `p`. */
  function Released(events: seq<Event>, p: Option<int> -> bool): real {
    if events == [] then 0.0
    else (if p(events[0].date) then events[0].amount else 0.0) + Released(events[1..], p)
  }

  const Anytime: Option<int> -> bool := (date: Option<int>) => true

  lemma {:induction false} ReleasedAppend(a: seq<Event>, b: seq<Event>, p: Option<int> -> bool)
    ensures Released(a + b, p) == Released(a, p) + Released(b, p)
  {
    if a == [] {
      assert a + b == b;
    } else {
      assert (a + b)[0] == a[0] && (a + b)[1..] == a[1..] + b;
      ReleasedAppend(a[1..], b, p);
    }
  }

  lemma {:induction false} PourConserves(slots: seq<Slot>, remaining: real, source: Source)
    ensures var q := Pour(slots, remaining, source);
            && Released(q.events, Anytime) + q.rest == remaining
            && (remaining >= 0.0 ==> 0.0 <= q.rest <= remaining)
            && (remaining < 0.0 ==> q.rest == remaining)
            && (forall k :: 0 <= k < |q.events| ==> q.events[k].amount > 0.0 && q.events[k].date.Some?)
  {
    if slots != [] {
      var released := ReleasedBy(slots[0], remaining);
      if released <= 0.0 {
        PourConserves(slots[1..], remaining, source);
      } else if remaining - released > SETTLED {
        PourConserves(slots[1..], remaining - released, source);
      }
    }
  }

  /** The events of a STEM add up to its exposure, within one cent; a leftover of a cent or less is
      the only thing that is not scheduled. */
  lemma ForecastConserves(exposure: real, payments: seq<Slot>, scheduled: seq<Slot>, residual: Option<int>)
    ensures Abs(exposure - Released(Forecast(exposure, payments, scheduled, residual), Anytime)) <= SETTLED
  {
    var confirmed := Pour(payments, exposure, ConfirmedPayment);
    var planned := Pour(scheduled, confirmed.rest, ScheduledPayment);
    var last := if Abs(planned.rest) > SETTLED then [Event(residual, planned.rest, Residual)] else [];
    assert Released(confirmed.events, Anytime) + confirmed.rest == exposure by {
      PourConserves(payments, exposure, ConfirmedPayment);
    }
    assert Released(planned.events, Anytime) + planned.rest == confirmed.rest by {
      PourConserves(scheduled, confirmed.rest, ScheduledPayment);
    }
    ReleasedAppend(confirmed.events, planned.events, Anytime);
    ReleasedAppend(confirmed.events + planned.events, last, Anytime);
  }

  /** Only the residual event can be undated, and only a negative exposure makes it negative. */
  lemma ForecastSigns(exposure: real, payments: seq<Slot>, scheduled: seq<Slot>, residual: Option<int>)
    ensures forall e :: e in Forecast(exposure, payments, scheduled, residual) && e.source != Residual ==>
              e.amount > 0.0 && e.date.Some?
    ensures exposure >= 0.0 ==> forall e :: e in Forecast(exposure, payments, scheduled, residual) ==> e.amount > 0.0
  {
    var confirmed := Pour(payments, exposure, ConfirmedPayment);
    PouredArePositive(payments, exposure, ConfirmedPayment);
    PouredArePositive(scheduled, confirmed.rest, ScheduledPayment);
    assert exposure >= 0.0 ==> Pour(scheduled, confirmed.rest, ScheduledPayment).rest >= 0.0;
  }

  lemma {:induction false} PouredArePositive(slots: seq<Slot>, remaining: real, source: Source)
    ensures forall e :: e in Pour(slots, remaining, source).events ==> e.amount > 0.0 && e.date.Some?
    ensures remaining >= 0.0 ==> Pour(slots, remaining, source).rest >= 0.0
  {
    PourConserves(slots, remaining, source);
  }

  ghost predicate SlotsFrom(slots: seq<Slot>, today: int) {
    forall k :: 0 <= k < |slots| ==> slots[k].date >= today
  }

  lemma {:induction false} PourDates(slots: seq<Slot>, remaining: real, source: Source, today: int)
    requires SlotsFrom(slots, today)
    ensures forall e :: e in Pour(slots, remaining, source).events ==> e.date.Some? && e.date.value >= today
  {
    if slots != [] {
      assert slots[0].date >= today;
      assert SlotsFrom(slots[1..], today);
      var released := ReleasedBy(slots[0], remaining);
      if released <= 0.0 {
        PourDates(slots[1..], remaining, source, today);
      } else if remaining - released > SETTLED {
        PourDates(slots[1..], remaining - released, source, today);
      }
    }
  }

  /** Every dated event lies today or later. */
  lemma ForecastDates(exposure: real, payments: seq<Slot>, scheduled: seq<Slot>, residual: Option<int>, today: int)
    requires SlotsFrom(payments, today) && SlotsFrom(scheduled, today)
    requires residual.Some? ==> residual.value >= today
    ensures forall e :: e in Forecast(exposure, payments, scheduled, residual) && e.date.Some? ==> e.date.value >= today
  {
    PourDates(payments, exposure, ConfirmedPayment, today);
    PourDates(scheduled, Pour(payments, exposure, ConfirmedPayment).rest, ScheduledPayment, today);
  }

  // ----- the slots are filled first -----

  /** The most the slots can take together; none says that there is no bound. */
  function Capacity(slots: seq<Slot>): (c: Option<real>)
    ensures c.Some? ==> c.value >= 0.0
  {
    if slots == [] then Some(0.0)
    else
      var more := Capacity(slots[1..]);
      if slots[0].amount.None? || more.None? then None else Some(Max(slots[0].amount.value, 0.0) + more.value)
  }

  /** What a pour leaves: the excess over the capacity, or at most a cent. */
  lemma {:induction false} PourIsGreedy(slots: seq<Slot>, remaining: real, source: Source)
    requires remaining >= 0.0
    ensures var capacity, rest := Capacity(slots), Pour(slots, remaining, source).rest;
            if capacity.Some? && remaining - capacity.value > SETTLED then rest == remaining - capacity.value
            else 0.0 <= rest <= SETTLED
  {
    if slots != [] {
      var released := ReleasedBy(slots[0], remaining);
      if released <= 0.0 {
        PourIsGreedy(slots[1..], remaining, source);
      } else if remaining - released > SETTLED {
        PourIsGreedy(slots[1..], remaining - released, source);
      }
    }
  }

  /** The residual event holds exactly what the confirmed and scheduled payments cannot take, and it
      exists exactly if that is more than a cent; a negative exposure is never poured and falls on the
      residual date as a whole. */
  lemma {:induction false} ResidualIsTheExcess(exposure: real, payments: seq<Slot>, scheduled: seq<Slot>,
                                               residual: Option<int>)
    ensures exposure >= 0.0 ==>
              var confirmed, planned, events := Capacity(payments), Capacity(scheduled),
                  Forecast(exposure, payments, scheduled, residual);
              if confirmed.Some? && planned.Some? && exposure - confirmed.value - planned.value > SETTLED
              then events != [] && events[|events| - 1]
                  == Event(residual, exposure - confirmed.value - planned.value, Residual)
              else forall e :: e in events ==> e.source != Residual
    ensures exposure < 0.0 ==>
              Forecast(exposure, payments, scheduled, residual) == if exposure < -SETTLED
                  then [Event(residual, exposure, Residual)] else []
  {
    if exposure < 0.0 {
      NothingToPour(payments, exposure, ConfirmedPayment);
      NothingToPour(scheduled, exposure, ScheduledPayment);
    } else {
      var rest := Pour(payments, exposure, ConfirmedPayment).rest;
      PourIsGreedy(payments, exposure, ConfirmedPayment);
      PourConserves(payments, exposure, ConfirmedPayment);
      PourIsGreedy(scheduled, rest, ScheduledPayment);
      PourSource(payments, exposure, ConfirmedPayment);
      PourSource(scheduled, rest, ScheduledPayment);
    }
  }

  lemma {:induction false} PourSource(slots: seq<Slot>, remaining: real, source: Source)
    ensures forall e :: e in Pour(slots, remaining, source).events ==> e.source == source
  {
    if slots != [] {
      var released := ReleasedBy(slots[0], remaining);
      if released <= 0.0 {
        PourSource(slots[1..], remaining, source);
      } else if remaining - released > SETTLED {
        PourSource(slots[1..], remaining - released, source);
      }
    }
  }

  // ----- whole cents -----

  ghost predicate SlotsInCents(slots: seq<Slot>) {
    forall k :: 0 <= k < |slots| ==> slots[k].amount.Some? ==> IsCents(slots[k].amount.value)
  }

  lemma {:induction false} PourInCents(slots: seq<Slot>, remaining: real, source: Source)
    requires SlotsInCents(slots) && IsCents(remaining)
    ensures IsCents(Pour(slots, remaining, source).rest)
    ensures forall e :: e in Pour(slots, remaining, source).events ==> IsCents(e.amount)
  {
    if slots != [] {
      var released := ReleasedBy(slots[0], remaining);
      assert IsCents(0.0);
      assert slots[0].amount.Some? ==> IsCents(slots[0].amount.value);
      assert IsCents(released);
      CentsAdd(remaining, released);
      assert SlotsInCents(slots[1..]);
      if released <= 0.0 {
        PourInCents(slots[1..], remaining, source);
      } else if remaining - released > SETTLED {
        PourInCents(slots[1..], remaining - released, source);
      }
    }
  }

  lemma ForecastInCents(exposure: real, payments: seq<Slot>, scheduled: seq<Slot>, residual: Option<int>)
    requires SlotsInCents(payments) && SlotsInCents(scheduled) && IsCents(exposure)
    ensures forall e :: e in Forecast(exposure, payments, scheduled, residual) ==> IsCents(e.amount)
  {
    PourInCents(payments, exposure, ConfirmedPayment);
    PourInCents(scheduled, Pour(payments, exposure, ConfirmedPayment).rest, ScheduledPayment);
  }

  // ----- monotonicity in the exposure -----

  /** What stays outside the slots that `p` selects. */
  function Outside(events: seq<Event>, p: Option<int> -> bool): real {
    Released(events, Anytime) - Released(events, p)
  }

  lemma {:induction false} OutsideNonNegative(events: seq<Event>, p: Option<int> -> bool)
    requires forall k :: 0 <= k < |events| ==> events[k].amount > 0.0
    ensures Outside(events, p) >= 0.0
  {
    if events != [] {
      OutsideNonNegative(events[1..], p);
    }
  }

  lemma {:induction false} OutsideOfPour(slots: seq<Slot>, remaining: real, source: Source, p: Option<int> -> bool)
    ensures Outside(Pour(slots, remaining, source).events, p) >= 0.0
  {
    PourConserves(slots, remaining, source);
    OutsideNonNegative(Pour(slots, remaining, source).events, p);
  }

  /** Two pours of one list of slots, from a lower and a higher exposure. The higher one leaves at
      least as much outside any selection of slots; and it has at least as much left at the end,
      unless the lower one stopped with a cent or less. */
  lemma {:induction false} PoursCompare(slots: seq<Slot>, low: real, high: real, source: Source, p: Option<int> -> bool)
    requires low <= high
    ensures PourBelow(Pour(slots, low, source), Pour(slots, high, source), p)
  {
    if slots != [] {
      var rest := slots[1..];
      var x, y := ReleasedBy(slots[0], low), ReleasedBy(slots[0], high);
      if low <= 0.0 {
        NothingToPour(slots, low, source);
        OutsideOfPour(slots, high, source, p);
        PourConserves(slots, high, source);
      } else if y <= 0.0 {
        PoursCompare(rest, low, high, source, p);
      } else {
        assert 0.0 < x <= y && low - x <= high - y;
        PourStep(slots, low, source, p);
        PourStep(slots, high, source, p);
        if low - x > SETTLED {
          PoursCompare(rest, low - x, high - y, source, p);
        } else {
          LeavesSomething(rest, high - y, source, p);
        }
      }
    }
  }

  /** `a` leaves no more outside than `b`, and no more at the end unless that is a cent or less. */
  ghost predicate PourBelow(a: Poured, b: Poured, p: Option<int> -> bool) {
    && Outside(a.events, p) <= Outside(b.events, p)
    && (a.rest <= b.rest || (a.rest <= SETTLED && 0.0 <= b.rest))
  }

  lemma {:induction false} LeavesSomething(slots: seq<Slot>, remaining: real, source: Source, p: Option<int> -> bool)
    requires remaining >= 0.0
    ensures var q := Pour(slots, remaining, source); Outside(q.events, p) >= 0.0 && q.rest >= 0.0
  {
    OutsideOfPour(slots, remaining, source, p);
    PourConserves(slots, remaining, source);
  }

  /** One slot of a pour that releases something. */
  lemma PourStep(slots: seq<Slot>, remaining: real, source: Source, p: Option<int> -> bool)
    requires slots != [] && ReleasedBy(slots[0], remaining) > 0.0
    ensures var released := ReleasedBy(slots[0], remaining);
            var q, more := Pour(slots, remaining, source), Pour(slots[1..], remaining - released, source);
            var first := if p(Some(slots[0].date)) then 0.0 else released;
            if remaining - released <= SETTLED
            then Outside(q.events, p) == first && q.rest == remaining - released
            else Outside(q.events, p) == first + Outside(more.events, p) && q.rest == more.rest
  {
    var released := ReleasedBy(slots[0], remaining);
    var event := Event(Some(slots[0].date), released, source);
    if remaining - released <= SETTLED {
      assert Pour(slots, remaining, source).events == [event];
      assert [event][1..] == [];
      assert Released([event], Anytime) == released;
      assert Released([event], p) == if p(event.date) then released else 0.0;
    } else {
      var more := Pour(slots[1..], remaining - released, source);
      assert ([event] + more.events)[1..] == more.events;
    }
  }

  /** What is left of the exposure after the releases whose date `p` selects. */
  function Kept(exposure: real, payments: seq<Slot>, scheduled: seq<Slot>, residual: Option<int>,
                p: Option<int> -> bool): real {
    exposure - Released(Forecast(exposure, payments, scheduled, residual), p)
  }

  function KeptOfResidual(rest: real, selected: bool): real {
    if Abs(rest) > SETTLED && selected then 0.0 else rest
  }

  lemma {:induction false} KeptInParts(exposure: real, payments: seq<Slot>, scheduled: seq<Slot>, residual: Option<int>,
                                       p: Option<int> -> bool)
    ensures var confirmed := Pour(payments, exposure, ConfirmedPayment);
            var planned := Pour(scheduled, confirmed.rest, ScheduledPayment);
            Kept(exposure, payments, scheduled, residual, p) ==
            Outside(confirmed.events, p) + Outside(planned.events, p) + KeptOfResidual(planned.rest, p(residual))
  {
    var confirmed := Pour(payments, exposure, ConfirmedPayment);
    var planned := Pour(scheduled, confirmed.rest, ScheduledPayment);
    var last := if Abs(planned.rest) > SETTLED then [Event(residual, planned.rest, Residual)] else [];
    PourConserves(payments, exposure, ConfirmedPayment);
    PourConserves(scheduled, confirmed.rest, ScheduledPayment);
    ReleasedAppend(confirmed.events, planned.events, p);
    ReleasedAppend(confirmed.events + planned.events, last, p);
  }

  /** Exposure less the releases in any selection of dates never inverts by more than a cent: a STEM
      that starts with more never has visibly less left, at any time. */
  lemma KeptMonotone(low: real, high: real, payments: seq<Slot>, scheduled: seq<Slot>, residual: Option<int>,
                     p: Option<int> -> bool)
    requires low <= high
    ensures Kept(low, payments, scheduled, residual, p) <= Kept(high, payments, scheduled, residual, p) + SETTLED
  {
    var a, b := Pour(payments, low, ConfirmedPayment), Pour(payments, high, ConfirmedPayment);
    var c, d := Pour(scheduled, a.rest, ScheduledPayment), Pour(scheduled, b.rest, ScheduledPayment);
    KeptInParts(low, payments, scheduled, residual, p);
    KeptInParts(high, payments, scheduled, residual, p);
    PoursCompare(payments, low, high, ConfirmedPayment, p);
    PourConserves(scheduled, a.rest, ScheduledPayment);
    PourConserves(scheduled, b.rest, ScheduledPayment);
    OutsideOfPour(scheduled, a.rest, ScheduledPayment, p);
    OutsideOfPour(scheduled, b.rest, ScheduledPayment, p);
    if a.rest <= b.rest {
      PoursCompare(scheduled, a.rest, b.rest, ScheduledPayment, p);
    } else {
      // The lower pour stopped with a cent or less, so all it still keeps is within that cent.
      PartsWithinRest(c.events, c.rest, a.rest, p);
    }
  }

  lemma {:induction false} PartsWithinRest(events: seq<Event>, rest: real, total: real, p: Option<int> -> bool)
    requires forall k :: 0 <= k < |events| ==> events[k].amount > 0.0
    requires Released(events, Anytime) + rest == total
    ensures Outside(events, p) + rest <= total
  {
    ReleasedNonNegative(events, p);
  }

  lemma {:induction false} ReleasedNonNegative(events: seq<Event>, p: Option<int> -> bool)
    requires forall k :: 0 <= k < |events| ==> events[k].amount > 0.0
    ensures Released(events, p) >= 0.0
  {
    if events != [] {
      ReleasedNonNegative(events[1..], p);
    }
  }

  // ----- the evidence of a STEM -----

  /** A payment or cashflow record; `key` is none where the record has no valid Id. */
  datatype Evidence = Evidence(key: Option<int>, date: Option<int>, amount: Option<real>)

  predicate HasKey(rows: seq<Evidence>, key: Option<int>) {
    rows != [] && (rows[|rows| - 1].key == key || HasKey(rows[..|rows| - 1], key))
  }

  /** The first record of every Id. */
  function UniqueById(rows: seq<Evidence>): seq<Evidence> {
    if rows == [] then []
    else
      var before, last := rows[..|rows| - 1], rows[|rows| - 1];
      UniqueById(before) + if last.key.None? || HasKey(before, last.key) then [] else [last]
  }

  const ByDate: (Evidence, Evidence) -> bool := (a: Evidence, b: Evidence) =>
    a.date.None? || (b.date.Some? && a.date.value <= b.date.value)

  function ToSlot(row: Evidence): Slot {
    Slot(if row.date.Some? then row.date.value else 0, row.amount)
  }

  /** The slots of the records that `p` selects, by date. */
  function SlotsWhere(p: Evidence -> bool, rows: seq<Evidence>): seq<Slot> {
    Map(ToSlot, Sort(Filter(p, rows), ByDate))
  }

  predicate IsPaid(row: Evidence, today: int) {
    row.date.Some? && row.amount.Some? && row.date.value <= today
  }

  predicate IsConfirmed(row: Evidence, today: int) {
    row.date.Some? && row.amount.Some? && row.date.value > today
  }

  predicate IsScheduled(row: Evidence, today: int) {
    row.date.Some? && row.date.value >= today
  }

  function Paid(today: int): Evidence -> bool {
    (row: Evidence) => IsPaid(row, today)
  }

  function Confirmed(today: int): Evidence -> bool {
    (row: Evidence) => IsConfirmed(row, today)
  }

  function Scheduled(today: int): Evidence -> bool {
    (row: Evidence) => IsScheduled(row, today)
  }

  /** Payments dated today or earlier. */
  function ActualReleases(payments: seq<Evidence>, today: int): seq<Slot> {
    SlotsWhere(Paid(today), UniqueById(payments))
  }

  /** Confirmed payments dated after today. */
  function FuturePayments(payments: seq<Evidence>, today: int): seq<Slot> {
    SlotsWhere(Confirmed(today), UniqueById(payments))
  }

  /** Scheduled payments dated today or later; one without an amount takes everything. */
  function ScheduledReleases(cashflows: seq<Evidence>, today: int): seq<Slot> {
    SlotsWhere(Scheduled(today), UniqueById(cashflows))
  }

  lemma SlotsHold(p: Evidence -> bool, rows: seq<Evidence>, q: Slot -> bool)
    requires forall row :: p(row) ==> q(ToSlot(row))
    ensures forall k :: 0 <= k < |SlotsWhere(p, rows)| ==> q(SlotsWhere(p, rows)[k])
  {
    var kept := Filter(p, rows);
    FilterMembers(p, rows);
    SortKeepsElements(kept, ByDate);
    forall k | 0 <= k < |SlotsWhere(p, rows)| ensures q(SlotsWhere(p, rows)[k]) {
      assert Sort(kept, ByDate)[k] in kept;
    }
  }

  /** Future payments lie after today, scheduled releases today or later, actual ones today or earlier. */
  lemma SlotsAreAhead(payments: seq<Evidence>, cashflows: seq<Evidence>, today: int)
    ensures SlotsFrom(FuturePayments(payments, today), today + 1)
    ensures SlotsFrom(ScheduledReleases(cashflows, today), today)
    ensures forall k :: 0 <= k < |ActualReleases(payments, today)| ==> ActualReleases(payments, today)[k].date <= today
  {
    SlotsHold(Paid(today), UniqueById(payments), (s: Slot) => s.date <= today);
    SlotsHold(Confirmed(today), UniqueById(payments), (s: Slot) => s.date > today);
    SlotsHold(Scheduled(today), UniqueById(cashflows), (s: Slot) => s.date >= today);
  }

  /** Every record has an Id that no earlier one has. */
  predicate OwnIds(rows: seq<Evidence>) {
    rows == [] || (var n := |rows| - 1; rows[n].key.Some? && !HasKey(rows[..n], rows[n].key) && OwnIds(rows[..n]))
  }

  /** Records with Ids of their own all stay. */
  lemma {:induction false} DistinctRecordsStay(rows: seq<Evidence>)
    requires OwnIds(rows)
    ensures UniqueById(rows) == rows
  {
    if rows != [] {
      var n := |rows| - 1;
      DistinctRecordsStay(rows[..n]);
      assert rows == rows[..n] + [rows[n]];
    }
  }

  /** Records that are all selected and already in date order give their slots as they are. */
  lemma {:induction false} SlotsOfAll(p: Evidence -> bool, rows: seq<Evidence>)
    requires forall row :: row in rows ==> p(row)
    requires Sorted(rows, ByDate)
    ensures SlotsWhere(p, rows) == Map(ToSlot, rows)
  {
    FilterAll(p, rows);
    SortedStays(rows, ByDate);
  }

  /** Confirmed payments with Ids of their own, in date order, are the future payments as they are. */
  lemma {:induction false} AllConfirmed(payments: seq<Evidence>, today: int)
    requires OwnIds(payments) && Sorted(payments, ByDate)
    requires forall row :: row in payments ==> IsConfirmed(row, today)
    ensures FuturePayments(payments, today) == Map(ToSlot, payments)
  {
    DistinctRecordsStay(payments);
    SlotsOfAll(Confirmed(today), payments);
  }

  // ----- slot by slot and record by record -----

  /** A pour has stopped once a release leaves at most a cent. */
  predicate Stopped(q: Poured) {
    q.events != [] && q.rest <= 0.01
  }

  /** What the next slot releases of what the ones before it leave: its amount, or all of it if it has none. */
  function NextRelease(slot: Slot, left: real): real {
    if slot.amount.None? || slot.amount.value > left then left else slot.amount.value
  }

  function NextPoured(q: Poured, slot: Slot, source: Source): Poured {
    if Stopped(q) || NextRelease(slot, q.rest) <= 0.0 then q
    else Poured(q.events + [Event(Some(slot.date), NextRelease(slot, q.rest), source)],
        q.rest - NextRelease(slot, q.rest))
  }

  lemma {:induction false} FirstSlot(slots: seq<Slot>, remaining: real, source: Source)
    requires slots != []
    ensures var first := NextPoured(Poured([], remaining), slots[0], source);
            var more := Pour(slots[1..], first.rest, source);
            Pour(slots, remaining, source) ==
            if Stopped(first) then first else Poured(first.events + more.events, more.rest)
  {
    var released := ReleasedBy(slots[0], remaining);
    assert released > 0.0 ==> released == NextRelease(slots[0], remaining);
    assert [] + [Event(Some(slots[0].date), released, source)] == [Event(Some(slots[0].date), released, source)];
  }

  /** One more slot: unless the pour has stopped it releases what it can on its own date. */
  lemma {:induction false} PourNext(slots: seq<Slot>, slot: Slot, remaining: real, source: Source)
    ensures Pour([], remaining, source) == Poured([], remaining)
    ensures Pour(slots + [slot], remaining, source) == NextPoured(Pour(slots, remaining, source), slot, source)
    decreases |slots|
  {
    if slots == [] {
      assert [] + [slot] == [slot] && [slot][1..] == [];
      FirstSlot([slot], remaining, source);
    } else {
      var all, rest := slots + [slot], slots[1..];
      var first := NextPoured(Poured([], remaining), slots[0], source);
      assert all[0] == slots[0] && all[1..] == rest + [slot];
      FirstSlot(slots, remaining, source);
      FirstSlot(all, remaining, source);
      if !Stopped(first) {
        var q := Pour(rest, first.rest, source);
        PourNext(rest, slot, first.rest, source);
        PourConserves(rest, first.rest, source);
        if first.events == [] {
          assert [] + q.events == q.events;
          assert [] + NextPoured(q, slot, source).events == NextPoured(q, slot, source).events;
        } else {
          FirstEventStays(first.events[0], q, slot, source);
        }
      }
    }
  }

  lemma FirstEventStays(event: Event, q: Poured, slot: Slot, source: Source)
    requires q.events == [] ==> q.rest > 0.01
    ensures NextPoured(Poured([event] + q.events, q.rest), slot, source)
         == Poured([event] + NextPoured(q, slot, source).events, NextPoured(q, slot, source).rest)
  {
    if !Stopped(q) && NextRelease(slot, q.rest) > 0.0 {
      Regroup([event], q.events, [Event(Some(slot.date), NextRelease(slot, q.rest), source)]);
    }
  }

  /** What the events of one source amount to. */
  function TotalFrom(events: seq<Event>, source: Source): real {
    if events == [] then 0.0
    else (if events[0].source == source then events[0].amount else 0.0) + TotalFrom(events[1..], source)
  }

  lemma {:induction false} TotalFromAppend(a: seq<Event>, b: seq<Event>, source: Source)
    ensures TotalFrom(a + b, source) == TotalFrom(a, source) + TotalFrom(b, source)
  {
    if a == [] {
      assert a + b == b;
    } else {
      assert (a + b)[1..] == a[1..] + b;
      TotalFromAppend(a[1..], b, source);
    }
  }

  lemma {:induction false} TotalFromOne(events: seq<Event>, source: Source, other: Source)
    requires forall e :: e in events ==> e.source == other
    ensures TotalFrom(events, source) == if source == other then Released(events, Anytime) else 0.0
  {
    if events != [] {
      assert events[0] in events && forall e :: e in events[1..] ==> e in events;
      TotalFromOne(events[1..], source, other);
    }
  }

  /** What slots take of an amount: all of it up to a cent, or exactly all they can. */
  predicate Takes(taken: real, slots: seq<Slot>, amount: real) {
    var capacity := Capacity(slots);
    if capacity.Some? && amount - capacity.value > 0.01 then taken == capacity.value
        else amount - 0.01 <= taken <= amount
  }

  /** Confirmed payments release first all they can, then scheduled payments of the rest all they can. */
  lemma ConfirmedComeFirst(exposure: real, payments: seq<Slot>, scheduled: seq<Slot>, residual: Option<int>)
    requires exposure >= 0.0
    ensures var events := Forecast(exposure, payments, scheduled, residual);
            var confirmed := TotalFrom(events, ConfirmedPayment);
            && Takes(confirmed, payments, exposure)
            && Takes(TotalFrom(events, ScheduledPayment), scheduled, exposure - confirmed)
  {
    var confirmed := Pour(payments, exposure, ConfirmedPayment);
    var planned := Pour(scheduled, confirmed.rest, ScheduledPayment);
    var last := if Abs(planned.rest) > SETTLED then [Event(residual, planned.rest, Residual)] else [];
    PourConserves(payments, exposure, ConfirmedPayment);
    PourConserves(scheduled, confirmed.rest, ScheduledPayment);
    PourIsGreedy(payments, exposure, ConfirmedPayment);
    PourIsGreedy(scheduled, confirmed.rest, ScheduledPayment);
    PourSource(payments, exposure, ConfirmedPayment);
    PourSource(scheduled, confirmed.rest, ScheduledPayment);
    SourcesAdd(confirmed.events, planned.events, last, ConfirmedPayment);
    SourcesAdd(confirmed.events, planned.events, last, ScheduledPayment);
  }

  lemma {:induction false} SourcesAdd(confirmed: seq<Event>, planned: seq<Event>, last: seq<Event>, source: Source)
    requires forall e :: e in confirmed ==> e.source == ConfirmedPayment
    requires forall e :: e in planned ==> e.source == ScheduledPayment
    requires forall e :: e in last ==> e.source == Residual
    ensures TotalFrom(confirmed + planned + last, source)
         == match source
            case ConfirmedPayment => Released(confirmed, Anytime)
            case ScheduledPayment => Released(planned, Anytime)
            case Residual => Released(last, Anytime)
  {
    TotalFromAppend(confirmed + planned, last, source);
    TotalFromAppend(confirmed, planned, source);
    TotalFromOne(confirmed, source, ConfirmedPayment);
    TotalFromOne(planned, source, ScheduledPayment);
    TotalFromOne(last, source, Residual);
  }

  /** The record has an Id that no earlier one has. */
  predicate IsFirstOfId(rows: seq<Evidence>, k: nat)
    requires k < |rows|
  {
    rows[k].key.Some? && forall j :: 0 <= j < k ==> rows[j].key != rows[k].key
  }

  lemma {:induction false} HasKeyIff(rows: seq<Evidence>, key: Option<int>)
    ensures HasKey(rows, key) <==> exists j :: 0 <= j < |rows| && rows[j].key == key
  {
    if rows != [] {
      var n := |rows| - 1;
      HasKeyIff(rows[..n], key);
      assert forall j :: 0 <= j < n ==> rows[..n][j] == rows[j];
    }
  }

  lemma {:induction false} UniqueMembers(rows: seq<Evidence>, row: Evidence)
    ensures row in UniqueById(rows) <==> exists k :: 0 <= k < |rows| && rows[k] == row && IsFirstOfId(rows, k)
  {
    if rows != [] {
      var n := |rows| - 1;
      UniqueMembers(rows[..n], row);
      HasKeyIff(rows[..n], rows[n].key);
      assert forall j :: 0 <= j < n ==> rows[..n][j] == rows[j];
      forall k | 0 <= k < n ensures IsFirstOfId(rows, k) <==> IsFirstOfId(rows[..n], k) {
      }
    }
  }

  lemma SlotMembers(p: Evidence -> bool, rows: seq<Evidence>, slot: Slot)
    ensures slot in SlotsWhere(p, rows) <==> exists row :: row in rows && p(row) && ToSlot(row) == slot
  {
    var kept := Filter(p, rows);
    var sorted := Sort(kept, ByDate);
    FilterMembers(p, rows);
    SortKeepsElements(kept, ByDate);
    if slot in SlotsWhere(p, rows) {
      var i :| 0 <= i < |sorted| && SlotsWhere(p, rows)[i] == slot;
      assert sorted[i] in kept;
    }
    if row :| row in rows && p(row) && ToSlot(row) == slot {
      assert row in sorted;
      var i :| 0 <= i < |sorted| && sorted[i] == row;
      assert SlotsWhere(p, rows)[i] == slot;
    }
  }

  ghost predicate InDateOrder(slots: seq<Slot>) {
    forall i, j :: 0 <= i < j < |slots| ==> slots[i].date <= slots[j].date
  }

  lemma ByDateIsPreorder()
    ensures TotalPreorder(ByDate)
  {
    forall x: Evidence, y: Evidence ensures ByDate(x, y) || ByDate(y, x) {
      assert ByDate(x, y) == (x.date.None? || (y.date.Some? && x.date.value <= y.date.value));
      assert ByDate(y, x) == (y.date.None? || (x.date.Some? && y.date.value <= x.date.value));
    }
  }

  lemma {:induction false} SlotsInDateOrder(p: Evidence -> bool, rows: seq<Evidence>)
    requires forall row :: p(row) ==> row.date.Some?
    ensures InDateOrder(SlotsWhere(p, rows)) && |SlotsWhere(p, rows)| == |Filter(p, rows)|
  {
    var kept := Filter(p, rows);
    FilterMembers(p, rows);
    ByDateIsPreorder();
    SortSorts(kept, ByDate);
    SortPermutes(kept, ByDate);
    SortKeepsElements(kept, ByDate);
    var sorted := Sort(kept, ByDate);
    forall i, j | 0 <= i < j < |sorted| ensures ToSlot(sorted[i]).date <= ToSlot(sorted[j]).date {
      assert sorted[i] in kept && sorted[j] in kept && ByDate(sorted[i], sorted[j]);
    }
  }

  /** Some record, the first of its Id, has the date and the amount. */
  ghost predicate FromRecord(rows: seq<Evidence>, slot: Slot) {
    exists k :: 0 <= k < |rows| && IsFirstOfId(rows, k) && rows[k].date == Some(slot.date)
        && rows[k].amount == slot.amount
  }

  lemma {:induction false} FromUnique(rows: seq<Evidence>, slot: Slot)
    ensures FromRecord(rows, slot) <==>
            exists row :: row in UniqueById(rows) && row.date == Some(slot.date) && row.amount == slot.amount
  {
    if FromRecord(rows, slot) {
      var k :| 0 <= k < |rows| && IsFirstOfId(rows, k) && rows[k].date == Some(slot.date)
            && rows[k].amount == slot.amount;
      UniqueMembers(rows, rows[k]);
    }
    if row :| row in UniqueById(rows) && row.date == Some(slot.date) && row.amount == slot.amount {
      UniqueMembers(rows, row);
    }
  }

  /** The slots are, by date, those records that are the first of their Id and have a date on the right side of
      today: payments with an amount after today, or up to today, and cashflows from today on. */
  lemma SlotsAreRecords(rows: seq<Evidence>, today: int, slot: Slot)
    ensures slot in FuturePayments(rows, today) <==>
            slot.date > today && slot.amount.Some? && FromRecord(rows, slot)
    ensures slot in ActualReleases(rows, today) <==>
            slot.date <= today && slot.amount.Some? && FromRecord(rows, slot)
    ensures slot in ScheduledReleases(rows, today) <==> slot.date >= today && FromRecord(rows, slot)
    ensures InDateOrder(FuturePayments(rows, today)) && InDateOrder(ActualReleases(rows, today))
    ensures InDateOrder(ScheduledReleases(rows, today))
  {
    SlotMembers(Confirmed(today), UniqueById(rows), slot);
    SlotMembers(Paid(today), UniqueById(rows), slot);
    SlotMembers(Scheduled(today), UniqueById(rows), slot);
    SlotsInDateOrder(Confirmed(today), UniqueById(rows));
    SlotsInDateOrder(Paid(today), UniqueById(rows));
    SlotsInDateOrder(Scheduled(today), UniqueById(rows));
    FromUnique(rows, slot);
  }
}
