/** The rows of the supplier statement and the step series that the chart draws from them. */
module SupplierSeries {
  import opened Integers
  import opened Options
  import opened Sorting
  import opened SupplierEstimate
  import opened SupplierForecast
  import CombinedExposure

  /** No exposure stands for an incomplete row. */
  datatype Row = Row(key: Key, issued: bool, exposure: Option<int>, events: seq<Event>, undated: Option<int>)

  /** The exposure of the row equals its forecast events plus what has no date. */
  ghost predicate Balanced(row: Row, today: int) {
    row.exposure.Some? && row.undated.Some? && Spreads(Forecast(row.events, row.undated.value), row.exposure.value,
        today)
  }

  method BuildIssuedSupplierRow(key: Key, invoice: Invoice, cashflows: seq<Cashflow>, today: int) returns (row: Row)
    ensures row.key == key && row.issued
    ensures invoice.payable.None? ==> row.exposure.None? && row.events == [] && row.undated.None?
    ensures invoice.payable.Some? ==>
              && row.exposure == Some(Max(0, invoice.payable.value))
              && Balanced(row, today)
              && Forecast(row.events, row.undated.value)
                  == InvoiceForecast(invoice, cashflows, row.exposure.value, today)
  {
    if invoice.payable.None? {
      return Row(key, true, None, [], None);
    }
    var payableBalance := Max(0, invoice.payable.value);
    var forecast := InvoiceForecastEvents(invoice, cashflows, payableBalance, today);
    InvoiceConserves(invoice, cashflows, payableBalance, today);
    return Row(key, true, Some(payableBalance), forecast.events, Some(forecast.undated));
  }

  // ----- rows without an invoice -----

  datatype Group = Group(exposure: int, complete: bool, events: seq<Event>, undated: int)

  const EMPTY_GROUP := Group(0, true, [], 0)

  function AddChild(g: Group, child: Child, today: int): Group {
    match child.Estimated()
    case Ignored => g
    case Incomplete => g.(complete := false)
    case Complete(amount) =>
      var f := ChildForecast(child, amount, today);
      Group(g.exposure + amount, g.complete, g.events + f.events, g.undated + f.undated)
  }

  /** What the children of one STEM, supplier and currency add up to. */
  function GroupOf(children: seq<Child>, key: Key, today: int): Group {
    if children == [] then EMPTY_GROUP
    else
      var child, before := children[|children| - 1], GroupOf(children[..|children| - 1], key, today);
      if child.key == key then AddChild(before, child, today) else before
  }

  /** The keys of the children that are not ignored, in the order they first appear. */
  function KeysOf(children: seq<Child>): seq<Key> {
    if children == [] then []
    else
      var child, before := children[|children| - 1], KeysOf(children[..|children| - 1]);
      if child.Estimated().Ignored? || child.key in before then before else before + [child.key]
  }

  function RowOf(key: Key, g: Group): Row {
    Row(key, false, if g.complete then Some(g.exposure) else None, g.events, if g.complete then Some(g.undated)
        else None)
  }

  lemma {:induction false} KeysAppear(children: seq<Child>)
    ensures forall k :: k in KeysOf(children) <==>
              exists i :: 0 <= i < |children| && !children[i].Estimated().Ignored? && children[i].key == k
    ensures DistinctBy(KeysOf(children), (k: Key) => k)
  {
    if children != [] {
      var n := |children| - 1;
      KeysAppear(children[..n]);
      forall k | exists i :: 0 <= i < |children| && !children[i].Estimated().Ignored? && children[i].key == k
        ensures k in KeysOf(children)
      {
        var i :| 0 <= i < |children| && !children[i].Estimated().Ignored? && children[i].key == k;
        assert i < n ==> children[..n][i] == children[i];
      }
    }
  }

  lemma {:induction false} UnseenGroup(children: seq<Child>, key: Key, today: int)
    ensures key !in KeysOf(children) ==> GroupOf(children, key, today) == EMPTY_GROUP
  {
    if children != [] {
      UnseenGroup(children[..|children| - 1], key, today);
    }
  }

  method BuildUninvoicedSupplierRows(children: seq<Child>, today: int) returns (rows: seq<Row>)
    ensures rows == UninvoicedRows(children, today)
  {
    var groups: map<Key, Group>, keys: seq<Key> := map[], [];
    var k := 0;
    while k < |children|
      invariant 0 <= k <= |children|
      invariant keys == KeysOf(children[..k])
      invariant forall key :: key in groups <==> key in keys
      invariant forall key :: key in groups ==> groups[key] == GroupOf(children[..k], key, today)
    {
      var child := children[k];
      assert children[..k + 1][..k] == children[..k];
      UnseenGroup(children[..k], child.key, today);
      k := k + 1;
      var estimate := child.Estimated();
      if estimate.Ignored? {
        continue;
      }
      var group := if child.key in groups then groups[child.key] else EMPTY_GROUP;
      if estimate.Incomplete? {
        group := group.(complete := false);
      } else {
        var forecast := UninvoicedChildForecast(child, estimate.amount, today);
        group := group.(exposure := group.exposure + estimate.amount, events := group.events + forecast.events,
                        undated := group.undated + forecast.undated);
      }
      if child.key !in groups {
        keys := keys + [child.key];
      }
      groups := groups[child.key := group];
    }
    assert children[..k] == children;
    rows := [];
    k := 0;
    while k < |keys|
      invariant 0 <= k <= |keys|
      invariant |rows| == k && forall j :: 0 <= j < k ==> rows[j] == RowOf(keys[j], GroupOf(children, keys[j], today))
    {
      assert keys[k] in keys;
      var g := groups[keys[k]];
      rows := rows + [Row(keys[k], false, if g.complete then Some(g.exposure) else None, g.events,
                          if g.complete then Some(g.undated) else None)];
      k := k + 1;
    }
  }

  function Owed(child: Child): int {
    if child.Estimated().Complete? then Max(0, child.Estimated().amount) else 0
  }

  /** The estimates of one row's children, negative ones counted as nothing. */
  function OwedOn(children: seq<Child>, key: Key): int {
    if children == [] then 0
    else
      var child := children[|children| - 1];
      OwedOn(children[..|children| - 1], key) + if child.key == key then Owed(child) else 0
  }

  function TotalOwed(children: seq<Child>): int {
    if children == [] then 0 else TotalOwed(children[..|children| - 1]) + Owed(children[|children| - 1])
  }

  predicate HasNegative(children: seq<Child>, key: Key) {
    exists i :: 0 <= i < |children| && children[i].key == key && children[i].Estimated().Complete?
        && children[i].Estimated().amount < 0
  }

  lemma NegativeStep(children: seq<Child>, key: Key)
    requires children != []
    ensures var n := |children| - 1;
            HasNegative(children, key) <==>
            HasNegative(children[..n], key) ||
            (children[n].key == key && children[n].Estimated().Complete? && children[n].Estimated().amount < 0)
  {
    var n := |children| - 1;
    if HasNegative(children[..n], key) {
      var i :| 0 <= i < n && children[..n][i].key == key && children[..n][i].Estimated().Complete?
          && children[..n][i].Estimated().amount < 0;
      assert children[i].key == key;
    }
    if HasNegative(children, key) {
      var i :| 0 <= i < |children| && children[i].key == key && children[i].Estimated().Complete?
          && children[i].Estimated().amount < 0;
      assert i < n ==> children[..n][i] == children[i];
    }
  }

  /** A group spreads what its children are owed over positive events from today on; its exposure is
      that amount exactly when no estimate is negative, and less otherwise. */
  lemma {:induction false} GroupConserves(children: seq<Child>, key: Key, today: int)
    ensures var g := GroupOf(children, key, today);
            && Spreads(Forecast(g.events, g.undated), OwedOn(children, key), today)
            && g.exposure <= OwedOn(children, key)
            && (g.exposure < OwedOn(children, key) <==> HasNegative(children, key))
  {
    if children != [] {
      var n := |children| - 1;
      var child, g := children[n], GroupOf(children[..n], key, today);
      GroupConserves(children[..n], key, today);
      NegativeStep(children, key);
      if child.key == key && child.Estimated().Complete? {
        var f := ChildForecast(child, child.Estimated().amount, today);
        ChildConserves(child, child.Estimated().amount, today);
        TotalAppend(g.events, f.events);
      }
    }
  }

  /** A complete row is balanced exactly when none of its estimates is negative. */
  lemma {:induction false} RowBalancesIff(children: seq<Child>, key: Key, today: int)
    requires GroupOf(children, key, today).complete
    ensures Balanced(RowOf(key, GroupOf(children, key, today)), today) <==> !HasNegative(children, key)
  {
    GroupConserves(children, key, today);
  }

  /** For example, a row of one extra cost with a fixed amount of minus one. */
  lemma {:induction false} NegativeCostUnbalances(key: Key, today: int)
    ensures var cost := Cost(false, false, false, true, [], [Some(-1.0)], None, false, None, None, false);
            var children := [Child(key, cost, [], None, None)];
            && GroupOf(children, key, today).complete
            && !Balanced(RowOf(key, GroupOf(children, key, today)), today)
  {
    var cost := Cost(false, false, false, true, [], [Some(-1.0)], None, false, None, None, false);
    var child := Child(key, cost, [], None, None);
    var children := [child];
    assert FirstSome(cost.prices) == None && FirstSome(cost.fixed) == Some(-1.0);
    assert child.Estimated() == Complete(Cents(-1.0));
    NegativeIff(cost);
    assert children[..0] == [];
    assert children[0].Estimated().amount < 0 && HasNegative(children, key);
    RowBalancesIff(children, key, today);
  }

  function OwedOnAll(children: seq<Child>, keys: seq<Key>): int {
    if keys == [] then 0 else OwedOnAll(children, keys[..|keys| - 1]) + OwedOn(children, keys[|keys| - 1])
  }

  lemma {:induction false} OwedOnOthers(children: seq<Child>, keys: seq<Key>)
    requires children != [] && DistinctBy(keys, (k: Key) => k)
    ensures var n := |children| - 1;
            OwedOnAll(children, keys) == OwedOnAll(children[..n], keys) + if children[n].key in keys
                then Owed(children[n]) else 0
  {
    if keys != [] {
      var m, last := |keys| - 1, children[|children| - 1];
      OwedOnOthers(children, keys[..m]);
      assert keys == keys[..m] + [keys[m]];
      assert keys[m] !in keys[..m];
    }
  }

  lemma {:induction false} OwedOnUnseen(children: seq<Child>, key: Key)
    ensures key !in KeysOf(children) ==> OwedOn(children, key) == 0
  {
    if children != [] {
      OwedOnUnseen(children[..|children| - 1], key);
    }
  }

  /** Every cost lands in exactly one row: the rows together hold what the children are owed. */
  lemma {:induction false} NoCostIsLost(children: seq<Child>)
    ensures OwedOnAll(children, KeysOf(children)) == TotalOwed(children)
  {
    if children != [] {
      var n := |children| - 1;
      var child, before := children[n], KeysOf(children[..n]);
      NoCostIsLost(children[..n]);
      KeysAppear(children[..n]);
      KeysAppear(children);
      OwedOnOthers(children, KeysOf(children));
      if !child.Estimated().Ignored? && child.key !in before {
        OwedOnUnseen(children[..n], child.key);
        assert (before + [child.key])[..|before|] == before;
      }
    }
  }

  // ----- the step series -----

  predicate Eligible(row: Row, currency: int) {
    row.key.currency == currency && row.exposure.Some? && row.exposure.value > 0
  }

  predicate Earlier(a: Event, b: Event) {
    a.date <= b.date
  }

  /** The releases of one row, which its exposure caps. */
  function Steps(events: seq<Event>, available: int, today: int): seq<Event> {
    if events == [] then []
    else
      var release := Min(available, Max(0, events[0].amount));
      if events[0].date < today || available <= 0 || release <= 0 then Steps(events[1..], available, today)
      else [Event(events[0].date, release, events[0].source)] + Steps(events[1..], available - release, today)
  }

  function RowSteps(row: Row, today: int): seq<Event>
    requires row.exposure.Some?
  {
    Steps(Sort(row.events, Earlier), row.exposure.value, today)
  }

  function AllSteps(rows: seq<Row>, currency: int, today: int): seq<Event> {
    if rows == [] then []
    else
      var row := rows[|rows| - 1];
      AllSteps(rows[..|rows| - 1], currency, today) + if Eligible(row, currency) then RowSteps(row, today) else []
  }

  function Opening(rows: seq<Row>, currency: int): int {
    if rows == [] then 0
    else
      var row := rows[|rows| - 1];
      Opening(rows[..|rows| - 1], currency) + if Eligible(row, currency) then row.exposure.value else 0
  }

  function SumIf(events: seq<Event>, f: int -> bool): int {
    if events == [] then 0 else (if f(events[0].date) then events[0].amount else 0) + SumIf(events[1..], f)
  }

  function On(date: int): int -> bool {
    (d: int) => d == date
  }

  function UpTo(date: int): int -> bool {
    (d: int) => d <= date
  }

  lemma NothingAdded(steps: seq<Event>)
    ensures steps + [] == steps
  {
  }

  lemma {:induction false} SumIfAppend(a: seq<Event>, b: seq<Event>, f: int -> bool)
    ensures SumIf(a + b, f) == SumIf(a, f) + SumIf(b, f)
  {
    if a == [] {
      assert a + b == b;
    } else {
      assert (a + b)[1..] == a[1..] + b;
      SumIfAppend(a[1..], b, f);
    }
  }

  function StepDates(steps: seq<Event>): seq<int> {
    Map((e: Event) => e.date, steps)
  }

  /** `byDate` holds the releases of every date that has one. */
  ghost predicate Holds(byDate: map<int, int>, steps: seq<Event>) {
    && (forall d :: d in byDate <==> d in StepDates(steps))
    && (forall d :: d in byDate ==> byDate[d] == SumIf(steps, On(d)))
  }

  lemma {:induction false} NoStepOn(steps: seq<Event>, date: int)
    ensures date !in StepDates(steps) ==> SumIf(steps, On(date)) == 0
  {
    if steps != [] {
      NoStepOn(steps[1..], date);
      assert StepDates(steps) == [steps[0].date] + StepDates(steps[1..]);
    }
  }

  lemma HoldsNext(byDate: map<int, int>, steps: seq<Event>, step: Event)
    requires Holds(byDate, steps)
    ensures Holds(byDate[step.date := (if step.date in byDate then byDate[step.date] else 0) + step.amount],
            steps + [step])
  {
    MapAppend((e: Event) => e.date, steps, [step]);
    assert StepDates(steps + [step]) == StepDates(steps) + [step.date];
    NoStepOn(steps, step.date);
    forall d ensures SumIf(steps + [step], On(d)) == SumIf(steps, On(d)) + if d == step.date then step.amount else 0 {
      SumIfAppend(steps, [step], On(d));
      assert [step][1..] == [];
    }
  }

  /** Adds the releases of one row. */
  method AddRowSteps(row: Row, today: int, byDate: map<int, int>, ghost before: seq<Event>)
    returns (filled: map<int, int>)
    requires row.exposure.Some? && Holds(byDate, before)
    ensures Holds(filled, before + RowSteps(row, today))
  {
    var available, events := row.exposure.value, Sort(row.events, Earlier);
    filled := byDate;
    ghost var done := before;
    var k := 0;
    while k < |events|
      invariant 0 <= k <= |events|
      invariant Holds(filled, done)
      invariant done + Steps(events[k..], available, today) == before + RowSteps(row, today)
    {
      var event := events[k];
      assert events[k..][0] == event && events[k..][1..] == events[k + 1..];
      k := k + 1;
      if event.date < today || available <= 0 {
        continue;
      }
      var release := Min(available, Max(0, event.amount));
      if release <= 0 {
        continue;
      }
      ghost var step := Event(event.date, release, event.source);
      HoldsNext(filled, done, step);
      Regroup(done, [step], Steps(events[k..], available - release, today));
      filled := filled[event.date := (if event.date in filled then filled[event.date] else 0) + release];
      available := available - release;
      done := done + [step];
    }
    assert done + [] == done;
  }

  datatype Point = Point(date: int, remaining: int, released: int)

  datatype Series = Series(opening: int, undated: int, points: seq<Point>)

  /** Every point is the opening less everything released up to its date; the first is today's. */
  ghost predicate Falls(points: seq<Point>, steps: seq<Event>, dates: seq<int>, opening: int, today: int) {
    && |points| == |dates| + 1
    && points[0] == Point(today, opening, 0)
    && forall k :: 0 < k < |points| ==> points[k] == Point(dates[k - 1], opening - SumIf(steps, UpTo(dates[k - 1])),
        SumIf(steps, On(dates[k - 1])))
  }

  method CollectSteps(rows: seq<Row>, currency: int, today: int) returns (opening: int, byDate: map<int, int>)
    ensures opening == Opening(rows, currency)
    ensures Holds(byDate, AllSteps(rows, currency, today))
  {
    opening, byDate := 0, map[];
    var k := 0;
    while k < |rows|
      invariant 0 <= k <= |rows|
      invariant opening == Opening(rows[..k], currency)
      invariant Holds(byDate, AllSteps(rows[..k], currency, today))
    {
      var row := rows[k];
      assert rows[..k + 1][..k] == rows[..k];
      ghost var before := AllSteps(rows[..k], currency, today);
      NothingAdded(before);
      if row.key.currency == currency && row.exposure.Some? && row.exposure.value > 0 {
        opening := opening + row.exposure.value;
        byDate := AddRowSteps(row, today, byDate, before);
      }
      k := k + 1;
    }
    assert rows[..k] == rows;
  }

  /** `remaining` falls step by step; the clamp at zero never changes it. */
  method DrawSteps(byDate: map<int, int>, opening: int, today: int, ghost steps: seq<Event>)
    returns (points: seq<Point>, remaining: int)
    requires Holds(byDate, steps)
    requires EventsAhead(steps, today) && Total(steps) <= opening
    ensures Falls(points, steps, DistinctDates(StepDates(steps)), opening, today)
    ensures remaining == opening - Total(steps)
  {
    var dates := SortedKeys(byDate, StepDates(steps));
    points, remaining := [Point(today, opening, 0)], opening;
    var k := 0;
    while k < |dates|
      invariant 0 <= k <= |dates|
      invariant Falls(points, steps, dates[..k], opening, today)
      invariant remaining == opening - if k == 0 then 0 else SumIf(steps, UpTo(dates[k - 1]))
    {
      assert dates[k] in dates;
      var release := byDate[dates[k]];
      UpToNext(steps, dates, k);
      UpToWithin(steps, dates[k]);
      remaining := Max(0, remaining - release);
      FallsNext(points, steps, dates, k, opening, today, Point(dates[k], remaining, release));
      points := points + [Point(dates[k], remaining, release)];
      k := k + 1;
    }
    assert dates[..k] == dates;
    LastUpTo(steps);
  }

  lemma {:induction false} FallsNext(points: seq<Point>, steps: seq<Event>, dates: seq<int>, k: nat, opening: int,
                                     today: int,
                                     point: Point)
    requires k < |dates| && Falls(points, steps, dates[..k], opening, today)
    requires point == Point(dates[k], opening - SumIf(steps, UpTo(dates[k])), SumIf(steps, On(dates[k])))
    ensures Falls(points + [point], steps, dates[..k + 1], opening, today)
  {
  }

  method BuildStepSeries(rows: seq<Row>, currency: int, today: int) returns (series: Series)
    ensures series.opening == Opening(rows, currency)
    ensures SeriesOf(series.points, rows, currency, series.opening, today)
    ensures series.undated == series.opening - Total(AllSteps(rows, currency, today)) >= 0
  {
    var opening, byDate := CollectSteps(rows, currency, today);
    StepsWithinOpening(rows, currency, today);
    var points, remaining := DrawSteps(byDate, opening, today, AllSteps(rows, currency, today));
    return Series(opening, Max(0, remaining), points);
  }

  /** `[...byDate.keys()].sort()`. */
  method SortedKeys(byDate: map<int, int>, ghost listed: seq<int>) returns (dates: seq<int>)
    requires forall d :: d in byDate <==> d in listed
    ensures dates == DistinctDates(listed)
    ensures Ascending(dates) && forall d :: d in dates <==> d in byDate
  {
    var left := byDate.Keys;
    dates := [];
    while left != {}
      invariant left <= byDate.Keys
      invariant Ascending(dates)
      invariant forall d :: d in dates <==> d in byDate && d !in left
      decreases |left|
    {
      NonEmptySet(left);
      var d :| d in left;
      left := left - {d};
      ghost var before := dates;
      dates := InsertDate(d, dates);
      InsertDateOrders(d, before);
    }
    DistinctDatesOrder(listed);
    AscendingUnique(dates, DistinctDates(listed));
  }

  lemma NonEmptySet(s: set<int>)
    ensures s != {} <==> exists d :: d in s
  {
    if forall d :: d !in s {
      assert s == {};
    }
  }

  lemma {:induction false} StepsWithin(events: seq<Event>, available: int, today: int)
    requires available >= 0
    ensures Total(Steps(events, available, today)) <= available
    ensures EventsAhead(Steps(events, available, today), today)
  {
    if events != [] {
      var release := Min(available, Max(0, events[0].amount));
      StepsWithin(events[1..], available, today);
      if release > 0 {
        StepsWithin(events[1..], available - release, today);
      }
    }
  }

  /** What is released never exceeds the opening, and all of it is released today or later. */
  lemma {:induction false} StepsWithinOpening(rows: seq<Row>, currency: int, today: int)
    ensures Total(AllSteps(rows, currency, today)) <= Opening(rows, currency)
    ensures EventsAhead(AllSteps(rows, currency, today), today)
  {
    if rows != [] {
      var n := |rows| - 1;
      StepsWithinOpening(rows[..n], currency, today);
      NothingAdded(AllSteps(rows[..n], currency, today));
      if Eligible(rows[n], currency) {
        StepsWithin(Sort(rows[n].events, Earlier), rows[n].exposure.value, today);
        TotalAppend(AllSteps(rows[..n], currency, today), RowSteps(rows[n], today));
      }
    }
  }

  lemma {:induction false} SumIfSplits(events: seq<Event>, f: int -> bool, g: int -> bool, h: int -> bool)
    requires forall k :: 0 <= k < |events| ==> var d := events[k].date; !(f(d) && g(d)) && (h(d) <==> f(d) || g(d))
    ensures SumIf(events, h) == SumIf(events, f) + SumIf(events, g)
  {
    if events != [] {
      assert forall k :: 0 <= k < |events| - 1 ==> events[1..][k] == events[k + 1];
      SumIfSplits(events[1..], f, g, h);
    }
  }

  lemma ListedDates(steps: seq<Event>, k: nat)
    requires k < |steps|
    ensures steps[k].date in DistinctDates(StepDates(steps))
  {
    DistinctDatesOrder(StepDates(steps));
    assert StepDates(steps)[k] == steps[k].date;
  }

  lemma {:induction false} UpToNext(steps: seq<Event>, dates: seq<int>, k: nat)
    requires dates == DistinctDates(StepDates(steps)) && k < |dates|
    ensures SumIf(steps, UpTo(dates[k])) == (if k == 0 then 0 else SumIf(steps, UpTo(dates[k - 1])))
            + SumIf(steps, On(dates[k]))
  {
    DistinctDatesOrder(StepDates(steps));
    var f := if k == 0 then (d: int) => false else UpTo(dates[k - 1]);
    forall j | 0 <= j < |steps|
      ensures var d := steps[j].date; !(f(d) && On(dates[k])(d)) && (UpTo(dates[k])(d) <==> f(d) || On(dates[k])(d))
    {
      ListedDates(steps, j);
      var i :| 0 <= i < |dates| && dates[i] == steps[j].date;
    }
    SumIfSplits(steps, f, On(dates[k]), UpTo(dates[k]));
    if k == 0 {
      NothingIf(steps, f);
    }
  }

  lemma {:induction false} NothingIf(steps: seq<Event>, f: int -> bool)
    requires forall k :: 0 <= k < |steps| ==> !f(steps[k].date)
    ensures SumIf(steps, f) == 0
  {
    if steps != [] {
      NothingIf(steps[1..], f);
    }
  }

  lemma {:induction false} UpToWithin(steps: seq<Event>, date: int)
    requires forall k :: 0 <= k < |steps| ==> steps[k].amount > 0
    ensures SumIf(steps, UpTo(date)) <= Total(steps)
  {
    if steps != [] {
      UpToWithin(steps[1..], date);
    }
  }

  lemma {:induction false} EverythingIf(steps: seq<Event>, f: int -> bool)
    requires forall k :: 0 <= k < |steps| ==> f(steps[k].date)
    ensures SumIf(steps, f) == Total(steps)
  {
    if steps != [] {
      EverythingIf(steps[1..], f);
    }
  }

  lemma {:induction false} LastUpTo(steps: seq<Event>)
    ensures var dates := DistinctDates(StepDates(steps));
            Total(steps) == if dates == [] then 0 else SumIf(steps, UpTo(dates[|dates| - 1]))
  {
    var dates := DistinctDates(StepDates(steps));
    DistinctDatesOrder(StepDates(steps));
    if dates == [] {
      DistinctDatesEmpty(StepDates(steps));
    } else {
      forall k | 0 <= k < |steps| ensures UpTo(dates[|dates| - 1])(steps[k].date) {
        ListedDates(steps, k);
        var i :| 0 <= i < |dates| && dates[i] == steps[k].date;
      }
      EverythingIf(steps, UpTo(dates[|dates| - 1]));
    }
  }

  // ----- the rows and their steps, one by one -----

  /** One more child: its row gains its amount and its events, and is incomplete from then on if the estimate is. */
  lemma {:induction false} ChildAdds(children: seq<Child>, child: Child, key: Key, today: int)
    ensures var before, after := GroupOf(children, key, today), GroupOf(children + [child], key, today);
            var estimate := EstimateUninvoicedSupplierChild(child.cost);
            && GroupOf([], key, today) == Group(0, true, [], 0)
            && (child.key != key || estimate.Ignored? ==> after == before)
            && (child.key == key && estimate.Incomplete? ==>
                  after == Group(before.exposure, false, before.events, before.undated))
            && (child.key == key && estimate.Complete? ==>
                  var f := ChildForecast(child, estimate.amount, today);
                  after == Group(before.exposure + estimate.amount, before.complete, before.events + f.events,
                                 before.undated + f.undated))
  {
    assert (children + [child])[..|children|] == children;
  }

  /** A row shows an exposure and an undated amount exactly if every estimate on it is complete. */
  lemma {:induction false} RowIsComplete(children: seq<Child>, key: Key, today: int)
    ensures var row := RowOf(key, GroupOf(children, key, today));
            var complete := forall i :: 0 <= i < |children| && children[i].key == key ==>
                              !EstimateUninvoicedSupplierChild(children[i].cost).Incomplete?;
            && row.key == key && !row.issued
            && (row.exposure.Some? <==> complete) && (row.undated.Some? <==> complete)
            && (complete ==> row.exposure.value == GroupOf(children, key, today).exposure
                             && row.undated.value == GroupOf(children, key, today).undated)
            && row.events == GroupOf(children, key, today).events
  {
    if children != [] {
      var n := |children| - 1;
      RowIsComplete(children[..n], key, today);
      ChildAdds(children[..n], children[n], key, today);
      assert children == children[..n] + [children[n]];
    }
  }

  /** What a currency opens with: the exposures above zero of its complete rows. */
  lemma {:induction false} OpeningAdds(rows: seq<Row>, row: Row, currency: int)
    ensures Opening([], currency) == 0
    ensures Opening(rows + [row], currency) == Opening(rows, currency)
            + if row.key.currency == currency && row.exposure.Some? && row.exposure.value > 0 then row.exposure.value
              else 0
  {
    assert (rows + [row])[..|rows|] == rows;
  }

  /** One more event: it releases what the earlier ones leave of the exposure, if it is not past. */
  lemma {:induction false} StepNext(events: seq<Event>, e: Event, available: int, today: int)
    requires available >= 0
    ensures var before := Steps(events, available, today);
            var left := available - Total(before);
            var released := if e.amount < left then e.amount else left;
            Steps(events + [e], available, today)
            == before + if e.date >= today && released > 0 then [Event(e.date, released, e.source)] else []
  {
    if events == [] {
      assert [] + [e] == [e] && [e][1..] == [];
    } else {
      var all, rest := events + [e], events[1..];
      var release := Min(available, Max(0, events[0].amount));
      assert all[0] == events[0] && all[1..] == rest + [e];
      if events[0].date < today || available <= 0 || release <= 0 {
        StepNext(rest, e, available, today);
      } else {
        StepNext(rest, e, available - release, today);
      }
    }
  }

  /** The events of a row are released in date order. */
  lemma {:induction false} RowInDateOrder(row: Row, today: int)
    requires row.exposure.Some?
    ensures var sorted := Sort(row.events, Earlier);
            && RowSteps(row, today) == Steps(sorted, row.exposure.value, today)
            && multiset(sorted) == multiset(row.events)
            && forall i, j :: 0 <= i < j < |sorted| ==> sorted[i].date <= sorted[j].date
  {
    assert TotalPreorder(Earlier);
    SortPermutes(row.events, Earlier);
    SortSorts(row.events, Earlier);
    var sorted := Sort(row.events, Earlier);
    forall i, j | 0 <= i < j < |sorted| ensures sorted[i].date <= sorted[j].date {
      assert Earlier(sorted[i], sorted[j]);
    }
  }

  // ----- balanced rows -----

  lemma {:induction false} InsertSum(x: Event, events: seq<Event>, f: int -> bool)
    ensures SumIf(Insert(x, events, Earlier), f) == SumIf([x] + events, f)
  {
    if events != [] && !Earlier(x, events[0]) {
      InsertSum(x, events[1..], f);
      assert ([x] + events)[1..] == events && ([x] + events[1..])[1..] == events[1..];
    }
  }

  lemma {:induction false} SortSum(events: seq<Event>, f: int -> bool)
    ensures SumIf(Sort(events, Earlier), f) == SumIf(events, f)
  {
    if events != [] {
      SortSum(events[1..], f);
      InsertSum(events[0], Sort(events[1..], Earlier), f);
      assert ([events[0]] + Sort(events[1..], Earlier))[1..] == Sort(events[1..], Earlier);
    }
  }

  lemma {:induction false} NothingIsCapped(events: seq<Event>, available: int, today: int)
    requires EventsAhead(events, today) && Total(events) <= available
    ensures Steps(events, available, today) == events
  {
    if events != [] {
      assert EventsAhead(events[1..], today);
      TotalPositive(events[1..], today);
      NothingIsCapped(events[1..], available - events[0].amount, today);
    }
  }

  lemma {:induction false} TotalPositive(events: seq<Event>, today: int)
    requires EventsAhead(events, today)
    ensures Total(events) >= 0
  {
    if events != [] {
      assert EventsAhead(events[1..], today);
      TotalPositive(events[1..], today);
    }
  }

  /** A balanced row releases exactly its forecast events. */
  lemma BalancedRowSteps(row: Row, today: int, f: int -> bool)
    requires Balanced(row, today)
    ensures SumIf(RowSteps(row, today), f) == SumIf(row.events, f)
    ensures Total(RowSteps(row, today)) == Total(row.events)
  {
    var sorted := Sort(row.events, Earlier);
    var always := (d: int) => true;
    SortKeepsElements(row.events, Earlier);
    forall k | 0 <= k < |sorted| ensures sorted[k].amount > 0 && sorted[k].date >= today {
      assert sorted[k] in row.events;
    }
    SortSum(row.events, always);
    EverythingIf(row.events, always);
    EverythingIf(sorted, always);
    NothingIsCapped(sorted, row.exposure.value, today);
    SortSum(row.events, f);
  }

  /** The forecast events of the drawn rows whose date satisfies `f`. */
  function Forecasted(rows: seq<Row>, currency: int, f: int -> bool): int {
    if rows == [] then 0
    else
      var row := rows[|rows| - 1];
      Forecasted(rows[..|rows| - 1], currency, f) +
      if row.key.currency == currency && row.exposure.Some? && row.exposure.value > 0 then SumIf(row.events, f) else 0
  }

  function UndatedOf(rows: seq<Row>, currency: int): int {
    if rows == [] then 0
    else
      var row := rows[|rows| - 1];
      UndatedOf(rows[..|rows| - 1], currency) +
      if row.key.currency == currency && row.exposure.Some? && row.exposure.value > 0 && row.undated.Some?
      then row.undated.value else 0
  }

  ghost predicate AllBalanced(rows: seq<Row>, currency: int, today: int) {
    forall k :: 0 <= k < |rows| && Eligible(rows[k], currency) ==> Balanced(rows[k], today)
  }

  function UninvoicedRows(children: seq<Child>, today: int): seq<Row> {
    Map((k: Key) => RowOf(k, GroupOf(children, k, today)), KeysOf(children))
  }

  /** Without negative estimates every row that is drawn is balanced; issued rows always are. */
  lemma UninvoicedRowsBalance(children: seq<Child>, currency: int, today: int)
    requires forall i :: 0 <= i < |children| && children[i].Estimated().Complete? ==>
             children[i].Estimated().amount >= 0
    ensures AllBalanced(UninvoicedRows(children, today), currency, today)
  {
    var rows, keys := UninvoicedRows(children, today), KeysOf(children);
    forall k | 0 <= k < |rows| && Eligible(rows[k], currency) ensures Balanced(rows[k], today) {
      assert GroupOf(children, keys[k], today).complete;
      RowBalancesIff(children, keys[k], today);
    }
  }

  /** Prices, fixed amounts and quantities of zero or more never unbalance a row. */
  lemma PlainEvidenceBalances(children: seq<Child>, currency: int, today: int)
    requires forall i :: 0 <= i < |children| ==> PlainEvidence(children[i].cost)
    ensures AllBalanced(UninvoicedRows(children, today), currency, today)
  {
    forall i | 0 <= i < |children| && children[i].Estimated().Complete? ensures children[i].Estimated().amount >= 0 {
      PlainEvidenceIsOwed(children[i].cost);
    }
    UninvoicedRowsBalance(children, currency, today);
  }

  /** For balanced rows the series loses nothing: what falls by a date is every forecast event of every
      row up to that date, and what is left at the end is the sum of the undated amounts. */
  lemma {:induction false} SeriesConserves(rows: seq<Row>, currency: int, today: int, f: int -> bool)
    requires AllBalanced(rows, currency, today)
    ensures var steps := AllSteps(rows, currency, today);
            && SumIf(steps, f) == Forecasted(rows, currency, f)
            && Opening(rows, currency) - Total(steps) == UndatedOf(rows, currency)
  {
    if rows != [] {
      var n := |rows| - 1;
      assert AllBalanced(rows[..n], currency, today);
      SeriesConserves(rows[..n], currency, today, f);
      NothingAdded(AllSteps(rows[..n], currency, today));
      if Eligible(rows[n], currency) {
        BalancedRowSteps(rows[n], today, f);
        SumIfAppend(AllSteps(rows[..n], currency, today), RowSteps(rows[n], today), f);
        TotalAppend(AllSteps(rows[..n], currency, today), RowSteps(rows[n], today));
      }
    }
  }

  // ----- the order that the combined sweep relies on -----

  function SweepPoints(points: seq<Point>): seq<CombinedExposure.SupplierPoint> {
    seq(|points|, i requires 0 <= i < |points| => CombinedExposure.SupplierPoint(points[i].date,
        points[i].remaining as real / 100.0))
  }

  /** The points of a drawn series. */
  ghost predicate SeriesOf(points: seq<Point>, rows: seq<Row>, currency: int, opening: int, today: int) {
    Falls(points, AllSteps(rows, currency, today), DistinctDates(StepDates(AllSteps(rows, currency, today))), opening,
        today)
  }

  /** The points of every series are in date order, as the combined sweep needs them. */
  lemma SeriesFitsSweep(rows: seq<Row>, currency: int, today: int, points: seq<Point>, opening: int)
    requires SeriesOf(points, rows, currency, opening, today)
    ensures CombinedExposure.Ordered(CombinedExposure.SupplierDates(SweepPoints(points)))
  {
    var steps := AllSteps(rows, currency, today);
    var dates := DistinctDates(StepDates(steps));
    DistinctDatesOrder(StepDates(steps));
    StepsWithinOpening(rows, currency, today);
    forall i | 0 <= i < |dates| ensures dates[i] >= today {
      assert dates[i] in StepDates(steps);
      var j :| 0 <= j < |steps| && StepDates(steps)[j] == dates[i];
    }
  }
}
