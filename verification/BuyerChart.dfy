/** The buyer exposure chart: the forecast releases of many STEMs, bucketed by day, week or month,
    lower the exposure of the selected account and of its group, once for the midpoint and once for
    either end of the quantity range. The event lists that the points carry for display are left out. */
module BuyerChart {
  import opened BuyerForecast
  import opened Money
  import opened Options
  import opened Sorting
  import Calendar
  import ReleaseDate

  datatype Range = Range(minimum: real, maximum: real)

  datatype Scenario = Midpoint | Minimum | Maximum

  /** `selected` says whether the STEM belongs to the selected account. */
  datatype Stem = Stem(selected: bool, exposure: real, range: Option<Range>, payments: seq<Slot>, scheduled: seq<Slot>,
                       residual: Option<int>)

  datatype Release = Release(selected: bool, exposure: real, range: Option<Range>, events: seq<Event>,
                             minimumEvents: seq<Event>, maximumEvents: seq<Event>)

  /** The exposure a scenario starts from. */
  function Start(exposure: real, range: Option<Range>, scenario: Scenario): real {
    match scenario
    case Midpoint => exposure
    case Minimum => if range.Some? then range.value.minimum else 0.0
    case Maximum => if range.Some? then range.value.maximum else 0.0
  }

  function ForecastFrom(stem: Stem, exposure: real): seq<Event> {
    Forecast(exposure, stem.payments, stem.scheduled, stem.residual)
  }

  function ReleaseOf(stem: Stem): Release {
    Release(stem.selected, stem.exposure, stem.range, ForecastFrom(stem, stem.exposure),
            if stem.range.Some? then ForecastFrom(stem, stem.range.value.minimum) else [],
            if stem.range.Some? then ForecastFrom(stem, stem.range.value.maximum) else [])
  }

  /** The records of a STEM; no exposure counts as zero, and a range is there only if it is complete. */
  datatype StemCase = StemCase(selected: bool, exposure: Option<real>, range: Option<Range>, payments: seq<Evidence>,
      cashflows: seq<Evidence>,
                               due: ReleaseDate.DueEvidence, delay: Option<int>, blocked: set<int>)

  function StemOf(c: StemCase, today: int): Stem {
    Stem(c.selected, if c.exposure.Some? then c.exposure.value else 0.0, c.range, FuturePayments(c.payments, today),
         ScheduledReleases(c.cashflows, today), ReleaseDate.ReleaseCandidate(c.due, today, c.delay, c.blocked).date)
  }

  /** Nothing of a STEM is scheduled before today. */
  ghost predicate AheadOf(stem: Stem, today: int) {
    && SlotsFrom(stem.payments, today)
    && SlotsFrom(stem.scheduled, today)
    && (stem.residual.Some? ==> stem.residual.value >= today)
  }

  /** What is built from a STEM's records lies ahead. */
  lemma StemIsAhead(c: StemCase, today: int)
    ensures AheadOf(StemOf(c, today), today)
  {
    SlotsAreAhead(c.payments, c.cashflows, today);
    ReleaseDate.CandidateFacts(c.due, today, c.delay, c.blocked);
  }

  /** The date of the first dated event. */
  function PrimaryDate(events: seq<Event>): Option<int> {
    if events == [] then None else if events[0].date.Some? then events[0].date else PrimaryDate(events[1..])
  }

  method BuildStemCreditRelease(c: StemCase, today: int)
    returns (release: Release, actual: seq<Slot>, releaseDate: Option<int>)
    ensures release == ReleaseOf(StemOf(c, today))
    ensures release.selected == c.selected && release.range == c.range
    ensures release.exposure == if c.exposure.Some? then c.exposure.value else 0.0
    ensures var payments, scheduled := FuturePayments(c.payments, today), ScheduledReleases(c.cashflows, today);
            var residual := ReleaseDate.ReleaseCandidate(c.due, today, c.delay, c.blocked).date;
            && release.events == Forecast(release.exposure, payments, scheduled, residual)
            && release.minimumEvents
            == (if c.range.None? then [] else Forecast(c.range.value.minimum, payments, scheduled, residual))
            && release.maximumEvents
            == (if c.range.None? then [] else Forecast(c.range.value.maximum, payments, scheduled, residual))
    ensures actual == ActualReleases(c.payments, today)
    ensures releaseDate == PrimaryDate(release.events)
    ensures releaseDate.Some? ==> releaseDate.value >= today
  {
    var exposure := if c.exposure.Some? then c.exposure.value else 0.0;
    actual := ActualReleases(c.payments, today);
    var futurePayments := FuturePayments(c.payments, today);
    var scheduled := ScheduledReleases(c.cashflows, today);
    var candidate := ReleaseDate.ReleaseCandidate(c.due, today, c.delay, c.blocked).date;
    var events := ForecastEventsForExposure(exposure, futurePayments, scheduled, candidate);
    var minimumEvents: seq<Event>, maximumEvents: seq<Event> := [], [];
    if c.range.Some? {
      minimumEvents := ForecastEventsForExposure(c.range.value.minimum, futurePayments, scheduled, candidate);
      maximumEvents := ForecastEventsForExposure(c.range.value.maximum, futurePayments, scheduled, candidate);
    }
    StemIsAhead(c, today);
    ForecastDates(exposure, futurePayments, scheduled, candidate, today);
    PrimaryIsAnEvent(events);
    return Release(c.selected, exposure, c.range, events, minimumEvents, maximumEvents), actual, PrimaryDate(events);
  }

  lemma {:induction false} PrimaryIsAnEvent(events: seq<Event>)
    ensures PrimaryDate(events).Some? ==> exists e :: e in events && e.date == PrimaryDate(events)
    ensures PrimaryDate(events).None? ==> forall e :: e in events ==> e.date.None?
  {
    if events != [] {
      PrimaryIsAnEvent(events[1..]);
      assert events == [events[0]] + events[1..];
    }
  }

  function EventsOf(r: Release, scenario: Scenario): seq<Event> {
    match scenario
    case Midpoint => r.events
    case Minimum => r.minimumEvents
    case Maximum => r.maximumEvents
  }

  // ----- the events of the chart -----

  datatype Tagged = Tagged(date: int, amount: real, selected: bool, scenario: Scenario)

  /** The dated events from today on. */
  function Decorate(events: seq<Event>, selected: bool, scenario: Scenario, today: int): seq<Tagged> {
    if events == [] then []
    else
      var date := events[0].date;
      (if date.Some? && date.value >= today then [Tagged(date.value, events[0].amount, selected, scenario)] else []) +
      Decorate(events[1..], selected, scenario, today)
  }

  function Future(releases: seq<Release>, scenario: Scenario, today: int): seq<Tagged> {
    if releases == [] then []
    else
      Decorate(EventsOf(releases[0], scenario), releases[0].selected, scenario, today) +
      Future(releases[1..], scenario, today)
  }

  predicate RangeComplete(releases: seq<Release>) {
    releases != [] && forall k :: 0 <= k < |releases| ==> releases[k].range.Some?
  }

  function ChartEvents(releases: seq<Release>, today: int): seq<Tagged> {
    Future(releases, Midpoint, today) +
    if RangeComplete(releases) then Future(releases, Minimum, today) + Future(releases, Maximum, today) else []
  }

  // ----- buckets -----

  datatype Granularity = Day | Week | Month

  function WeekStart(date: int): int {
    date - (ReleaseDate.WeekDay(date) + 6) % 7
  }

  function BucketDate(granularity: Granularity, date: int): int {
    match granularity
    case Day => date
    case Week => WeekStart(date)
    case Month => Calendar.MonthStart(date)
  }

  function DatesOf(events: seq<Tagged>): seq<int> {
    Map((e: Tagged) => e.date, events)
  }

  function ChartGranularity(events: seq<Tagged>): Granularity {
    var dates := DistinctDates(DatesOf(events));
    if |dates| <= 60 then Day
    else if dates[|dates| - 1] - dates[0] <= 365 then Week
    else Month
  }

  datatype Pair = Pair(account: real, other: real)

  datatype Bucket = Bucket(midpoint: Pair, minimum: Pair, maximum: Pair)

  const EMPTY_BUCKET := Bucket(Pair(0.0, 0.0), Pair(0.0, 0.0), Pair(0.0, 0.0))

  function SumWhere(events: seq<Tagged>, f: Tagged -> bool): real {
    if events == [] then 0.0
    else
      var last := events[|events| - 1];
      SumWhere(events[..|events| - 1], f) + if f(last) then last.amount else 0.0
  }

  function Falls(e: Tagged, bucket: int -> int, date: int, scenario: Scenario, selected: bool): bool {
    bucket(e.date) == date && e.scenario == scenario && e.selected == selected
  }

  function PairAt(events: seq<Tagged>, bucket: int -> int, date: int, scenario: Scenario): Pair {
    Pair(SumWhere(events, (e: Tagged) => Falls(e, bucket, date, scenario, true)),
         SumWhere(events, (e: Tagged) => Falls(e, bucket, date, scenario, false)))
  }

  function BucketAt(events: seq<Tagged>, bucket: int -> int, date: int): Bucket {
    Bucket(PairAt(events, bucket, date, Midpoint), PairAt(events, bucket, date, Minimum),
           PairAt(events, bucket, date, Maximum))
  }

  function AddPair(p: Pair, e: Tagged): Pair {
    if e.selected then p.(account := p.account + e.amount) else p.(other := p.other + e.amount)
  }

  function AddToBucket(b: Bucket, e: Tagged): Bucket {
    match e.scenario
    case Midpoint => b.(midpoint := AddPair(b.midpoint, e))
    case Minimum => b.(minimum := AddPair(b.minimum, e))
    case Maximum => b.(maximum := AddPair(b.maximum, e))
  }

  lemma BucketStep(events: seq<Tagged>, bucket: int -> int, date: int, e: Tagged)
    ensures BucketAt(events + [e], bucket, date)
         == if bucket(e.date) == date then AddToBucket(BucketAt(events, bucket, date), e)
             else BucketAt(events, bucket, date)
  {
    assert (events + [e])[..|events|] == events;
  }

  lemma EmptyBucketAt(events: seq<Tagged>, bucket: int -> int, date: int)
    requires forall k :: 0 <= k < |events| ==> bucket(events[k].date) != date
    ensures BucketAt(events, bucket, date) == EMPTY_BUCKET
  {
    forall f: Tagged -> bool | forall k :: 0 <= k < |events| ==> !f(events[k]) ensures SumWhere(events, f) == 0.0 {
      NothingToSum(events, f);
    }
  }

  lemma {:induction false} NothingToSum(events: seq<Tagged>, f: Tagged -> bool)
    requires forall k :: 0 <= k < |events| ==> !f(events[k])
    ensures SumWhere(events, f) == 0.0
  {
    if events != [] {
      NothingToSum(events[..|events| - 1], f);
    }
  }

  method FillBuckets(events: seq<Tagged>, bucket: int -> int) returns (buckets: map<int, Bucket>)
    ensures forall t :: t in buckets <==> exists k :: 0 <= k < |events| && bucket(events[k].date) == t
    ensures forall t :: t in buckets ==> buckets[t] == BucketAt(events, bucket, t)
  {
    buckets := map[];
    var k := 0;
    while k < |events|
      invariant 0 <= k <= |events|
      invariant forall t :: t in buckets <==> exists j :: 0 <= j < k && bucket(events[j].date) == t
      invariant forall t :: t in buckets ==> buckets[t] == BucketAt(events[..k], bucket, t)
    {
      var date := bucket(events[k].date);
      assert events[..k + 1] == events[..k] + [events[k]];
      if date !in buckets {
        EmptyBucketAt(events[..k], bucket, date);
      }
      var current := if date in buckets then buckets[date] else EMPTY_BUCKET;
      forall t ensures BucketAt(events[..k + 1], bucket, t)
                    == if date == t then AddToBucket(BucketAt(events[..k], bucket, t), events[k])
                        else BucketAt(events[..k], bucket, t)
      {
        BucketStep(events[..k], bucket, t, events[k]);
      }
      buckets := buckets[date := AddToBucket(current, events[k])];
      k := k + 1;
    }
    assert events[..k] == events;
  }

  // ----- points -----

  /** The exposure of the selected account and of its group. */
  datatype Exposure = Exposure(individual: Option<real>, groupWide: Option<real>)

  datatype Point = Point(date: int, released: Bucket, midpoint: Exposure, minimum: Exposure, maximum: Exposure,
      plateau: bool)

  function AmountAt(events: seq<Tagged>, bucket: int -> int, date: int, scenario: Scenario, groupWide: bool): real {
    var pair := PairAt(events, bucket, date, scenario);
    if groupWide then pair.account + pair.other else pair.account
  }

  function AmountsAt(events: seq<Tagged>, bucket: int -> int, dates: seq<int>, scenario: Scenario,
                     groupWide: bool): seq<real> {
    if dates == [] then []
    else
      AmountsAt(events, bucket, dates[..|dates| - 1], scenario, groupWide) +
      [AmountAt(events, bucket, dates[|dates| - 1], scenario, groupWide)]
  }

  /** An opening exposure after the buckets of `dates`, rounded at every step. */
  function Balance(opening: Option<real>, events: seq<Tagged>, bucket: int -> int, dates: seq<int>, scenario: Scenario,
                   groupWide: bool): Option<real> {
    if opening.None? then None else Some(Running(opening.value, AmountsAt(events, bucket, dates, scenario, groupWide)))
  }

  function BalanceOf(opening: Exposure, events: seq<Tagged>, bucket: int -> int, dates: seq<int>,
                     scenario: Scenario): Exposure {
    Exposure(Balance(opening.individual, events, bucket, dates, scenario, false),
             Balance(opening.groupWide, events, bucket, dates, scenario, true))
  }

  function Lower(e: Exposure, p: Pair): Exposure {
    Exposure(if e.individual.None? then None else Some(Round2(e.individual.value - p.account)),
             if e.groupWide.None? then None else Some(Round2(e.groupWide.value - p.account - p.other)))
  }

  lemma {:induction false} RunningStep(opening: real, amounts: seq<real>, amount: real)
    ensures Running(opening, amounts + [amount]) == Round2(Running(opening, amounts) - amount)
  {
    assert (amounts + [amount])[..|amounts|] == amounts;
  }

  lemma BalanceStep(opening: Option<real>, events: seq<Tagged>, bucket: int -> int, dates: seq<int>, date: int,
                    scenario: Scenario,
                    groupWide: bool)
    requires opening.Some?
    ensures Balance(opening, events, bucket, dates + [date], scenario, groupWide)
         == Some(Round2(Balance(opening, events, bucket, dates, scenario, groupWide).value
                        - AmountAt(events, bucket, date, scenario, groupWide)))
  {
    assert (dates + [date])[..|dates|] == dates;
    RunningStep(opening.value, AmountsAt(events, bucket, dates, scenario, groupWide),
        AmountAt(events, bucket, date, scenario, groupWide));
  }

  lemma LowerAppend(opening: Exposure, events: seq<Tagged>, bucket: int -> int, dates: seq<int>, date: int,
                    scenario: Scenario)
    ensures BalanceOf(opening, events, bucket, dates + [date], scenario)
         == Lower(BalanceOf(opening, events, bucket, dates, scenario), PairAt(events, bucket, date, scenario))
  {
    var p := PairAt(events, bucket, date, scenario);
    LowerOne(opening.individual, events, bucket, dates, date, scenario, false);
    LowerOne(opening.groupWide, events, bucket, dates, date, scenario, true);
    LowerIs(BalanceOf(opening, events, bucket, dates, scenario),
        BalanceOf(opening, events, bucket, dates + [date], scenario), p,
            AmountAt(events, bucket, date, scenario, false), AmountAt(events, bucket, date, scenario, true));
  }

  function LowerBy(balance: Option<real>, amount: real): Option<real> {
    if balance.None? then None else Some(Round2(balance.value - amount))
  }

  lemma LowerIs(before: Exposure, after: Exposure, p: Pair, account: real, all: real)
    requires account == p.account && all == p.account + p.other
    requires after.individual == LowerBy(before.individual, account)
             && after.groupWide == LowerBy(before.groupWide, all)
    ensures after == Lower(before, p)
  {
    assert before.groupWide.Some? ==> before.groupWide.value - all == before.groupWide.value - p.account - p.other;
  }

  lemma LowerOne(opening: Option<real>, events: seq<Tagged>, bucket: int -> int, dates: seq<int>, date: int,
                 scenario: Scenario, groupWide: bool)
    ensures var before := Balance(opening, events, bucket, dates, scenario, groupWide);
            Balance(opening, events, bucket, dates + [date], scenario, groupWide)
            == LowerBy(before, AmountAt(events, bucket, date, scenario, groupWide))
  {
    if opening.Some? {
      BalanceStep(opening, events, bucket, dates, date, scenario, groupWide);
    }
  }

  lemma LowerStep(opening: Exposure, events: seq<Tagged>, bucket: int -> int, dates: seq<int>, k: nat,
                  scenario: Scenario)
    requires k < |dates|
    ensures BalanceOf(opening, events, bucket, dates[..k + 1], scenario)
         == Lower(BalanceOf(opening, events, bucket, dates[..k], scenario), PairAt(events, bucket, dates[k], scenario))
  {
    assert dates[..k + 1] == dates[..k] + [dates[k]];
    LowerAppend(opening, events, bucket, dates[..k], dates[k], scenario);
  }

  function TotalStart(releases: seq<Release>, scenario: Scenario, groupWide: bool): real {
    if releases == [] then 0.0
    else
      (if groupWide || releases[0].selected then Start(releases[0].exposure, releases[0].range, scenario) else 0.0) +
      TotalStart(releases[1..], scenario, groupWide)
  }

  /** The openings of the range: the sums of the minimum or maximum exposures. */
  function RangeOpening(releases: seq<Release>, scenario: Scenario): Exposure {
    if !RangeComplete(releases) then Exposure(None, None)
    else Exposure(Some(TotalStart(releases, scenario, false)), Some(TotalStart(releases, scenario, true)))
  }

  function ChartBucket(releases: seq<Release>, today: int): int -> int {
    var granularity := ChartGranularity(ChartEvents(releases, today));
    (date: int) => BucketDate(granularity, date)
  }

  function PlateauDays(granularity: Granularity): int {
    match granularity
    case Day => 14
    case Week => 7
    case Month => 31
  }

  /** The bucket dates of the chart, ascending. */
  function ChartDates(releases: seq<Release>, today: int): seq<int> {
    var bucket := ChartBucket(releases, today);
    DistinctDates(Map((e: Tagged) => bucket(e.date), ChartEvents(releases, today)))
  }

  /** The state of the chart after its first `k` buckets. */
  ghost predicate PointAt(p: Point, releases: seq<Release>, opening: Exposure, today: int, k: nat)
    requires k <= |ChartDates(releases, today)|
  {
    var events, bucket := ChartEvents(releases, today), ChartBucket(releases, today);
    var dates := ChartDates(releases, today)[..k];
    && p.midpoint == BalanceOf(opening, events, bucket, dates, Midpoint)
    && p.minimum == BalanceOf(RangeOpening(releases, Minimum), events, bucket, dates, Minimum)
    && p.maximum == BalanceOf(RangeOpening(releases, Maximum), events, bucket, dates, Maximum)
  }

  /** The bucket of point `k`, counted from 1. */
  function BucketOf(releases: seq<Release>, today: int, k: nat): Bucket
    requires 0 < k <= |ChartDates(releases, today)|
  {
    BucketAt(ChartEvents(releases, today), ChartBucket(releases, today), ChartDates(releases, today)[k - 1])
  }

  lemma PointStep(p: Point, q: Point, b: Bucket, releases: seq<Release>, opening: Exposure, today: int, k: nat)
    requires k < |ChartDates(releases, today)| && PointAt(p, releases, opening, today, k)
    requires b == BucketOf(releases, today, k + 1)
    requires q.midpoint == Lower(p.midpoint, b.midpoint)
    requires q.minimum == Lower(p.minimum, b.minimum)
    requires q.maximum == Lower(p.maximum, b.maximum)
    ensures PointAt(q, releases, opening, today, k + 1)
  {
    var events, bucket := ChartEvents(releases, today), ChartBucket(releases, today);
    var dates := ChartDates(releases, today);
    LowerStep(opening, events, bucket, dates, k, Midpoint);
    LowerStep(RangeOpening(releases, Minimum), events, bucket, dates, k, Minimum);
    LowerStep(RangeOpening(releases, Maximum), events, bucket, dates, k, Maximum);
  }

  function RoundExposure(e: Exposure): Exposure {
    Exposure(if e.individual.None? then None else Some(Round2(e.individual.value)),
             if e.groupWide.None? then None else Some(Round2(e.groupWide.value)))
  }

  /** Point `k` of the chart: today first, then one point per bucket with the balances after it. */
  ghost predicate DrawnAt(p: Point, releases: seq<Release>, opening: Exposure, today: int, k: nat) {
    && k <= |ChartDates(releases, today)|
    && p.date == (if k == 0 then today else ChartDates(releases, today)[k - 1])
    && (k > 0 ==> p.released == BucketOf(releases, today, k))
    && PointAt(p, releases, opening, today, k)
  }

  /** The first points of the chart, before the plateau. */
  ghost predicate Drawn(points: seq<Point>, releases: seq<Release>, opening: Exposure, today: int) {
    && 0 < |points| <= |ChartDates(releases, today)| + 1
    && forall k :: 0 <= k < |points| ==> DrawnAt(points[k], releases, opening, today, k)
  }

  lemma DrawNext(points: seq<Point>, point: Point, releases: seq<Release>, opening: Exposure, today: int)
    requires Drawn(points, releases, opening, today)
    requires |points| <= |ChartDates(releases, today)|
    requires point.date == ChartDates(releases, today)[|points| - 1]
    requires point.released == BucketOf(releases, today, |points|)
    requires var before := points[|points| - 1];
             && point.midpoint == Lower(before.midpoint, point.released.midpoint)
             && point.minimum == Lower(before.minimum, point.released.minimum)
             && point.maximum == Lower(before.maximum, point.released.maximum)
    ensures Drawn(points + [point], releases, opening, today)
  {
    DrawnStep(points[|points| - 1], point, releases, opening, today, |points| - 1);
  }

  lemma DrawnStep(before: Point, point: Point, releases: seq<Release>, opening: Exposure, today: int, k: nat)
    requires k < |ChartDates(releases, today)| && DrawnAt(before, releases, opening, today, k)
    requires point.date == ChartDates(releases, today)[k] && point.released == BucketOf(releases, today, k + 1)
    requires point.midpoint == Lower(before.midpoint, point.released.midpoint)
    requires point.minimum == Lower(before.minimum, point.released.minimum)
    requires point.maximum == Lower(before.maximum, point.released.maximum)
    ensures DrawnAt(point, releases, opening, today, k + 1)
  {
    PointStep(before, point, point.released, releases, opening, today, k);
  }

  /** The whole chart: today, every bucket, and a plateau that repeats the last point at a later date. */
  ghost predicate DrawnWhole(points: seq<Point>, releases: seq<Release>, opening: Exposure, today: int) {
    var n := |ChartDates(releases, today)|;
    && |points| == n + 2
    && Drawn(points[..n + 1], releases, opening, today)
    && PointAt(points[n + 1], releases, opening, today, n)
    && points[n + 1].plateau
    && points[n + 1].date > points[n].date
  }

  lemma DrawPlateau(points: seq<Point>, plateau: Point, releases: seq<Release>, opening: Exposure, today: int)
    requires Drawn(points, releases, opening, today)
    requires |points| == |ChartDates(releases, today)| + 1
    requires var before := points[|points| - 1];
             && plateau.plateau && plateau.date > before.date
             && plateau.midpoint == before.midpoint && plateau.minimum == before.minimum
             && plateau.maximum == before.maximum
    ensures DrawnWhole(points + [plateau], releases, opening, today)
  {
    assert (points + [plateau])[..|points|] == points;
  }

  /** The releases of all STEMs in scope whose date satisfies `p`. */
  function TotalReleased(releases: seq<Release>, scenario: Scenario, groupWide: bool, p: Option<int> -> bool): real {
    if releases == [] then 0.0
    else
      (if groupWide || releases[0].selected then Released(EventsOf(releases[0], scenario), p) else 0.0) +
      TotalReleased(releases[1..], scenario, groupWide, p)
  }

  const Undated: Option<int> -> bool := (date: Option<int>) => date.None?

  /** Which exposures the chart shows. */
  datatype Projection = Projection(individual: bool, groupWide: bool)

  function ShowExposure(e: Exposure, shown: Projection): Exposure {
    Exposure(if shown.individual then e.individual else None, if shown.groupWide then e.groupWide else None)
  }

  function ShowPoint(p: Point, shown: Projection): Point {
    p.(midpoint := ShowExposure(p.midpoint, shown), minimum := ShowExposure(p.minimum, shown),
        maximum := ShowExposure(p.maximum, shown))
  }

  function ShowPoints(points: seq<Point>, shown: Projection): seq<Point> {
    seq(|points|, k requires 0 <= k < |points| => ShowPoint(points[k], shown))
  }

  /** All points as far as they are shown, and the plateau only if some projection is. */
  ghost predicate Shows(points: seq<Point>, drawn: seq<Point>, shown: Projection) {
    drawn != [] && points == ShowPoints(if shown.individual || shown.groupWide then drawn
        else drawn[..|drawn| - 1], shown)
  }

  /** The amounts of the midpoint events without a date, rounded. */
  function UndatedExposure(releases: seq<Release>): Exposure {
    Exposure(Some(Round2(TotalReleased(releases, Midpoint, false, Undated))),
        Some(Round2(TotalReleased(releases, Midpoint, true, Undated))))
  }

  ghost predicate BucketsReady(buckets: map<int, Bucket>, releases: seq<Release>, today: int) {
    var dates := ChartDates(releases, today);
    forall k :: 0 <= k < |dates| ==> dates[k] in buckets && buckets[dates[k]] == BucketOf(releases, today, k + 1)
  }

  method CollectBuckets(releases: seq<Release>, today: int) returns (buckets: map<int, Bucket>)
    ensures BucketsReady(buckets, releases, today)
  {
    var events, bucket := ChartEvents(releases, today), ChartBucket(releases, today);
    buckets := FillBuckets(events, bucket);
    DatesAreBuckets(events, bucket, buckets);
    var dates := ChartDates(releases, today);
    assert forall k :: 0 <= k < |dates| ==> dates[k] in dates;
  }

  /** Today's point and one point per bucket, as far as they are shown. */
  method DrawBuckets(buckets: map<int, Bucket>, releases: seq<Release>, opening: Exposure, shown: Projection,
                     today: int)
    returns (points: seq<Point>, last: Point, ghost drawn: seq<Point>)
    requires BucketsReady(buckets, releases, today)
    ensures Drawn(drawn, releases, opening, today) && |drawn| == |ChartDates(releases, today)| + 1
    ensures points == ShowPoints(drawn, shown) && last == drawn[|drawn| - 1]
  {
    var dates := ChartDates(releases, today);
    last := Point(today, EMPTY_BUCKET, RoundExposure(opening), RoundExposure(RangeOpening(releases, Minimum)),
                  RoundExposure(RangeOpening(releases, Maximum)), false);
    points, drawn := [ShowPoint(last, shown)], [last];
    var k := 0;
    while k < |dates|
      invariant 0 <= k <= |dates| && |drawn| == k + 1 && last == drawn[k]
      invariant Drawn(drawn, releases, opening, today)
      invariant points == ShowPoints(drawn, shown)
    {
      var b := buckets[dates[k]];
      last := Point(dates[k], b, Lower(last.midpoint, b.midpoint), Lower(last.minimum, b.minimum),
          Lower(last.maximum, b.maximum), false);
      DrawNext(drawn, last, releases, opening, today);
      ShowNext(drawn, last, shown);
      points := points + [ShowPoint(last, shown)];
      drawn := drawn + [last];
      k := k + 1;
    }
  }

  method BuildCreditReleaseChart(releases: seq<Release>, opening: Exposure, shown: Projection, today: int)
    returns (points: seq<Point>, undatedExposure: Exposure, ghost drawn: seq<Point>)
    ensures DrawnWhole(drawn, releases, opening, today)
    ensures Shows(points, drawn, shown)
    ensures undatedExposure == UndatedExposure(releases)
    ensures var days := match ChartGranularity(ChartEvents(releases,
            today)) case Day => 14 case Week => 7 case Month => 31;
            drawn[|drawn| - 1].date == drawn[|drawn| - 2].date + days
  {
    var granularity := ChartGranularity(ChartEvents(releases, today));
    var buckets := CollectBuckets(releases, today);
    var last;
    points, last, drawn := DrawBuckets(buckets, releases, opening, shown, today);
    var plateau := last.(date := last.date + PlateauDays(granularity), released := EMPTY_BUCKET, plateau := true);
    DrawPlateau(drawn, plateau, releases, opening, today);
    ShowNext(drawn, plateau, shown);
    if shown.individual || shown.groupWide {
      points := points + [ShowPoint(plateau, shown)];
    }
    drawn := drawn + [plateau];
    undatedExposure := UndatedExposure(releases);
  }

  /** Every point of the chart, the plateau included, is in the state after some number of buckets. */
  lemma DrawnPointAt(points: seq<Point>, releases: seq<Release>, opening: Exposure, today: int, k: nat)
    requires DrawnWhole(points, releases, opening, today) && k < |points|
    ensures var n := |ChartDates(releases, today)|; PointAt(points[k], releases, opening, today, if k < n then k else n)
  {
    var n := |ChartDates(releases, today)|;
    assert k <= n ==> points[..n + 1][k] == points[k];
  }

  lemma ShowNext(drawn: seq<Point>, point: Point, shown: Projection)
    ensures ShowPoints(drawn + [point], shown) == ShowPoints(drawn, shown) + [ShowPoint(point, shown)]
    ensures (drawn + [point])[..|drawn|] == drawn
  {
  }

  lemma {:induction false} DatesAreBuckets(events: seq<Tagged>, bucket: int -> int, buckets: map<int, Bucket>)
    requires forall t :: t in buckets <==> exists k :: 0 <= k < |events| && bucket(events[k].date) == t
    ensures var dates := DistinctDates(Map((e: Tagged) => bucket(e.date), events));
            Ascending(dates) && forall t :: t in dates <==> t in buckets
  {
    var all := Map((e: Tagged) => bucket(e.date), events);
    DistinctDatesOrder(all);
    forall t ensures t in all <==> t in buckets {
      if t in all {
        var k :| 0 <= k < |all| && all[k] == t;
        assert bucket(events[k].date) == t;
      }
      if t in buckets {
        var k :| 0 <= k < |events| && bucket(events[k].date) == t;
        assert all[k] == t;
      }
    }
  }
}
