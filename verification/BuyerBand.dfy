/** What the buyer chart promises: every point is the opening exposure less the releases up to it,
    the last plateau is the exposure without a release date, and the quantity band never inverts. */
module BuyerBand {
  import opened BuyerChart
  import opened BuyerForecast
  import opened Money
  import opened Options
  import opened Sorting

  // ----- sums over events -----

  lemma {:induction false} SumWhereAppend(a: seq<Tagged>, b: seq<Tagged>, f: Tagged -> bool)
    ensures SumWhere(a + b, f) == SumWhere(a, f) + SumWhere(b, f)
  {
    if b == [] {
      assert a + b == a;
    } else {
      var n := |b| - 1;
      SumWhereAppend(a, b[..n], f);
      assert (a + b)[..|a + b| - 1] == a + b[..n];
    }
  }

  lemma {:induction false} SumWhereAgrees(events: seq<Tagged>, f: Tagged -> bool, g: Tagged -> bool)
    requires forall e :: e in events ==> f(e) == g(e)
    ensures SumWhere(events, f) == SumWhere(events, g)
  {
    if events != [] {
      var n := |events| - 1;
      assert events[n] in events;
      SumWhereAgrees(events[..n], f, g);
    }
  }

  lemma {:induction false} SumWhereSplits(events: seq<Tagged>, f: Tagged -> bool, g: Tagged -> bool, h: Tagged -> bool)
    requires forall e :: e in events ==> !(f(e) && g(e)) && (h(e) <==> f(e) || g(e))
    ensures SumWhere(events, h) == SumWhere(events, f) + SumWhere(events, g)
  {
    if events != [] {
      var n := |events| - 1;
      assert events[n] in events;
      SumWhereSplits(events[..n], f, g, h);
    }
  }

  predicate InScope(e: Tagged, scenario: Scenario, groupWide: bool) {
    e.scenario == scenario && (groupWide || e.selected)
  }

  lemma {:induction false} AmountAtIsSum(events: seq<Tagged>, bucket: int -> int, date: int, scenario: Scenario,
                                         groupWide: bool)
    ensures AmountAt(events, bucket, date, scenario, groupWide)
         == SumWhere(events, (e: Tagged) => InScope(e, scenario, groupWide) && bucket(e.date) == date)
  {
    var f := (e: Tagged) => Falls(e, bucket, date, scenario, true);
    var g := (e: Tagged) => Falls(e, bucket, date, scenario, false);
    var h := (e: Tagged) => InScope(e, scenario, groupWide) && bucket(e.date) == date;
    if groupWide {
      SumWhereSplits(events, f, g, h);
    } else {
      SumWhereAgrees(events, f, h);
    }
  }

  ghost predicate DistinctInts(dates: seq<int>) {
    forall i, j :: 0 <= i < j < |dates| ==> dates[i] != dates[j]
  }

  function FallsInto(bucket: int -> int, dates: seq<int>, scenario: Scenario, groupWide: bool): Tagged -> bool {
    (e: Tagged) => InScope(e, scenario, groupWide) && bucket(e.date) in dates
  }

  lemma {:induction false} OneMoreBucket(events: seq<Tagged>, bucket: int -> int, before: seq<int>, last: int,
                                         scenario: Scenario,
                                         groupWide: bool)
    requires last !in before
    ensures SumWhere(events, FallsInto(bucket, before + [last], scenario, groupWide))
         == SumWhere(events, FallsInto(bucket, before, scenario, groupWide))
             + AmountAt(events, bucket, last, scenario, groupWide)
  {
    AmountAtIsSum(events, bucket, last, scenario, groupWide);
    SumWhereSplits(events, FallsInto(bucket, before, scenario, groupWide),
                   (e: Tagged) => InScope(e, scenario, groupWide) && bucket(e.date) == last,
                   FallsInto(bucket, before + [last], scenario, groupWide));
  }

  lemma {:induction false} SumOfOneMore(amounts: seq<real>, amount: real)
    ensures Sum(amounts + [amount]) == Sum(amounts) + amount
  {
    assert (amounts + [amount])[..|amounts|] == amounts;
  }

  /** The buckets of some dates hold exactly the events that fall on those dates. */
  lemma {:induction false} BucketsHold(events: seq<Tagged>, bucket: int -> int, dates: seq<int>, scenario: Scenario,
                                       groupWide: bool)
    requires DistinctInts(dates)
    ensures Sum(AmountsAt(events, bucket, dates, scenario, groupWide))
            == SumWhere(events, FallsInto(bucket, dates, scenario, groupWide))
  {
    if dates == [] {
      NothingToSum(events, FallsInto(bucket, dates, scenario, groupWide));
    } else {
      var before, last := dates[..|dates| - 1], dates[|dates| - 1];
      BucketsHold(events, bucket, before, scenario, groupWide);
      OneMoreBucket(events, bucket, before, last, scenario, groupWide);
      SumOfOneMore(AmountsAt(events, bucket, before, scenario, groupWide),
          AmountAt(events, bucket, last, scenario, groupWide));
      assert dates == before + [last];
    }
  }

  // ----- events and releases -----

  function OnDates(today: int, q: int -> bool): Option<int> -> bool {
    (date: Option<int>) => date.Some? && date.value >= today && q(date.value)
  }

  lemma {:induction false} DecorateReleased(events: seq<Event>, selected: bool, scenario: Scenario, today: int,
                                            groupWide: bool, q: int -> bool)
    ensures SumWhere(Decorate(events, selected, scenario, today), (e: Tagged) => InScope(e, scenario, groupWide)
            && q(e.date))
         == if groupWide || selected then Released(events, OnDates(today, q)) else 0.0
  {
    if events != [] {
      var f := (e: Tagged) => InScope(e, scenario, groupWide) && q(e.date);
      var date := events[0].date;
      var head := if date.Some? && date.value >= today then [Tagged(date.value, events[0].amount, selected, scenario)]
          else [];
      DecorateReleased(events[1..], selected, scenario, today, groupWide, q);
      SumWhereAppend(head, Decorate(events[1..], selected, scenario, today), f);
      assert head != [] ==> head[..0] == [];
    }
  }

  lemma {:induction false} FutureReleased(releases: seq<Release>, scenario: Scenario, today: int, groupWide: bool,
                                          q: int -> bool)
    ensures SumWhere(Future(releases, scenario, today), (e: Tagged) => InScope(e, scenario, groupWide) && q(e.date))
         == TotalReleased(releases, scenario, groupWide, OnDates(today, q))
  {
    if releases != [] {
      var f := (e: Tagged) => InScope(e, scenario, groupWide) && q(e.date);
      var first := releases[0];
      DecorateReleased(EventsOf(first, scenario), first.selected, scenario, today, groupWide, q);
      FutureReleased(releases[1..], scenario, today, groupWide, q);
      SumWhereAppend(Decorate(EventsOf(first, scenario), first.selected, scenario, today),
          Future(releases[1..], scenario, today), f);
    }
  }

  lemma {:induction false} DecorateTags(events: seq<Event>, selected: bool, scenario: Scenario, today: int)
    ensures forall e :: e in Decorate(events, selected, scenario, today) ==> e.scenario == scenario
    ensures forall k :: 0 <= k < |events| && events[k].date.Some? && events[k].date.value >= today ==>
              Tagged(events[k].date.value, events[k].amount, selected, scenario)
                  in Decorate(events, selected, scenario, today)
  {
    if events != [] {
      DecorateTags(events[1..], selected, scenario, today);
      assert events == [events[0]] + events[1..];
    }
  }

  lemma {:induction false} FutureTags(releases: seq<Release>, scenario: Scenario, today: int)
    ensures forall e :: e in Future(releases, scenario, today) ==> e.scenario == scenario
  {
    if releases != [] {
      DecorateTags(EventsOf(releases[0], scenario), releases[0].selected, scenario, today);
      FutureTags(releases[1..], scenario, today);
    }
  }

  lemma {:induction false} OtherScenario(releases: seq<Release>, other: Scenario, today: int, scenario: Scenario,
                                         groupWide: bool,
                                         q: int -> bool)
    requires other != scenario
    ensures SumWhere(Future(releases, other, today), (e: Tagged) => InScope(e, scenario, groupWide) && q(e.date)) == 0.0
  {
    FutureTags(releases, other, today);
    var events := Future(releases, other, today);
    var f := (e: Tagged) => InScope(e, scenario, groupWide) && q(e.date);
    forall k | 0 <= k < |events| ensures !f(events[k]) {
      assert events[k] in events;
      assert !InScope(events[k], scenario, groupWide);
    }
    NothingToSum(events, f);
  }

  /** The chart holds the releases of a scenario once, whatever the other scenarios hold. */
  lemma {:induction false} ChartHolds(releases: seq<Release>, today: int, scenario: Scenario, groupWide: bool,
                                      q: int -> bool)
    requires scenario == Midpoint || RangeComplete(releases)
    ensures SumWhere(ChartEvents(releases, today), (e: Tagged) => InScope(e, scenario, groupWide) && q(e.date))
         == TotalReleased(releases, scenario, groupWide, OnDates(today, q))
  {
    var f := (e: Tagged) => InScope(e, scenario, groupWide) && q(e.date);
    var mid := Future(releases, Midpoint, today);
    FutureReleased(releases, scenario, today, groupWide, q);
    if scenario != Midpoint {
      OtherScenario(releases, Midpoint, today, scenario, groupWide, q);
    }
    if RangeComplete(releases) {
      var low, high := Future(releases, Minimum, today), Future(releases, Maximum, today);
      if scenario != Minimum {
        OtherScenario(releases, Minimum, today, scenario, groupWide, q);
      }
      if scenario != Maximum {
        OtherScenario(releases, Maximum, today, scenario, groupWide, q);
      }
      SumWhereAppend(low, high, f);
      SumWhereAppend(mid, low + high, f);
    } else {
      assert mid + [] == mid;
    }
  }

  // ----- every point -----

  /** Up to point `k`: events that fall into the first `k` buckets. */
  function UpTo(releases: seq<Release>, today: int, k: nat): Option<int> -> bool
    requires k <= |ChartDates(releases, today)|
  {
    var dates, bucket := ChartDates(releases, today), ChartBucket(releases, today);
    OnDates(today, (date: int) => k > 0 && bucket(date) <= dates[k - 1])
  }

  function ChartAmounts(releases: seq<Release>, today: int, k: nat, scenario: Scenario, groupWide: bool): seq<real>
    requires k <= |ChartDates(releases, today)|
  {
    AmountsAt(ChartEvents(releases, today), ChartBucket(releases, today),
              ChartDates(releases, today)[..k], scenario, groupWide)
  }

  lemma FirstBuckets(dates: seq<int>, k: nat, t: int)
    requires Ascending(dates) && k <= |dates| && t in dates
    ensures t in dates[..k] <==> k > 0 && t <= dates[k - 1]
  {
    var i :| 0 <= i < |dates| && dates[i] == t;
    if i < k {
      assert dates[..k][i] == t;
    }
    if t in dates[..k] {
      var j :| 0 <= j < k && dates[..k][j] == t;
      assert dates[j] == t;
    }
  }

  lemma BucketListed(releases: seq<Release>, today: int)
    ensures var bucket, dates := ChartBucket(releases, today), ChartDates(releases, today);
            Ascending(dates) && forall e :: e in ChartEvents(releases, today) ==> bucket(e.date) in dates
  {
    var events, bucket := ChartEvents(releases, today), ChartBucket(releases, today);
    var all := Map((e: Tagged) => bucket(e.date), events);
    DistinctDatesOrder(all);
    forall e | e in events ensures bucket(e.date) in all {
      var k :| 0 <= k < |events| && events[k] == e;
      assert all[k] == bucket(e.date);
    }
  }

  /** The amounts of the first `k` buckets add up to the releases up to point `k`. */
  ghost predicate AmountsAddUp(releases: seq<Release>, today: int, k: nat, scenario: Scenario, groupWide: bool)
    requires k <= |ChartDates(releases, today)|
  {
    Sum(ChartAmounts(releases, today, k, scenario, groupWide)) ==
    TotalReleased(releases, scenario, groupWide, UpTo(releases, today, k))
  }

  lemma AmountsAreReleases(releases: seq<Release>, today: int, k: nat, scenario: Scenario, groupWide: bool)
    requires k <= |ChartDates(releases, today)|
    requires scenario == Midpoint || RangeComplete(releases)
    ensures AmountsAddUp(releases, today, k, scenario, groupWide)
  {
    var events, bucket := ChartEvents(releases, today), ChartBucket(releases, today);
    var dates := ChartDates(releases, today);
    var q := (date: int) => k > 0 && bucket(date) <= dates[k - 1];
    var f := FallsInto(bucket, dates[..k], scenario, groupWide);
    var g := (e: Tagged) => InScope(e, scenario, groupWide) && q(e.date);
    BucketListed(releases, today);
    BucketsHold(events, bucket, dates[..k], scenario, groupWide);
    forall e | e in events ensures f(e) == g(e) {
      FirstBuckets(dates, k, bucket(e.date));
    }
    SumWhereAgrees(events, f, g);
    ChartHolds(releases, today, scenario, groupWide, q);
  }

  /** The balance at point `k` is the opening less all releases up to that point, up to the drift of
      the rounding, which is none when everything is in whole cents. */
  ghost predicate PointBalances(releases: seq<Release>, opening: real, today: int, k: nat, scenario: Scenario,
                                groupWide: bool)
    requires k <= |ChartDates(releases, today)|
  {
    var amounts := ChartAmounts(releases, today, k, scenario, groupWide);
    Abs(Running(opening, amounts) - (opening - TotalReleased(releases, scenario, groupWide,
        UpTo(releases, today, k)))) <=
    Drift(opening, amounts)
  }

  lemma RunningFrom(releases: seq<Release>, opening: real, today: int, k: nat, scenario: Scenario, groupWide: bool)
    requires k <= |ChartDates(releases, today)|
    requires AmountsAddUp(releases, today, k, scenario, groupWide)
    ensures PointBalances(releases, opening, today, k, scenario, groupWide)
  {
    RunningBalance(opening, ChartAmounts(releases, today, k, scenario, groupWide));
  }

  /** Every point of the chart balances. */
  lemma PointBalance(releases: seq<Release>, opening: real, today: int, k: nat, scenario: Scenario, groupWide: bool)
    requires k <= |ChartDates(releases, today)|
    requires scenario == Midpoint || RangeComplete(releases)
    ensures PointBalances(releases, opening, today, k, scenario, groupWide)
  {
    AmountsAreReleases(releases, today, k, scenario, groupWide);
    RunningFrom(releases, opening, today, k, scenario, groupWide);
  }

  // ----- the STEMs behind the releases -----

  function ReleasesOf(stems: seq<Stem>): seq<Release> {
    Map(ReleaseOf, stems)
  }

  function StemKept(stem: Stem, scenario: Scenario, p: Option<int> -> bool): real {
    Kept(Start(stem.exposure, stem.range, scenario), stem.payments, stem.scheduled, stem.residual, p)
  }

  function TotalKept(stems: seq<Stem>, scenario: Scenario, groupWide: bool, p: Option<int> -> bool): real {
    if stems == [] then 0.0
    else
      (if groupWide || stems[0].selected then StemKept(stems[0], scenario, p) else 0.0) +
      TotalKept(stems[1..], scenario, groupWide, p)
  }

  ghost predicate HaveRange(stems: seq<Stem>) {
    forall k :: 0 <= k < |stems| ==> stems[k].range.Some?
  }

  lemma {:induction false} StartLessReleased(stems: seq<Stem>, scenario: Scenario, groupWide: bool,
                                             p: Option<int> -> bool)
    requires scenario == Midpoint || HaveRange(stems)
    ensures TotalStart(ReleasesOf(stems), scenario, groupWide) - TotalReleased(ReleasesOf(stems), scenario, groupWide,
            p)
         == TotalKept(stems, scenario, groupWide, p)
  {
    if stems != [] {
      StartLessReleased(stems[1..], scenario, groupWide, p);
    }
  }

  /** Every STEM's band encloses its exposure. */
  ghost predicate Banded(stems: seq<Stem>) {
    forall k :: 0 <= k < |stems| ==>
      stems[k].range.Some? && stems[k].range.value.minimum <= stems[k].exposure <= stems[k].range.value.maximum
  }

  function Cent(n: nat): real {
    0.01 * n as real
  }

  /** The band of the exposures that are left, whatever dates have passed. */
  lemma {:induction false} KeptBand(stems: seq<Stem>, groupWide: bool, p: Option<int> -> bool)
    requires Banded(stems)
    ensures TotalKept(stems, Minimum, groupWide, p) <= TotalKept(stems, Midpoint, groupWide, p) + Cent(|stems|)
    ensures TotalKept(stems, Midpoint, groupWide, p) <= TotalKept(stems, Maximum, groupWide, p) + Cent(|stems|)
  {
    if stems != [] {
      var s := stems[0];
      assert Banded(stems[1..]);
      KeptBand(stems[1..], groupWide, p);
      KeptMonotone(s.range.value.minimum, s.exposure, s.payments, s.scheduled, s.residual, p);
      KeptMonotone(s.exposure, s.range.value.maximum, s.payments, s.scheduled, s.residual, p);
      assert Cent(|stems|) == Cent(|stems| - 1) + 0.01;
    }
  }

  /** A balance of the chart for a scenario that starts from the STEMs' own exposures. */
  function StemBalance(stems: seq<Stem>, today: int, k: nat, scenario: Scenario, groupWide: bool): real
    requires k <= |ChartDates(ReleasesOf(stems), today)|
  {
    Running(TotalStart(ReleasesOf(stems), scenario, groupWide),
            ChartAmounts(ReleasesOf(stems), today, k, scenario, groupWide))
  }

  ghost function StemDrift(stems: seq<Stem>, today: int, k: nat, scenario: Scenario, groupWide: bool): real
    requires k <= |ChartDates(ReleasesOf(stems), today)|
  {
    Drift(TotalStart(ReleasesOf(stems), scenario, groupWide),
          ChartAmounts(ReleasesOf(stems), today, k, scenario, groupWide))
  }

  /** At point `k` the balance is the exposure that is kept, up to the drift. */
  ghost predicate Tracks(stems: seq<Stem>, today: int, k: nat, scenario: Scenario, groupWide: bool)
    requires k <= |ChartDates(ReleasesOf(stems), today)|
  {
    Abs(StemBalance(stems, today, k, scenario, groupWide) -
        TotalKept(stems, scenario, groupWide, UpTo(ReleasesOf(stems), today, k))) <=
    StemDrift(stems, today, k, scenario, groupWide)
  }

  lemma {:induction false} TracksKept(stems: seq<Stem>, today: int, k: nat, scenario: Scenario, groupWide: bool)
    requires k <= |ChartDates(ReleasesOf(stems), today)|
    requires PointBalances(ReleasesOf(stems), TotalStart(ReleasesOf(stems), scenario, groupWide), today, k, scenario,
             groupWide)
    requires var releases := ReleasesOf(stems);
             var p := UpTo(releases, today, k);
             TotalStart(releases, scenario, groupWide) - TotalReleased(releases, scenario, groupWide, p) ==
             TotalKept(stems, scenario, groupWide, p)
    ensures Tracks(stems, today, k, scenario, groupWide)
  {
  }

  lemma StemBalanceKept(stems: seq<Stem>, today: int, k: nat, scenario: Scenario, groupWide: bool)
    requires k <= |ChartDates(ReleasesOf(stems), today)|
    requires scenario == Midpoint || (stems != [] && HaveRange(stems))
    ensures Tracks(stems, today, k, scenario, groupWide)
  {
    var releases := ReleasesOf(stems);
    assert scenario != Midpoint ==> RangeComplete(releases);
    PointBalance(releases, TotalStart(releases, scenario, groupWide), today, k, scenario, groupWide);
    StartLessReleased(stems, scenario, groupWide, UpTo(releases, today, k));
    TracksKept(stems, today, k, scenario, groupWide);
  }

  lemma OrderWithErrors(a: real, b: real, keptA: real, keptB: real, driftA: real, driftB: real, slack: real)
    requires Abs(a - keptA) <= driftA && Abs(b - keptB) <= driftB && keptA <= keptB + slack
    ensures a <= b + slack + driftA + driftB
  {
  }

  /** At point `k` one scenario does not exceed another by more than one cent per STEM and the drift
      of both balances. */
  ghost predicate InOrder(stems: seq<Stem>, today: int, k: nat, groupWide: bool, low: Scenario, high: Scenario)
    requires k <= |ChartDates(ReleasesOf(stems), today)|
  {
    StemBalance(stems, today, k, low, groupWide) <=
    StemBalance(stems, today, k, high, groupWide) + Cent(|stems|) +
    StemDrift(stems, today, k, low, groupWide) + StemDrift(stems, today, k, high, groupWide)
  }

  lemma {:induction false} BalancesInOrder(stems: seq<Stem>, today: int, k: nat, groupWide: bool, low: Scenario,
                                           high: Scenario)
    requires k <= |ChartDates(ReleasesOf(stems), today)|
    requires Tracks(stems, today, k, low, groupWide) && Tracks(stems, today, k, high, groupWide)
    requires var p := UpTo(ReleasesOf(stems), today, k);
             TotalKept(stems, low, groupWide, p) <= TotalKept(stems, high, groupWide, p) + Cent(|stems|)
    ensures InOrder(stems, today, k, groupWide, low, high)
  {
    var p := UpTo(ReleasesOf(stems), today, k);
    OrderWithErrors(StemBalance(stems, today, k, low, groupWide), StemBalance(stems, today, k, high, groupWide),
                    TotalKept(stems, low, groupWide, p), TotalKept(stems, high, groupWide, p),
                    StemDrift(stems, today, k, low, groupWide), StemDrift(stems, today, k, high, groupWide),
                    Cent(|stems|));
  }

  /** The forecast band never inverts: at every point of the chart, minimum, midpoint and maximum
      exposure are in order within one cent per STEM, besides the rounding drift. */
  lemma BandNeverInverts(stems: seq<Stem>, today: int, k: nat, groupWide: bool)
    requires stems != [] && Banded(stems)
    requires k <= |ChartDates(ReleasesOf(stems), today)|
    ensures InOrder(stems, today, k, groupWide, Minimum, Midpoint)
    ensures InOrder(stems, today, k, groupWide, Midpoint, Maximum)
  {
    StemBalanceKept(stems, today, k, Minimum, groupWide);
    StemBalanceKept(stems, today, k, Midpoint, groupWide);
    StemBalanceKept(stems, today, k, Maximum, groupWide);
    KeptBand(stems, groupWide, UpTo(ReleasesOf(stems), today, k));
    BalancesInOrder(stems, today, k, groupWide, Minimum, Midpoint);
    BalancesInOrder(stems, today, k, groupWide, Midpoint, Maximum);
  }

  // ----- the plateau -----

  /** `undatedExposure` before its own rounding. */
  function UndatedTotal(stems: seq<Stem>, groupWide: bool): real {
    TotalReleased(ReleasesOf(stems), Midpoint, groupWide, Undated)
  }

  lemma {:induction false} ReleasedSplits(events: seq<Event>, p: Option<int> -> bool)
    requires forall e :: e in events ==> (p(e.date) <==> e.date.Some?)
    ensures Released(events, p) + Released(events, Undated) == Released(events, Anytime)
  {
    if events != [] {
      assert events[0] in events;
      assert forall e :: e in events[1..] ==> e in events;
      ReleasedSplits(events[1..], p);
    }
  }

  /** `p` holds of every date from today on that the STEM's forecast mentions, and not of no date. */
  ghost predicate Covers(p: Option<int> -> bool, stem: Stem, today: int) {
    && !p(None)
    && forall e :: e in ForecastFrom(stem, stem.exposure) && e.date.Some? && e.date.value >= today ==> p(e.date)
  }

  ghost predicate CoversAll(p: Option<int> -> bool, stems: seq<Stem>, today: int) {
    forall k :: 0 <= k < |stems| ==> AheadOf(stems[k], today) && Covers(p, stems[k], today)
  }

  /** What a STEM keeps when `p` has passed is its undated exposure, within one cent. */
  ghost predicate KeepsUndated(stem: Stem, p: Option<int> -> bool) {
    Abs(StemKept(stem, Midpoint, p) - Released(ForecastFrom(stem, stem.exposure), Undated)) <= SETTLED
  }

  lemma StemPlateau(stem: Stem, today: int, p: Option<int> -> bool)
    requires AheadOf(stem, today) && Covers(p, stem, today)
    ensures KeepsUndated(stem, p)
  {
    ForecastConserves(stem.exposure, stem.payments, stem.scheduled, stem.residual);
    ForecastDates(stem.exposure, stem.payments, stem.scheduled, stem.residual, today);
    ReleasedSplits(ForecastFrom(stem, stem.exposure), p);
  }

  lemma UndatedStep(stems: seq<Stem>, groupWide: bool)
    requires stems != []
    ensures UndatedTotal(stems, groupWide)
         == (if groupWide || stems[0].selected then Released(ForecastFrom(stems[0], stems[0].exposure), Undated)
             else 0.0)
          + UndatedTotal(stems[1..], groupWide)
  {
    assert ReleasesOf(stems)[1..] == ReleasesOf(stems[1..]);
  }

  lemma AddNear(a: real, b: real, c: real, d: real, slack: real)
    requires Abs(a - b) <= SETTLED && Abs(c - d) <= slack
    ensures Abs(a + c - (b + d)) <= slack + SETTLED
  {
  }

  ghost predicate KeptIsUndated(stems: seq<Stem>, groupWide: bool, p: Option<int> -> bool) {
    Abs(TotalKept(stems, Midpoint, groupWide, p) - UndatedTotal(stems, groupWide)) <= Cent(|stems|)
  }

  lemma CentStep(n: nat)
    ensures Cent(n + 1) == Cent(n) + SETTLED
  {
  }

  lemma PlateauStep(stems: seq<Stem>, groupWide: bool, p: Option<int> -> bool)
    requires stems != [] && KeepsUndated(stems[0], p) && KeptIsUndated(stems[1..], groupWide, p)
    ensures KeptIsUndated(stems, groupWide, p)
  {
    var rest, counts := stems[1..], groupWide || stems[0].selected;
    UndatedStep(stems, groupWide);
    AddNear(if counts then StemKept(stems[0], Midpoint, p) else 0.0,
            if counts then Released(ForecastFrom(stems[0], stems[0].exposure), Undated) else 0.0,
            TotalKept(rest, Midpoint, groupWide, p), UndatedTotal(rest, groupWide), Cent(|rest|));
    CentStep(|rest|);
  }

  lemma {:induction false} PlateauOfStems(stems: seq<Stem>, groupWide: bool, p: Option<int> -> bool)
    requires forall k :: 0 <= k < |stems| ==> KeepsUndated(stems[k], p)
    ensures KeptIsUndated(stems, groupWide, p)
  {
    if stems != [] {
      PlateauOfStems(stems[1..], groupWide, p);
      PlateauStep(stems, groupWide, p);
    }
  }

  ghost predicate HasDate(events: seq<Tagged>, date: int) {
    exists t :: t in events && t.date == date
  }

  lemma {:induction false} DatedInFirst(stems: seq<Stem>, today: int, e: Event)
    requires stems != [] && e in ForecastFrom(stems[0], stems[0].exposure) && e.date.Some? && e.date.value >= today
    ensures HasDate(Decorate(EventsOf(ReleaseOf(stems[0]), Midpoint), stems[0].selected, Midpoint, today), e.date.value)
  {
    var events := ForecastFrom(stems[0], stems[0].exposure);
    var i :| 0 <= i < |events| && events[i] == e;
    DecorateTags(events, stems[0].selected, Midpoint, today);
    assert Tagged(e.date.value, e.amount, stems[0].selected, Midpoint)
        in Decorate(events, stems[0].selected, Midpoint, today);
  }

  lemma {:induction false} FutureOfFirst(stems: seq<Stem>, today: int)
    requires stems != []
    ensures Future(ReleasesOf(stems), Midpoint, today) ==
            Decorate(EventsOf(ReleaseOf(stems[0]), Midpoint), stems[0].selected, Midpoint, today) +
            Future(ReleasesOf(stems[1..]), Midpoint, today)
  {
    assert ReleasesOf(stems)[1..] == ReleasesOf(stems[1..]);
  }

  lemma HasDateInSum(a: seq<Tagged>, b: seq<Tagged>, date: int)
    requires HasDate(a, date) || HasDate(b, date)
    ensures HasDate(a + b, date)
  {
    var t :| (t in a || t in b) && t.date == date;
    assert t in a + b;
  }

  /** Every dated event of every STEM is drawn. */
  lemma {:induction false} AllDatedCharted(stems: seq<Stem>, today: int, j: nat, e: Event)
    requires j < |stems| && e in ForecastFrom(stems[j], stems[j].exposure) && e.date.Some? && e.date.value >= today
    ensures HasDate(Future(ReleasesOf(stems), Midpoint, today), e.date.value)
  {
    if j == 0 {
      DatedInFirst(stems, today, e);
    } else {
      AllDatedCharted(stems[1..], today, j - 1, e);
    }
    FutureOfFirst(stems, today);
    HasDateInSum(Decorate(EventsOf(ReleaseOf(stems[0]), Midpoint), stems[0].selected, Midpoint, today),
                 Future(ReleasesOf(stems[1..]), Midpoint, today), e.date.value);
  }

  lemma {:induction false} LastPointHolds(releases: seq<Release>, today: int, date: int)
    requires date >= today && HasDate(Future(releases, Midpoint, today), date)
    ensures UpTo(releases, today, |ChartDates(releases, today)|)(Some(date))
  {
    var bucket, dates := ChartBucket(releases, today), ChartDates(releases, today);
    BucketListed(releases, today);
    var t :| t in Future(releases, Midpoint, today) && t.date == date;
    assert t in ChartEvents(releases, today);
    FirstBuckets(dates, |dates|, bucket(t.date));
    assert dates[..|dates|] == dates;
  }

  lemma LastPointCovers(stems: seq<Stem>, today: int)
    requires forall k :: 0 <= k < |stems| ==> AheadOf(stems[k], today)
    ensures var releases := ReleasesOf(stems);
            CoversAll(UpTo(releases, today, |ChartDates(releases, today)|), stems, today)
  {
    var releases := ReleasesOf(stems);
    var p := UpTo(releases, today, |ChartDates(releases, today)|);
    forall k | 0 <= k < |stems| ensures Covers(p, stems[k], today) {
      forall e | e in ForecastFrom(stems[k], stems[k].exposure) && e.date.Some?
          && e.date.value >= today ensures p(e.date) {
        AllDatedCharted(stems, today, k, e);
        LastPointHolds(releases, today, e.date.value);
      }
    }
  }

  lemma NearTransitive(a: real, b: real, c: real, d: real, e: real)
    requires Abs(a - b) <= d && Abs(b - c) <= e
    ensures Abs(a - c) <= e + d
  {
  }

  lemma LastPointKeeps(stems: seq<Stem>, today: int, groupWide: bool)
    requires forall k :: 0 <= k < |stems| ==> AheadOf(stems[k], today)
    ensures var releases := ReleasesOf(stems);
            KeptIsUndated(stems, groupWide, UpTo(releases, today, |ChartDates(releases, today)|))
  {
    var releases := ReleasesOf(stems);
    var p := UpTo(releases, today, |ChartDates(releases, today)|);
    LastPointCovers(stems, today);
    CoveredIsKept(stems, today, groupWide, p);
  }

  lemma CoveredIsKept(stems: seq<Stem>, today: int, groupWide: bool, p: Option<int> -> bool)
    requires CoversAll(p, stems, today)
    ensures KeptIsUndated(stems, groupWide, p)
  {
    forall k | 0 <= k < |stems| ensures KeepsUndated(stems[k], p) {
      StemPlateau(stems[k], today, p);
    }
    PlateauOfStems(stems, groupWide, p);
  }

  /** The balance at point `k` is the exposure that has no release date, within one cent per STEM,
      besides the rounding drift. */
  ghost predicate PlateauNear(stems: seq<Stem>, today: int, k: nat, groupWide: bool)
    requires k <= |ChartDates(ReleasesOf(stems), today)|
  {
    Abs(StemBalance(stems, today, k, Midpoint, groupWide) - UndatedTotal(stems, groupWide)) <=
    Cent(|stems|) + StemDrift(stems, today, k, Midpoint, groupWide)
  }

  lemma PlateauTracks(stems: seq<Stem>, today: int, k: nat, groupWide: bool)
    requires k <= |ChartDates(ReleasesOf(stems), today)|
    requires Tracks(stems, today, k, Midpoint, groupWide)
    requires KeptIsUndated(stems, groupWide, UpTo(ReleasesOf(stems), today, k))
    ensures PlateauNear(stems, today, k, groupWide)
  {
    NearTransitive(StemBalance(stems, today, k, Midpoint, groupWide),
                   TotalKept(stems, Midpoint, groupWide, UpTo(ReleasesOf(stems), today, k)),
                   UndatedTotal(stems, groupWide), StemDrift(stems, today, k, Midpoint, groupWide), Cent(|stems|));
  }

  /** Whatever bucketing was chosen, the final plateau is the undated exposure. */
  lemma PlateauIsUndated(stems: seq<Stem>, today: int, groupWide: bool)
    requires forall k :: 0 <= k < |stems| ==> AheadOf(stems[k], today)
    ensures PlateauNear(stems, today, |ChartDates(ReleasesOf(stems), today)|, groupWide)
  {
    LastPointKeeps(stems, today, groupWide);
    StemBalanceKept(stems, today, |ChartDates(ReleasesOf(stems), today)|, Midpoint, groupWide);
    PlateauTracks(stems, today, |ChartDates(ReleasesOf(stems), today)|, groupWide);
  }

  // ----- whole cents -----

  ghost predicate StemInCents(s: Stem) {
    && IsCents(s.exposure)
    && (s.range.Some? ==> IsCents(s.range.value.minimum) && IsCents(s.range.value.maximum))
    && SlotsInCents(s.payments) && SlotsInCents(s.scheduled)
  }

  ghost predicate InCents(stems: seq<Stem>) {
    forall k :: 0 <= k < |stems| ==> StemInCents(stems[k])
  }

  lemma {:induction false} DecorateInCents(events: seq<Event>, selected: bool, scenario: Scenario, today: int)
    requires forall e :: e in events ==> IsCents(e.amount)
    ensures forall t :: t in Decorate(events, selected, scenario, today) ==> IsCents(t.amount)
  {
    if events != [] {
      assert events[0] in events && forall e :: e in events[1..] ==> e in events;
      DecorateInCents(events[1..], selected, scenario, today);
    }
  }

  lemma {:induction false} FutureInCents(stems: seq<Stem>, scenario: Scenario, today: int)
    requires InCents(stems)
    ensures forall t :: t in Future(ReleasesOf(stems), scenario, today) ==> IsCents(t.amount)
  {
    if stems != [] {
      var s := stems[0];
      assert StemInCents(s);
      assert InCents(stems[1..]);
      FutureInCents(stems[1..], scenario, today);
      assert IsCents(Start(s.exposure, s.range, scenario)) by { assert IsCents(0.0); }
      ForecastInCents(Start(s.exposure, s.range, scenario), s.payments, s.scheduled, s.residual);
      DecorateInCents(EventsOf(ReleaseOf(s), scenario), s.selected, scenario, today);
      assert ReleasesOf(stems)[1..] == ReleasesOf(stems[1..]);
    }
  }

  lemma {:induction false} SumInCents(events: seq<Tagged>, f: Tagged -> bool)
    requires forall t :: t in events ==> IsCents(t.amount)
    ensures IsCents(SumWhere(events, f))
  {
    if events == [] {
      assert IsCents(0.0);
    } else {
      var n := |events| - 1;
      assert events[n] in events;
      SumInCents(events[..n], f);
      CentsAdd(SumWhere(events[..n], f), events[n].amount);
    }
  }

  lemma {:induction false} AmountsInCents(events: seq<Tagged>, bucket: int -> int, dates: seq<int>, scenario: Scenario,
                                          groupWide: bool)
    requires forall t :: t in events ==> IsCents(t.amount)
    ensures AllCents(AmountsAt(events, bucket, dates, scenario, groupWide))
  {
    if dates != [] {
      var n := |dates| - 1;
      AmountsInCents(events, bucket, dates[..n], scenario, groupWide);
      AmountAtIsSum(events, bucket, dates[n], scenario, groupWide);
      SumInCents(events, (e: Tagged) => InScope(e, scenario, groupWide) && bucket(e.date) == dates[n]);
    }
  }

  lemma {:induction false} StartInCents(stems: seq<Stem>, scenario: Scenario, groupWide: bool)
    requires InCents(stems)
    ensures IsCents(TotalStart(ReleasesOf(stems), scenario, groupWide))
  {
    assert IsCents(0.0);
    if stems != [] {
      var s := stems[0];
      assert StemInCents(s);
      assert InCents(stems[1..]);
      StartInCents(stems[1..], scenario, groupWide);
      assert ReleasesOf(stems)[1..] == ReleasesOf(stems[1..]);
      CentsAdd(if groupWide || s.selected then Start(s.exposure, s.range, scenario) else 0.0,
               TotalStart(ReleasesOf(stems[1..]), scenario, groupWide));
    }
  }

  /** With all amounts in whole cents there is no drift. */
  lemma NoDriftInCents(stems: seq<Stem>, today: int, k: nat, scenario: Scenario, groupWide: bool)
    requires InCents(stems)
    requires k <= |ChartDates(ReleasesOf(stems), today)|
    ensures StemDrift(stems, today, k, scenario, groupWide) == 0.0
  {
    var releases := ReleasesOf(stems);
    FutureInCents(stems, Midpoint, today);
    FutureInCents(stems, Minimum, today);
    FutureInCents(stems, Maximum, today);
    AmountsInCents(ChartEvents(releases, today), ChartBucket(releases, today),
                   ChartDates(releases, today)[..k], scenario, groupWide);
    StartInCents(stems, scenario, groupWide);
  }

  /** The most the balances of two scenarios drift at point `k`: nothing in whole cents, else half a cent for
      every rounding. */
  ghost function PointDrift(stems: seq<Stem>, k: nat): real {
    if InCents(stems) then 0.0 else 0.01 * (k + 1) as real
  }

  lemma {:induction false} AmountsCount(events: seq<Tagged>, bucket: int -> int, dates: seq<int>, scenario: Scenario,
                                        groupWide: bool)
    ensures |AmountsAt(events, bucket, dates, scenario, groupWide)| == |dates|
  {
    if dates != [] {
      AmountsCount(events, bucket, dates[..|dates| - 1], scenario, groupWide);
    }
  }

  lemma StemDriftBound(stems: seq<Stem>, today: int, k: nat, scenario: Scenario, groupWide: bool)
    requires k <= |ChartDates(ReleasesOf(stems), today)|
    ensures 2.0 * StemDrift(stems, today, k, scenario, groupWide) <= PointDrift(stems, k)
  {
    if InCents(stems) {
      NoDriftInCents(stems, today, k, scenario, groupWide);
    }
    AmountsCount(ChartEvents(ReleasesOf(stems), today), ChartBucket(ReleasesOf(stems), today),
                 ChartDates(ReleasesOf(stems), today)[..k], scenario, groupWide);
  }

  /** Minimum, midpoint and maximum exposure are in order within one cent per STEM and the drift. */
  ghost predicate BandInOrder(stems: seq<Stem>, today: int, k: nat, groupWide: bool)
    requires k <= |ChartDates(ReleasesOf(stems), today)|
  {
    && StemBalance(stems, today, k, Minimum, groupWide) <=
       StemBalance(stems, today, k, Midpoint, groupWide) + Cent(|stems|) + PointDrift(stems, k)
    && StemBalance(stems, today, k, Midpoint, groupWide) <=
       StemBalance(stems, today, k, Maximum, groupWide) + Cent(|stems|) + PointDrift(stems, k)
  }

  lemma BalancesInBand(stems: seq<Stem>, today: int, k: nat, groupWide: bool)
    requires stems != [] && Banded(stems)
    requires k <= |ChartDates(ReleasesOf(stems), today)|
    ensures BandInOrder(stems, today, k, groupWide)
  {
    StemDriftBound(stems, today, k, Minimum, groupWide);
    StemDriftBound(stems, today, k, Midpoint, groupWide);
    StemDriftBound(stems, today, k, Maximum, groupWide);
    BandNeverInverts(stems, today, k, groupWide);
  }

  /** The plateau is the undated exposure within one cent per STEM and the drift. */
  lemma PlateauWithin(stems: seq<Stem>, today: int, groupWide: bool)
    requires forall j :: 0 <= j < |stems| ==> AheadOf(stems[j], today)
    ensures var last := |ChartDates(ReleasesOf(stems), today)|;
            Abs(StemBalance(stems, today, last, Midpoint, groupWide) - UndatedTotal(stems, groupWide))
            <= Cent(|stems|) + PointDrift(stems, last)
  {
    StemDriftBound(stems, today, |ChartDates(ReleasesOf(stems), today)|, Midpoint, groupWide);
    PlateauIsUndated(stems, today, groupWide);
  }
}
