/** What the points of the buyer chart show, from the records of the STEMs on: the quantity band is in
    order at every point, the plateau is the undated exposure, and the dates are in the order that the
    combined sweep needs exactly if no bucket starts before today. */
module BuyerPoints {
  import opened BuyerBand
  import opened BuyerChart
  import opened BuyerForecast
  import opened Money
  import opened Options
  import opened Sorting
  import Calendar
  import CombinedExposure
  import ExposureRange
  import ReleaseDate
  import SupplierSeries

  // ----- the STEMs behind the chart -----

  function StemsOf(cases: seq<StemCase>, today: int): seq<Stem> {
    seq(|cases|, i requires 0 <= i < |cases| => StemOf(cases[i], today))
  }

  ghost predicate RowsInCents(rows: seq<Evidence>) {
    forall k :: 0 <= k < |rows| && rows[k].amount.Some? ==> IsCents(rows[k].amount.value)
  }

  /** Everything that Salesforce holds about the STEM is in whole cents. */
  ghost predicate CaseInCents(c: StemCase) {
    && (c.exposure.Some? ==> IsCents(c.exposure.value))
    && (c.range.Some? ==> IsCents(c.range.value.minimum) && IsCents(c.range.value.maximum))
    && RowsInCents(c.payments) && RowsInCents(c.cashflows)
  }

  ghost predicate CasesInCents(cases: seq<StemCase>) {
    forall i :: 0 <= i < |cases| ==> CaseInCents(cases[i])
  }

  lemma {:induction false} UniqueMembers(rows: seq<Evidence>)
    ensures forall row :: row in UniqueById(rows) ==> row in rows
  {
    if rows != [] {
      UniqueMembers(rows[..|rows| - 1]);
      assert rows[|rows| - 1] in rows;
    }
  }

  lemma {:induction false} SlotsAreInCents(p: Evidence -> bool, rows: seq<Evidence>)
    requires RowsInCents(rows)
    ensures SlotsInCents(SlotsWhere(p, UniqueById(rows)))
  {
    var unique := UniqueById(rows);
    var kept := Filter(p, unique);
    UniqueMembers(rows);
    FilterMembers(p, unique);
    SortKeepsElements(kept, ByDate);
    var slots := SlotsWhere(p, unique);
    forall k | 0 <= k < |slots| && slots[k].amount.Some? ensures IsCents(slots[k].amount.value) {
      var row := Sort(kept, ByDate)[k];
      assert row in kept;
      var j :| 0 <= j < |rows| && rows[j] == row;
    }
  }

  lemma StemsInCents(cases: seq<StemCase>, today: int)
    requires CasesInCents(cases)
    ensures InCents(StemsOf(cases, today))
  {
    forall i | 0 <= i < |cases| ensures StemInCents(StemOf(cases[i], today)) {
      var c := cases[i];
      assert CaseInCents(c);
      assert IsCents(0.0);
      SlotsAreInCents(Confirmed(today), c.payments);
      SlotsAreInCents(Scheduled(today), c.cashflows);
    }
  }

  lemma StemsAreAhead(cases: seq<StemCase>, today: int)
    ensures forall i :: 0 <= i < |cases| ==> AheadOf(StemsOf(cases, today)[i], today)
  {
    forall i | 0 <= i < |cases| ensures AheadOf(StemsOf(cases, today)[i], today) {
      StemIsAhead(cases[i], today);
    }
  }

  // ----- the points show the balances -----

  /** The midpoint openings that the STEMs add up to. */
  function OpeningOf(stems: seq<Stem>): Exposure {
    Exposure(Some(TotalStart(ReleasesOf(stems), Midpoint, false)), Some(TotalStart(ReleasesOf(stems), Midpoint, true)))
  }

  /** The receivable balances of the account, or of the group, as the statement sums them up. */
  function Receivables(cases: seq<StemCase>, groupWide: bool): real {
    if cases == [] then 0.0
    else
      (if (groupWide || cases[0].selected) && cases[0].exposure.Some? then cases[0].exposure.value else 0.0) +
      Receivables(cases[1..], groupWide)
  }

  /** The openings that the statement hands to the chart. */
  function StatementOpening(cases: seq<StemCase>): Exposure {
    Exposure(Some(Receivables(cases, false)), Some(Receivables(cases, true)))
  }

  lemma TailReleases(cases: seq<StemCase>, today: int)
    requires cases != []
    ensures var releases := ReleasesOf(StemsOf(cases, today));
            && releases != [] && releases[1..] == ReleasesOf(StemsOf(cases[1..], today))
            && releases[0].selected == cases[0].selected
            && releases[0].exposure == if cases[0].exposure.Some? then cases[0].exposure.value else 0.0
  {
    var stems := StemsOf(cases, today);
    assert stems[1..] == StemsOf(cases[1..], today);
    assert ReleasesOf(stems)[1..] == ReleasesOf(stems[1..]);
  }

  lemma {:induction false} ReceivablesAreStarts(cases: seq<StemCase>, today: int, groupWide: bool)
    ensures TotalStart(ReleasesOf(StemsOf(cases, today)), Midpoint, groupWide) == Receivables(cases, groupWide)
  {
    if cases != [] {
      ReceivablesAreStarts(cases[1..], today, groupWide);
      TailReleases(cases, today);
    }
  }

  lemma StatementOpeningIs(cases: seq<StemCase>, today: int)
    ensures StatementOpening(cases) == OpeningOf(StemsOf(cases, today))
  {
    ReceivablesAreStarts(cases, today, false);
    ReceivablesAreStarts(cases, today, true);
  }

  function Balances(stems: seq<Stem>, today: int, k: nat, scenario: Scenario): Exposure
    requires k <= |ChartDates(ReleasesOf(stems), today)|
  {
    Exposure(Some(StemBalance(stems, today, k, scenario, false)), Some(StemBalance(stems, today, k, scenario, true)))
  }

  lemma {:induction false} BalancesShown(stems: seq<Stem>, opening: Exposure, today: int, k: nat, scenario: Scenario)
    requires k <= |ChartDates(ReleasesOf(stems), today)|
    requires opening == Exposure(Some(TotalStart(ReleasesOf(stems), scenario, false)),
             Some(TotalStart(ReleasesOf(stems), scenario, true)))
    ensures var releases := ReleasesOf(stems);
            BalanceOf(opening, ChartEvents(releases, today), ChartBucket(releases, today),
                      ChartDates(releases, today)[..k], scenario) == Balances(stems, today, k, scenario)
  {
  }

  lemma PointShowsMidpoint(p: Point, stems: seq<Stem>, today: int, k: nat)
    requires k <= |ChartDates(ReleasesOf(stems), today)|
    requires PointAt(p, ReleasesOf(stems), OpeningOf(stems), today, k)
    ensures p.midpoint == Balances(stems, today, k, Midpoint)
  {
    BalancesShown(stems, OpeningOf(stems), today, k, Midpoint);
  }

  lemma PointShowsRange(p: Point, stems: seq<Stem>, today: int, k: nat)
    requires stems != [] && HaveRange(stems)
    requires k <= |ChartDates(ReleasesOf(stems), today)|
    requires PointAt(p, ReleasesOf(stems), OpeningOf(stems), today, k)
    ensures p.minimum == Balances(stems, today, k, Minimum)
    ensures p.maximum == Balances(stems, today, k, Maximum)
  {
    assert RangeComplete(ReleasesOf(stems));
    BalancesShown(stems, RangeOpening(ReleasesOf(stems), Minimum), today, k, Minimum);
    BalancesShown(stems, RangeOpening(ReleasesOf(stems), Maximum), today, k, Maximum);
  }

  // ----- every point balances -----

  /** A balance shown at point `k` is there if its opening is, and is the opening less all releases up to the
      point, up to the drift of the rounding. */
  ghost predicate SideBalances(balance: Option<real>, opening: Option<real>, releases: seq<Release>, today: int, k: nat,
                               scenario: Scenario, groupWide: bool)
    requires k <= |ChartDates(releases, today)|
  {
    && (balance.Some? <==> opening.Some?)
    && (balance.Some? ==>
          Abs(balance.value - (opening.value - TotalReleased(releases, scenario, groupWide, UpTo(releases, today, k))))
          <= Drift(opening.value, ChartAmounts(releases, today, k, scenario, groupWide)))
  }

  ghost predicate BothBalance(e: Exposure, opening: Exposure, releases: seq<Release>, today: int, k: nat,
                              scenario: Scenario)
    requires k <= |ChartDates(releases, today)|
  {
    && SideBalances(e.individual, opening.individual, releases, today, k, scenario, false)
    && SideBalances(e.groupWide, opening.groupWide, releases, today, k, scenario, true)
  }

  lemma ExposureBalances(opening: Exposure, releases: seq<Release>, today: int, k: nat, scenario: Scenario)
    requires k <= |ChartDates(releases, today)|
    requires scenario == Midpoint || opening == RangeOpening(releases, scenario)
    ensures BothBalance(BalanceOf(opening, ChartEvents(releases, today), ChartBucket(releases, today),
                                ChartDates(releases, today)[..k], scenario),
                      opening, releases, today, k, scenario)
  {
    if opening.individual.Some? {
      PointBalance(releases, opening.individual.value, today, k, scenario, false);
    }
    if opening.groupWide.Some? {
      PointBalance(releases, opening.groupWide.value, today, k, scenario, true);
    }
  }

  /** Every point of every chart, for whatever openings, shows the opening less the releases up to it: the
      given one for the midpoint and, if all ranges are complete, their sums for minimum and maximum. */
  lemma PointsBalance(points: seq<Point>, releases: seq<Release>, opening: Exposure, today: int, i: nat)
    requires DrawnWhole(points, releases, opening, today) && i < |points|
    ensures var n := |ChartDates(releases, today)|;
            var k := if i < n then i else n;
            && BothBalance(points[i].midpoint, opening, releases, today, k, Midpoint)
            && BothBalance(points[i].minimum, RangeOpening(releases, Minimum), releases, today, k, Minimum)
            && BothBalance(points[i].maximum, RangeOpening(releases, Maximum), releases, today, k, Maximum)
  {
    var n := |ChartDates(releases, today)|;
    var k := if i < n then i else n;
    DrawnPointAt(points, releases, opening, today, i);
    ExposureBalances(opening, releases, today, k, Midpoint);
    ExposureBalances(RangeOpening(releases, Minimum), releases, today, k, Minimum);
    ExposureBalances(RangeOpening(releases, Maximum), releases, today, k, Maximum);
  }

  // ----- the band at every point -----

  ghost predicate AtMost(a: Option<real>, b: Option<real>, slack: real) {
    a.Some? && b.Some? && a.value <= b.value + slack
  }

  /** Minimum, midpoint and maximum are there and in order, for the account and for the group. */
  ghost predicate BandAt(p: Point, slack: real) {
    && AtMost(p.minimum.individual, p.midpoint.individual, slack)
    && AtMost(p.midpoint.individual, p.maximum.individual, slack)
    && AtMost(p.minimum.groupWide, p.midpoint.groupWide, slack)
    && AtMost(p.midpoint.groupWide, p.maximum.groupWide, slack)
  }

  lemma PointBandAt(p: Point, stems: seq<Stem>, today: int, k: nat)
    requires k <= |ChartDates(ReleasesOf(stems), today)|
    requires p.midpoint == Balances(stems, today, k, Midpoint)
    requires p.minimum == Balances(stems, today, k, Minimum) && p.maximum == Balances(stems, today, k, Maximum)
    requires BandInOrder(stems, today, k, false) && BandInOrder(stems, today, k, true)
    ensures BandAt(p, Cent(|stems|) + PointDrift(stems, k))
  {
  }

  lemma PointInBand(p: Point, stems: seq<Stem>, today: int, k: nat)
    requires stems != [] && Banded(stems)
    requires k <= |ChartDates(ReleasesOf(stems), today)|
    requires PointAt(p, ReleasesOf(stems), OpeningOf(stems), today, k)
    ensures BandAt(p, Cent(|stems|) + PointDrift(stems, k))
  {
    PointShowsMidpoint(p, stems, today, k);
    PointShowsRange(p, stems, today, k);
    BalancesInBand(stems, today, k, false);
    BalancesInBand(stems, today, k, true);
    PointBandAt(p, stems, today, k);
  }

  lemma DriftGrows(stems: seq<Stem>, j: nat, k: nat)
    requires j <= k
    ensures PointDrift(stems, j) <= PointDrift(stems, k)
  {
  }

  /** The band is in order at every point that the chart draws, the plateau included, within one cent per
      STEM and half a cent for every rounding of the two balances; in whole cents nothing drifts. */
  lemma ChartInBand(points: seq<Point>, stems: seq<Stem>, today: int)
    requires stems != [] && Banded(stems)
    requires DrawnWhole(points, ReleasesOf(stems), OpeningOf(stems), today)
    ensures forall k: nat :: k < |points| ==> BandAt(points[k], Cent(|stems|) + PointDrift(stems, k))
  {
    var n := |ChartDates(ReleasesOf(stems), today)|;
    forall k: nat | k < |points| ensures BandAt(points[k], Cent(|stems|) + PointDrift(stems, k)) {
      DrawnPointAt(points, ReleasesOf(stems), OpeningOf(stems), today, k);
      PointInBand(points[k], stems, today, if k < n then k else n);
      DriftGrows(stems, if k < n then k else n, k);
    }
  }

  // ----- from prices to the band -----

  /** The range is the exposure itself, as for a STEM with a Buyer Invoice, or what the priced rows give,
      which keep the band in order; rows without a negative unit price do. */
  ghost predicate RangeOf(range: Option<Range>, exposure: real, lines: seq<ExposureRange.LineItem>,
                          extras: seq<ExposureRange.ExtraCost>) {
    || range == Some(Range(exposure, exposure))
    || (&& ExposureRange.Priced(lines, extras)
        && ExposureRange.KeepsOrder(lines, extras)
        && var band := ExposureRange.Around(exposure, ExposureRange.Totals(lines, extras),
            ExposureRange.AnyRange(lines, extras));
           range == Some(Range(band.minimum, band.maximum)))
  }

  /** The exposure is in whole cents and the range comes from the invoice or from the rows. */
  ghost predicate PricedCase(c: StemCase, lines: seq<ExposureRange.LineItem>, extras: seq<ExposureRange.ExtraCost>) {
    && c.exposure.Some? && IsCents(c.exposure.value)
    && RangeOf(c.range, c.exposure.value, lines, extras)
  }

  lemma PricedCaseIsBanded(c: StemCase, lines: seq<ExposureRange.LineItem>, extras: seq<ExposureRange.ExtraCost>)
    requires PricedCase(c, lines, extras)
    ensures c.range.Some? && c.range.value.minimum <= c.exposure.value <= c.range.value.maximum
    ensures RowsInCents(c.payments) && RowsInCents(c.cashflows) ==> CaseInCents(c)
  {
    if c.range != Some(Range(c.exposure.value, c.exposure.value)) {
      var t := ExposureRange.Totals(lines, extras);
      ExposureRange.BandOrderedIff(lines, extras, c.exposure.value, ExposureRange.AnyRange(lines, extras));
      Round2IsCents(c.exposure.value - t.midpoint + t.minimum);
      Round2IsCents(c.exposure.value - t.midpoint + t.maximum);
    }
  }

  ghost predicate PricedCases(cases: seq<StemCase>, lines: seq<seq<ExposureRange.LineItem>>,
                              extras: seq<seq<ExposureRange.ExtraCost>>) {
    |lines| == |extras| == |cases| && forall i :: 0 <= i < |cases| ==> PricedCase(cases[i], lines[i], extras[i])
  }

  /** All payments and cashflows are in whole cents. */
  ghost predicate PaymentsInCents(cases: seq<StemCase>) {
    forall i :: 0 <= i < |cases| ==> RowsInCents(cases[i].payments) && RowsInCents(cases[i].cashflows)
  }

  lemma PricedCasesAreBanded(cases: seq<StemCase>, lines: seq<seq<ExposureRange.LineItem>>,
                             extras: seq<seq<ExposureRange.ExtraCost>>, today: int)
    requires PricedCases(cases, lines, extras)
    ensures Banded(StemsOf(cases, today))
    ensures PaymentsInCents(cases) ==> CasesInCents(cases)
  {
    forall i | 0 <= i < |cases|
      ensures cases[i].range.Some? && cases[i].range.value.minimum <= cases[i].exposure.value
              <= cases[i].range.value.maximum
      ensures RowsInCents(cases[i].payments) && RowsInCents(cases[i].cashflows) ==> CaseInCents(cases[i])
    {
      PricedCaseIsBanded(cases[i], lines[i], extras[i]);
    }
  }

  /** What the roundings up to point `k` may hide: nothing if the records are in whole cents. */
  ghost function RecordDrift(cases: seq<StemCase>, k: nat): real {
    if CasesInCents(cases) then 0.0 else 0.01 * (k + 1) as real
  }

  lemma RecordDriftCovers(cases: seq<StemCase>, today: int, k: nat)
    ensures PointDrift(StemsOf(cases, today), k) <= RecordDrift(cases, k)
  {
    if CasesInCents(cases) {
      StemsInCents(cases, today);
    }
  }

  /** The forecast band never inverts, from the records to the points: with complete ranges and rows that
      keep each STEM's band in order, every point of the chart, the plateau included, has minimum,
      midpoint and maximum exposure in order within one cent per STEM and the drift, which payments in
      whole cents do not have. */
  lemma PricedChartNeverInverts(points: seq<Point>, cases: seq<StemCase>, lines: seq<seq<ExposureRange.LineItem>>,
                                extras: seq<seq<ExposureRange.ExtraCost>>, today: int)
    requires cases != [] && PricedCases(cases, lines, extras)
    requires DrawnWhole(points, ReleasesOf(StemsOf(cases, today)), StatementOpening(cases), today)
    ensures forall k: nat :: k < |points| ==> BandAt(points[k], Cent(|cases|) + RecordDrift(cases, k))
    ensures PaymentsInCents(cases) ==> forall k: nat :: k < |points| ==> RecordDrift(cases, k) == 0.0
  {
    PricedCasesAreBanded(cases, lines, extras, today);
    StatementOpeningIs(cases, today);
    ChartInBand(points, StemsOf(cases, today), today);
    forall k: nat | k < |points| ensures BandAt(points[k], Cent(|cases|) + RecordDrift(cases, k)) {
      RecordDriftCovers(cases, today, k);
    }
  }

  // ----- the plateau -----

  ghost predicate NearBy(a: Option<real>, b: Option<real>, slack: real) {
    a.Some? && b.Some? && Abs(a.value - b.value) <= slack
  }

  lemma {:induction false} ReleasedInCents(events: seq<Event>, p: Option<int> -> bool)
    requires forall e :: e in events ==> IsCents(e.amount)
    ensures IsCents(Released(events, p))
  {
    assert IsCents(0.0);
    if events != [] {
      assert events[0] in events && forall e :: e in events[1..] ==> e in events;
      ReleasedInCents(events[1..], p);
      CentsAdd(if p(events[0].date) then events[0].amount else 0.0, Released(events[1..], p));
    }
  }

  lemma StemUndatedInCents(s: Stem)
    requires StemInCents(s)
    ensures IsCents(Released(ForecastFrom(s, s.exposure), Undated))
  {
    ForecastInCents(s.exposure, s.payments, s.scheduled, s.residual);
    ReleasedInCents(ForecastFrom(s, s.exposure), Undated);
  }

  lemma {:induction false} UndatedInCents(stems: seq<Stem>, groupWide: bool)
    requires InCents(stems)
    ensures IsCents(UndatedTotal(stems, groupWide))
  {
    assert IsCents(0.0);
    if stems != [] {
      assert InCents(stems[1..]);
      UndatedInCents(stems[1..], groupWide);
      StemUndatedInCents(stems[0]);
      UndatedStep(stems, groupWide);
      CentsAdd(if groupWide || stems[0].selected then Released(ForecastFrom(stems[0], stems[0].exposure), Undated)
          else 0.0,
               UndatedTotal(stems[1..], groupWide));
    }
  }

  /** The reported undated exposure is the total without a date, rounded once. */
  lemma UndatedRounds(stems: seq<Stem>, groupWide: bool, k: nat)
    ensures Abs(Round2(UndatedTotal(stems, groupWide)) - UndatedTotal(stems, groupWide)) + PointDrift(stems, k)
            <= PointDrift(stems, k + 1)
  {
    if InCents(stems) {
      UndatedInCents(stems, groupWide);
      Round2Exact(UndatedTotal(stems, groupWide));
    } else {
      Round2Near(UndatedTotal(stems, groupWide));
    }
  }

  lemma PlateauShown(p: Point, stems: seq<Stem>, today: int)
    requires forall i :: 0 <= i < |stems| ==> AheadOf(stems[i], today)
    requires PointAt(p, ReleasesOf(stems), OpeningOf(stems), today, |ChartDates(ReleasesOf(stems), today)|)
    ensures var slack := Cent(|stems|) + PointDrift(stems, |ChartDates(ReleasesOf(stems), today)| + 1);
            && NearBy(p.midpoint.individual, UndatedExposure(ReleasesOf(stems)).individual, slack)
            && NearBy(p.midpoint.groupWide, UndatedExposure(ReleasesOf(stems)).groupWide, slack)
  {
    var n := |ChartDates(ReleasesOf(stems), today)|;
    PointShowsMidpoint(p, stems, today, n);
    PlateauWithin(stems, today, false);
    PlateauWithin(stems, today, true);
    UndatedRounds(stems, false, n);
    UndatedRounds(stems, true, n);
  }

  /** Whatever bucketing was chosen, the plateau of a chart built from the STEMs' records shows the
      undated exposure that the chart reports, within one cent per STEM and the drift. */
  lemma PlateauIsUndatedExposure(points: seq<Point>, cases: seq<StemCase>, today: int)
    requires DrawnWhole(points, ReleasesOf(StemsOf(cases, today)), StatementOpening(cases), today)
    ensures var last := |points| - 1;
            var undated, slack := UndatedExposure(ReleasesOf(StemsOf(cases, today))),
                Cent(|cases|) + RecordDrift(cases, last);
            && points[last].plateau
            && NearBy(points[last].midpoint.individual, undated.individual, slack)
            && NearBy(points[last].midpoint.groupWide, undated.groupWide, slack)
  {
    StemsAreAhead(cases, today);
    StatementOpeningIs(cases, today);
    PlateauShown(points[|points| - 1], StemsOf(cases, today), today);
    RecordDriftCovers(cases, today, |points| - 1);
  }

  // ----- the order of the points -----

  /** The chart's points as the combined sweep reads them. */
  function SweepPoints(points: seq<Point>): seq<CombinedExposure.BuyerPoint> {
    seq(|points|, i requires 0 <= i < |points| =>
      CombinedExposure.BuyerPoint(points[i].date, points[i].midpoint.individual, points[i].midpoint.groupWide, []))
  }

  function PointDates(points: seq<Point>): seq<int> {
    CombinedExposure.BuyerDates(SweepPoints(points))
  }

  /** No bucket starts before today. */
  predicate BucketsAhead(releases: seq<Release>, today: int) {
    ChartDates(releases, today) != [] ==> ChartDates(releases, today)[0] >= today
  }

  lemma DrawnDates(drawn: seq<Point>, releases: seq<Release>, opening: Exposure, today: int, k: nat)
    requires DrawnWhole(drawn, releases, opening, today) && k < |drawn|
    ensures var dates := ChartDates(releases, today);
            && (k == 0 ==> drawn[k].date == today)
            && (0 < k <= |dates| ==> drawn[k].date == dates[k - 1])
            && (k == |dates| + 1 ==> drawn[k].date > drawn[k - 1].date)
  {
    var n := |ChartDates(releases, today)|;
    assert k <= n ==> drawn[..n + 1][k] == drawn[k];
  }

  lemma DrawnOrdered(drawn: seq<Point>, releases: seq<Release>, opening: Exposure, today: int, i: nat, j: nat)
    requires DrawnWhole(drawn, releases, opening, today) && i < j < |drawn|
    requires BucketsAhead(releases, today)
    ensures drawn[i].date <= drawn[j].date
    decreases j
  {
    var n := |ChartDates(releases, today)|;
    BucketListed(releases, today);
    DrawnDates(drawn, releases, opening, today, i);
    DrawnDates(drawn, releases, opening, today, j);
    if j == n + 1 && i < n {
      DrawnOrdered(drawn, releases, opening, today, i, n);
    }
  }

  /** The points that are shown have the dates of the points that are drawn. */
  lemma ShownDates(points: seq<Point>, drawn: seq<Point>, shown: Projection)
    requires Shows(points, drawn, shown)
    ensures |drawn| - 1 <= |points| <= |drawn|
    ensures forall k :: 0 <= k < |points| ==> points[k].date == drawn[k].date
  {
  }

  ghost predicate DatesInOrder(points: seq<Point>) {
    forall i, j :: 0 <= i < j < |points| ==> points[i].date <= points[j].date
  }

  lemma DrawnInOrder(drawn: seq<Point>, releases: seq<Release>, opening: Exposure, today: int)
    requires DrawnWhole(drawn, releases, opening, today) && BucketsAhead(releases, today)
    ensures DatesInOrder(drawn)
  {
    forall i, j | 0 <= i < j < |drawn| ensures drawn[i].date <= drawn[j].date {
      DrawnOrdered(drawn, releases, opening, today, i, j);
    }
  }

  lemma InOrderIsOrdered(points: seq<Point>)
    ensures CombinedExposure.Ordered(PointDates(points)) <==> DatesInOrder(points)
  {
    assert |PointDates(points)| == |points| && forall i ::
        0 <= i < |points| ==> PointDates(points)[i] == points[i].date;
  }

  lemma AheadIsOrdered(points: seq<Point>, drawn: seq<Point>, shown: Projection, releases: seq<Release>,
                       opening: Exposure, today: int)
    requires DrawnWhole(drawn, releases, opening, today) && Shows(points, drawn, shown)
    requires BucketsAhead(releases, today)
    ensures CombinedExposure.Ordered(PointDates(points))
  {
    DrawnInOrder(drawn, releases, opening, today);
    ShownDates(points, drawn, shown);
    InOrderIsOrdered(points);
  }

  lemma EarlyIsDisordered(points: seq<Point>, drawn: seq<Point>, shown: Projection, releases: seq<Release>,
                          opening: Exposure, today: int)
    requires DrawnWhole(drawn, releases, opening, today) && Shows(points, drawn, shown)
    requires !BucketsAhead(releases, today)
    ensures |points| > 1 && points[0].date == today && points[1].date == ChartDates(releases, today)[0] < today
  {
    ShownDates(points, drawn, shown);
    DrawnDates(drawn, releases, opening, today, 0);
    DrawnDates(drawn, releases, opening, today, 1);
  }

  /** The chart's points are in date order, as the combined sweep needs them, exactly if no bucket starts
      before today. */
  lemma ChartOrderedIff(points: seq<Point>, drawn: seq<Point>, shown: Projection, releases: seq<Release>,
                        opening: Exposure, today: int)
    requires DrawnWhole(drawn, releases, opening, today) && Shows(points, drawn, shown)
    ensures CombinedExposure.Ordered(PointDates(points)) <==> BucketsAhead(releases, today)
  {
    if BucketsAhead(releases, today) {
      AheadIsOrdered(points, drawn, shown, releases, opening, today);
    } else {
      EarlyIsDisordered(points, drawn, shown, releases, opening, today);
      FirstPairDisordered(points);
    }
  }

  lemma FirstPairDisordered(points: seq<Point>)
    requires |points| > 1 && points[1].date < points[0].date
    ensures !CombinedExposure.Ordered(PointDates(points))
  {
    assert PointDates(points)[0] > PointDates(points)[1];
  }

  lemma {:induction false} DecorateAhead(events: seq<Event>, selected: bool, scenario: Scenario, today: int)
    ensures forall t :: t in Decorate(events, selected, scenario, today) ==> t.date >= today
  {
    if events != [] {
      DecorateAhead(events[1..], selected, scenario, today);
    }
  }

  lemma {:induction false} FutureAhead(releases: seq<Release>, scenario: Scenario, today: int)
    ensures forall t :: t in Future(releases, scenario, today) ==> t.date >= today
  {
    if releases != [] {
      DecorateAhead(EventsOf(releases[0], scenario), releases[0].selected, scenario, today);
      FutureAhead(releases[1..], scenario, today);
    }
  }

  lemma EventsAreAhead(releases: seq<Release>, today: int)
    ensures forall t :: t in ChartEvents(releases, today) ==> t.date >= today
  {
    FutureAhead(releases, Midpoint, today);
    FutureAhead(releases, Minimum, today);
    FutureAhead(releases, Maximum, today);
  }

  /** No bucket starts before today exactly if the bucket of no event does. */
  lemma BucketsAheadIff(releases: seq<Release>, today: int)
    ensures BucketsAhead(releases, today) <==>
            forall t :: t in ChartEvents(releases, today) ==> ChartBucket(releases, today)(t.date) >= today
  {
    var events, bucket := ChartEvents(releases, today), ChartBucket(releases, today);
    var dates, all := ChartDates(releases, today), Map((e: Tagged) => bucket(e.date), events);
    BucketListed(releases, today);
    DistinctDatesOrder(all);
    if dates != [] {
      assert dates[0] in all;
      var i :| 0 <= i < |all| && all[i] == dates[0];
      assert events[i] in events && bucket(events[i].date) == dates[0];
    }
    forall t | t in events && BucketsAhead(releases, today) ensures bucket(t.date) >= today {
      var j :| 0 <= j < |dates| && dates[j] == bucket(t.date);
    }
  }

  /** A chart by day is always in order. */
  lemma DayChartOrdered(releases: seq<Release>, today: int)
    requires ChartGranularity(ChartEvents(releases, today)) == Day
    ensures BucketsAhead(releases, today)
  {
    EventsAreAhead(releases, today);
    BucketsAheadIff(releases, today);
  }

  lemma WeekStartIs(date: int)
    ensures WeekStart(date) == 7 * ((date + 3) / 7) - 3
  {
    assert (ReleaseDate.WeekDay(date) + 6) % 7 == (date + 3) % 7;
  }

  lemma WeekStartAhead(date: int, today: int)
    requires date >= today
    ensures WeekStart(date) >= today <==> WeekStart(today) == today || date >= WeekStart(today) + 7
  {
    WeekStartIs(date);
    WeekStartIs(today);
  }

  /** A chart by week is in order exactly if today is a Monday or nothing is released this week. */
  lemma WeekChartOrderedIff(releases: seq<Release>, today: int)
    requires ChartGranularity(ChartEvents(releases, today)) == Week
    ensures BucketsAhead(releases, today) <==>
            WeekStart(today) == today || forall t :: t in ChartEvents(releases, today) ==>
                t.date >= WeekStart(today) + 7
  {
    EventsAreAhead(releases, today);
    BucketsAheadIff(releases, today);
    forall t | t in ChartEvents(releases, today)
      ensures WeekStart(t.date) >= today <==> WeekStart(today) == today || t.date >= WeekStart(today) + 7
    {
      WeekStartAhead(t.date, today);
    }
  }

  /** A chart by month is in order exactly if today is the first of a month or nothing is released this
      month. */
  lemma MonthChartOrderedIff(releases: seq<Release>, today: int)
    requires ChartGranularity(ChartEvents(releases, today)) == Month
    ensures BucketsAhead(releases, today) <==>
            Calendar.MonthStart(today) == today || forall t ::
                t in ChartEvents(releases, today) ==> t.date >= Calendar.NextMonth(today)
  {
    EventsAreAhead(releases, today);
    BucketsAheadIff(releases, today);
    forall t | t in ChartEvents(releases, today)
      ensures Calendar.MonthStart(t.date) >= today <==>
              Calendar.MonthStart(today) == today || t.date >= Calendar.NextMonth(today)
    {
      Calendar.MonthStartAhead(t.date, today);
    }
  }

  // ----- the combined sweep over real series -----

  /** The merged row at `d` holds on each side what the first `m` and `n` points end with. */
  ghost predicate RowIs(points: seq<Point>, series: seq<SupplierSeries.Point>, groupWide: bool, d: int, m: nat, n: nat)
    requires m <= |points| && n <= |series|
  {
    var row := CombinedExposure.RowAt(SweepPoints(points), SupplierSeries.SweepPoints(series), groupWide, d);
    && row.buyer == (if m == 0 then None else if groupWide then points[m - 1].midpoint.groupWide
        else points[m - 1].midpoint.individual)
    && row.supplier == (if n == 0 then None else Some(series[n - 1].remaining as real / 100.0))
    && (row.net.Some? <==> row.buyer.Some? && row.supplier.Some?)
    && (row.net.Some? ==> row.net.value == row.buyer.value - row.supplier.value)
  }

  function SeriesDates(series: seq<SupplierSeries.Point>): seq<int> {
    CombinedExposure.SupplierDates(SupplierSeries.SweepPoints(series))
  }

  lemma OrderedRowsAreLookups(points: seq<Point>, series: seq<SupplierSeries.Point>, groupWide: bool, d: int, m: nat,
                              n: nat)
    requires CombinedExposure.Ordered(PointDates(points)) && CombinedExposure.Ordered(SeriesDates(series))
    requires CombinedExposure.LastAtOrBefore(PointDates(points), d, m)
             && CombinedExposure.LastAtOrBefore(SeriesDates(series), d, n)
    ensures RowIs(points, series, groupWide, d, m, n)
  {
    CombinedExposure.MergeRefinesLookup(SweepPoints(points), SupplierSeries.SweepPoints(series), groupWide, d, m, n);
  }

  /** With no bucket before today, a row of the combined sweep over the chart and a supplier series holds on
      each side the last point at or before its date. */
  lemma CombinedRowsAreLookups(points: seq<Point>, drawn: seq<Point>, shown: Projection, releases: seq<Release>,
                               opening: Exposure,
                               today: int, rows: seq<SupplierSeries.Row>, currency: int,
                               series: seq<SupplierSeries.Point>, supplierOpening: int, groupWide: bool, d: int, m: nat,
                                   n: nat)
    requires DrawnWhole(drawn, releases, opening, today) && Shows(points, drawn, shown)
    requires BucketsAhead(releases, today)
    requires SupplierSeries.SeriesOf(series, rows, currency, supplierOpening, today)
    requires CombinedExposure.LastAtOrBefore(PointDates(points), d, m)
             && CombinedExposure.LastAtOrBefore(SeriesDates(series), d, n)
    ensures RowIs(points, series, groupWide, d, m, n)
  {
    AheadIsOrdered(points, drawn, shown, releases, opening, today);
    SupplierSeries.SeriesFitsSweep(rows, currency, today, series, supplierOpening);
    OrderedRowsAreLookups(points, series, groupWide, d, m, n);
  }

  /** A bucket that starts before today is missed at its own date: the chart has a point there, but the
      merged row has no buyer value, because today's point comes first. */
  lemma EarlyBucketIsMissed(points: seq<Point>, drawn: seq<Point>, shown: Projection, releases: seq<Release>,
                            opening: Exposure, today: int, supplier: seq<CombinedExposure.SupplierPoint>,
                                groupWide: bool)
    requires DrawnWhole(drawn, releases, opening, today) && Shows(points, drawn, shown)
    requires !BucketsAhead(releases, today)
    ensures var d := ChartDates(releases, today)[0];
            && |points| > 1 && points[1].date == d
            && CombinedExposure.RowAt(SweepPoints(points), supplier, groupWide, d).buyer == None
  {
    EarlyIsDisordered(points, drawn, shown, releases, opening, today);
    CombinedExposure.PassedUnique(PointDates(points), ChartDates(releases, today)[0], 0);
  }

  // ----- a chart with an early bucket -----

  /** Payments of one on each of the days from `first` on. */
  function Daily(first: int, days: nat): seq<Slot> {
    seq(days, i requires 0 <= i < days => Slot(first + i, Some(1.0)))
  }

  function DailyEvents(first: int, days: nat): seq<Event> {
    seq(days, i requires 0 <= i < days => Event(Some(first + i), 1.0, ConfirmedPayment))
  }

  lemma {:induction false} PourDaily(first: int, days: nat)
    ensures Pour(Daily(first, days), days as real, ConfirmedPayment) == Poured(DailyEvents(first, days), 0.0)
    decreases days
  {
    if days > 0 {
      PourDaily(first + 1, days - 1);
      assert Daily(first, days)[1..] == Daily(first + 1, days - 1);
      assert DailyEvents(first, days) == [Event(Some(first), 1.0, ConfirmedPayment)] + DailyEvents(first + 1, days - 1);
    }
  }

  function DailyTags(first: int, days: nat): seq<Tagged> {
    seq(days, i requires 0 <= i < days => Tagged(first + i, 1.0, true, Midpoint))
  }

  lemma {:induction false} DecorateDaily(first: int, days: nat, today: int)
    requires first >= today
    ensures Decorate(DailyEvents(first, days), true, Midpoint, today) == DailyTags(first, days)
    decreases days
  {
    if days > 0 {
      DecorateDaily(first + 1, days - 1, today);
      assert DailyEvents(first, days)[1..] == DailyEvents(first + 1, days - 1);
      assert DailyTags(first, days) == [Tagged(first, 1.0, true, Midpoint)] + DailyTags(first + 1, days - 1);
    }
  }

  lemma DailyForecast(first: int, days: nat)
    ensures Forecast(days as real, Daily(first, days), [], None) == DailyEvents(first, days)
  {
    PourDaily(first, days);
    assert DailyEvents(first, days) + [] + [] == DailyEvents(first, days);
  }

  /** An exposure of `days` that is paid back one a day. */
  function DailyStem(first: int, days: nat): Stem {
    Stem(true, days as real, None, Daily(first, days), [], None)
  }

  lemma {:induction false} FutureOfOne(release: Release, today: int)
    ensures Future([release], Midpoint, today) == Decorate(release.events, release.selected, Midpoint, today)
  {
    assert [release][1..] == [];
    var events := Decorate(release.events, release.selected, Midpoint, today);
    assert events + [] == events;
  }

  lemma DailyChartEvents(first: int, days: nat, today: int)
    requires first >= today
    ensures ChartEvents([ReleaseOf(DailyStem(first, days))], today) == DailyTags(first, days)
  {
    var releases := [ReleaseOf(DailyStem(first, days))];
    DailyForecast(first, days);
    DecorateDaily(first, days, today);
    assert releases[0].range == None;
    assert !RangeComplete(releases);
    FutureOfOne(releases[0], today);
    assert DailyTags(first, days) + [] == DailyTags(first, days);
  }

  /** The records of such a STEM: payments with Ids of their own and nothing that says when it is due. */
  function DailyPayments(first: int, days: nat): seq<Evidence> {
    seq(days, i requires 0 <= i < days => Evidence(Some(i), Some(first + i), Some(1.0)))
  }

  function DailyCase(first: int, days: nat): StemCase {
    StemCase(true, Some(days as real), None, DailyPayments(first, days), [],
        ReleaseDate.DueEvidence([], [], None, None), None, {})
  }

  lemma DailyPaymentsStep(first: int, days: nat)
    requires days > 0
    ensures DailyPayments(first, days)[..days - 1] == DailyPayments(first, days - 1)
  {
  }

  lemma {:induction false} LaterIdIsNew(first: int, days: nat, id: int)
    requires id >= days
    ensures !HasKey(DailyPayments(first, days), Some(id))
  {
    if days > 0 {
      DailyPaymentsStep(first, days);
      LaterIdIsNew(first, days - 1, id);
    }
  }

  lemma {:induction false} DailyPaymentsHaveIds(first: int, days: nat)
    ensures OwnIds(DailyPayments(first, days))
  {
    if days > 0 {
      DailyPaymentsStep(first, days);
      LaterIdIsNew(first, days - 1, days - 1);
      DailyPaymentsHaveIds(first, days - 1);
    }
  }

  lemma DailyPaymentsFit(first: int, days: nat, today: int)
    requires first > today
    ensures var rows := DailyPayments(first, days);
            Sorted(rows, ByDate) && forall row :: row in rows ==> IsConfirmed(row, today)
  {
  }

  lemma DailyPaymentsAreSlots(first: int, days: nat, today: int)
    requires first > today
    ensures FuturePayments(DailyPayments(first, days), today) == Daily(first, days)
  {
    DailyPaymentsHaveIds(first, days);
    DailyPaymentsFit(first, days, today);
    AllConfirmed(DailyPayments(first, days), today);
    DailySlots(first, days);
  }

  lemma DailySlots(first: int, days: nat)
    ensures Map(ToSlot, DailyPayments(first, days)) == Daily(first, days)
  {
  }

  /** From tomorrow on the records give the daily payments. */
  lemma DailyCaseGives(first: int, days: nat, today: int)
    requires first > today
    ensures StemOf(DailyCase(first, days), today) == DailyStem(first, days)
  {
    DailyPaymentsAreSlots(first, days, today);
    ReleaseDate.CandidateFacts(DailyCase(first, days).due, today, None, {});
    assert ScheduledReleases([], today) == [];
  }

  /** More than sixty daily payments are drawn by week, if they end within a year, else by month. */
  lemma DailyGranularity(first: int, days: nat, today: int)
    requires days > 60 && first >= today
    ensures ChartGranularity(ChartEvents([ReleaseOf(DailyStem(first, days))], today)) == if days <= 366 then Week
            else Month
  {
    DailyChartEvents(first, days, today);
    AscendingIsDistinct(DatesOf(DailyTags(first, days)));
  }

  lemma DailyDates(first: int, days: nat, today: int, bound: int)
    requires days > 0 && first >= today
    ensures (forall t :: t in ChartEvents([ReleaseOf(DailyStem(first, days))], today) ==> t.date >= bound) <==>
            first >= bound
  {
    DailyChartEvents(first, days, today);
    assert DailyTags(first, days)[0] == Tagged(first, 1.0, true, Midpoint);
  }

  /** The chart of a STEM that is paid back one a day from `first` on, after today. */
  function DailyReleases(first: int, days: nat, today: int): seq<Release> {
    ReleasesOf(StemsOf([DailyCase(first, days)], today))
  }

  lemma DailyReleasesAre(first: int, days: nat, today: int)
    requires first > today
    ensures DailyReleases(first, days, today) == [ReleaseOf(DailyStem(first, days))]
  {
    DailyCaseGives(first, days, today);
    assert StemsOf([DailyCase(first, days)], today) == [DailyStem(first, days)];
  }

  /** Such a chart is in order exactly if today starts a week, or a month, or the payments start in a later
      one. */
  lemma EarlyBucketHappens(first: int, days: nat, today: int)
    requires days > 60 && first > today
    ensures BucketsAhead(DailyReleases(first, days, today), today) <==>
            if days <= 366 then WeekStart(today) == today || first >= WeekStart(today) + 7
            else Calendar.MonthStart(today) == today || first >= Calendar.NextMonth(today)
  {
    var releases := DailyReleases(first, days, today);
    DailyReleasesAre(first, days, today);
    DailyGranularity(first, days, today);
    if days <= 366 {
      WeekChartOrderedIff(releases, today);
      DailyDates(first, days, today, WeekStart(today) + 7);
    } else {
      MonthChartOrderedIff(releases, today);
      DailyDates(first, days, today, Calendar.NextMonth(today));
    }
  }

  lemma TomorrowIsNextWeek(today: int)
    ensures WeekStart(today) == today || today + 1 >= WeekStart(today) + 7 <==> ReleaseDate.WeekDay(today) <= 1
  {
    WeekStartIs(today);
  }

  /** With payments from tomorrow on a weekly chart is in order on Sundays and Mondays only. */
  lemma EarlyBucketFromTomorrow(days: nat, today: int)
    requires 60 < days <= 366
    ensures BucketsAhead(DailyReleases(today + 1, days, today), today) <==> ReleaseDate.WeekDay(today) <= 1
  {
    EarlyBucketHappens(today + 1, days, today);
    TomorrowIsNextWeek(today);
  }

  /** For example, on Wednesday 7 January 1970 with daily payments from the 8th on, the first bucket starts on
      Monday the 5th. */
  lemma EarlyBucketOnWednesday(days: nat)
    requires 60 < days <= 366
    ensures WeekStart(6) == 4 && !BucketsAhead(DailyReleases(7, days, 6), 6)
  {
    WeekStartIs(6);
    EarlyBucketHappens(7, days, 6);
  }
}
