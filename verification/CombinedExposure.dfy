/** The sweep that merges the buyer chart and the supplier series of one currency: for every date of
    either, the exposure then in force on both sides and their difference. */
module CombinedExposure {
  import opened Options
  import opened Sorting

  /** `events` are the forecast events of the point, by number. */
  datatype BuyerPoint = BuyerPoint(date: int, individual: Option<real>, groupWide: Option<real>, events: seq<int>)

  datatype SupplierPoint = SupplierPoint(date: int, remaining: real)

  datatype Combined = Combined(date: int, buyer: Option<real>, supplier: Option<real>, net: Option<real>,
      events: seq<int>)

  function BuyerDates(points: seq<BuyerPoint>): seq<int> {
    seq(|points|, i requires 0 <= i < |points| => points[i].date)
  }

  function SupplierDates(points: seq<SupplierPoint>): seq<int> {
    seq(|points|, i requires 0 <= i < |points| => points[i].date)
  }

  // ----- the dates -----

  ghost predicate Ordered(dates: seq<int>) {
    forall i, j :: 0 <= i < j < |dates| ==> dates[i] <= dates[j]
  }

  // ----- where the sweep stands -----

  /** How many points of the series lie before the first one dated after `d`. */
  function Passed(dates: seq<int>, d: int): (n: nat)
    ensures n <= |dates|
    ensures forall i :: 0 <= i < n ==> dates[i] <= d
    ensures n < |dates| ==> dates[n] > d
  {
    if dates == [] || dates[0] > d then 0 else 1 + Passed(dates[1..], d)
  }

  lemma {:induction false} PassedUnique(dates: seq<int>, d: int, n: nat)
    requires n <= |dates|
    requires forall i :: 0 <= i < n ==> dates[i] <= d
    requires n < |dates| ==> dates[n] > d
    ensures n == Passed(dates, d)
  {
    if n > 0 {
      assert forall i :: 0 <= i < |dates| - 1 ==> dates[1..][i] == dates[i + 1];
      PassedUnique(dates[1..], d, n - 1);
    }
  }

  lemma {:induction false} PassedGrows(dates: seq<int>, d: int, e: int)
    requires d <= e
    ensures Passed(dates, d) <= Passed(dates, e)
  {
    if dates != [] && dates[0] <= d {
      PassedGrows(dates[1..], d, e);
    }
  }

  function BuyerValue(p: BuyerPoint, groupWide: bool): Option<real> {
    if groupWide then p.groupWide else p.individual
  }

  function BuyerAfter(points: seq<BuyerPoint>, n: nat, groupWide: bool): Option<real>
    requires n <= |points|
  {
    if n == 0 then None else BuyerValue(points[n - 1], groupWide)
  }

  function EventsAfter(points: seq<BuyerPoint>, n: nat): seq<int>
    requires n <= |points|
  {
    if n == 0 then [] else points[n - 1].events
  }

  function SupplierAfter(points: seq<SupplierPoint>, n: nat): Option<real>
    requires n <= |points|
  {
    if n == 0 then None else Some(points[n - 1].remaining)
  }

  function Net(buyer: Option<real>, supplier: Option<real>): Option<real> {
    if buyer.None? || supplier.None? then None else Some(buyer.value - supplier.value)
  }

  /** The merged row at date `d`. */
  function RowAt(buyer: seq<BuyerPoint>, supplier: seq<SupplierPoint>, groupWide: bool, d: int): Combined {
    var b := BuyerAfter(buyer, Passed(BuyerDates(buyer), d), groupWide);
    var s := SupplierAfter(supplier, Passed(SupplierDates(supplier), d));
    Combined(d, b, s, Net(b, s), EventsAfter(buyer, Passed(BuyerDates(buyer), d)))
  }

  /** Moves the buyer side up to `date`. */
  method AdvanceBuyer(points: seq<BuyerPoint>, groupWide: bool, date: int, start: nat)
    returns (index: nat, value: Option<real>, events: seq<int>)
    requires start <= Passed(BuyerDates(points), date)
    ensures index == Passed(BuyerDates(points), date)
    ensures value == BuyerAfter(points, index, groupWide) && events == EventsAfter(points, index)
  {
    index, value, events := start, BuyerAfter(points, start, groupWide), EventsAfter(points, start);
    var dates := BuyerDates(points);
    assert forall i :: 0 <= i < start ==> dates[i] <= date;
    while index < |points| && points[index].date <= date
      invariant index <= |points|
      invariant value == BuyerAfter(points, index, groupWide) && events == EventsAfter(points, index)
      invariant forall i :: 0 <= i < index ==> dates[i] <= date
    {
      value := if groupWide then points[index].groupWide else points[index].individual;
      events := points[index].events;
      index := index + 1;
    }
    PassedUnique(dates, date, index);
  }

  /** Moves the supplier side up to `date`. */
  method AdvanceSupplier(points: seq<SupplierPoint>, date: int, start: nat) returns (index: nat, value: Option<real>)
    requires start <= Passed(SupplierDates(points), date)
    ensures index == Passed(SupplierDates(points), date)
    ensures value == SupplierAfter(points, index)
  {
    index, value := start, SupplierAfter(points, start);
    var dates := SupplierDates(points);
    assert forall i :: 0 <= i < start ==> dates[i] <= date;
    while index < |points| && points[index].date <= date
      invariant index <= |points|
      invariant value == SupplierAfter(points, index)
      invariant forall i :: 0 <= i < index ==> dates[i] <= date
    {
      value := Some(points[index].remaining);
      index := index + 1;
    }
    PassedUnique(dates, date, index);
  }

  ghost predicate Merged(rows: seq<Combined>, dates: seq<int>, buyer: seq<BuyerPoint>, supplier: seq<SupplierPoint>,
                         groupWide: bool) {
    |rows| == |dates| && forall k :: 0 <= k < |dates| ==> rows[k] == RowAt(buyer, supplier, groupWide, dates[k])
  }

  lemma MergedStep(rows: seq<Combined>, dates: seq<int>, k: nat, buyer: seq<BuyerPoint>, supplier: seq<SupplierPoint>,
                   groupWide: bool)
    requires k < |dates| && Merged(rows, dates[..k], buyer, supplier, groupWide)
    ensures Merged(rows + [RowAt(buyer, supplier, groupWide, dates[k])], dates[..k + 1], buyer, supplier, groupWide)
  {
  }

  /** One row: both sides move up to `date`. */
  method SweepRow(date: int, buyerPoints: seq<BuyerPoint>, supplierPoints: seq<SupplierPoint>, groupWide: bool,
                  buyerStart: nat, supplierStart: nat)
    returns (row: Combined, buyerIndex: nat, supplierIndex: nat)
    requires buyerStart <= Passed(BuyerDates(buyerPoints), date)
    requires supplierStart <= Passed(SupplierDates(supplierPoints), date)
    ensures row == RowAt(buyerPoints, supplierPoints, groupWide, date)
    ensures buyerIndex == Passed(BuyerDates(buyerPoints), date)
    ensures supplierIndex == Passed(SupplierDates(supplierPoints), date)
  {
    var buyerValue, buyerEvents, supplierValue;
    buyerIndex, buyerValue, buyerEvents := AdvanceBuyer(buyerPoints, groupWide, date, buyerStart);
    supplierIndex, supplierValue := AdvanceSupplier(supplierPoints, date, supplierStart);
    var net := if buyerValue.None? || supplierValue.None? then None else Some(buyerValue.value - supplierValue.value);
    row := Combined(date, buyerValue, supplierValue, net, buyerEvents);
  }

  /** One pass over ascending dates; neither side ever moves back. */
  method Sweep(dates: seq<int>, buyerPoints: seq<BuyerPoint>, supplierPoints: seq<SupplierPoint>, groupWide: bool)
    returns (rows: seq<Combined>)
    requires Ascending(dates)
    ensures Merged(rows, dates, buyerPoints, supplierPoints, groupWide)
  {
    rows := [];
    ghost var bought, supplied := BuyerDates(buyerPoints), SupplierDates(supplierPoints);
    var buyerIndex: nat, supplierIndex: nat := 0, 0;
    var k := 0;
    while k < |dates|
      invariant 0 <= k <= |dates|
      invariant Merged(rows, dates[..k], buyerPoints, supplierPoints, groupWide)
      invariant buyerIndex == if k == 0 then 0 else Passed(bought, dates[k - 1])
      invariant supplierIndex == if k == 0 then 0 else Passed(supplied, dates[k - 1])
    {
      if k > 0 {
        PassedGrows(bought, dates[k - 1], dates[k]);
        PassedGrows(supplied, dates[k - 1], dates[k]);
      }
      var row;
      row, buyerIndex, supplierIndex := SweepRow(dates[k], buyerPoints, supplierPoints, groupWide, buyerIndex,
          supplierIndex);
      MergedStep(rows, dates, k, buyerPoints, supplierPoints, groupWide);
      rows := rows + [row];
      k := k + 1;
    }
    assert dates[..k] == dates;
  }

  method CombinedExposurePoints(buyerPoints: seq<BuyerPoint>, supplierPoints: seq<SupplierPoint>, groupWide: bool)
    returns (rows: seq<Combined>)
    ensures buyerPoints == [] || supplierPoints == [] ==> rows == []
    ensures buyerPoints != [] && supplierPoints != [] ==>
              Merged(rows, DistinctDates(BuyerDates(buyerPoints) + SupplierDates(supplierPoints)), buyerPoints,
                  supplierPoints, groupWide)
  {
    if buyerPoints == [] || supplierPoints == [] {
      return [];
    }
    var dates := BuyerDates(buyerPoints) + SupplierDates(supplierPoints);
    DistinctDatesOrder(dates);
    rows := Sweep(DistinctDates(dates), buyerPoints, supplierPoints, groupWide);
  }

  // ----- the lookup it refines -----

  /** Position `n - 1` is the last point dated at or before `d`; 0 says that there is none. */
  ghost predicate LastAtOrBefore(dates: seq<int>, d: int, n: nat) {
    && n <= |dates|
    && (n > 0 ==> dates[n - 1] <= d)
    && (forall i :: n <= i < |dates| ==> dates[i] > d)
  }

  /** On an ordered series the sweep stands at the last point at or before the date. */
  lemma {:induction false} PassedIsLast(dates: seq<int>, d: int)
    requires Ordered(dates)
    ensures LastAtOrBefore(dates, d, Passed(dates, d))
  {
    var n := Passed(dates, d);
    assert forall i :: n < i < |dates| ==> dates[n] <= dates[i];
  }

  /** It stands there at every date of the series exactly when the series is ordered. */
  lemma {:induction false} SweepIsLookupIffOrdered(dates: seq<int>)
    ensures (forall d :: d in dates ==> LastAtOrBefore(dates, d, Passed(dates, d))) <==> Ordered(dates)
  {
    if Ordered(dates) {
      forall d | d in dates ensures LastAtOrBefore(dates, d, Passed(dates, d)) {
        PassedIsLast(dates, d);
      }
    }
    if forall d :: d in dates ==> LastAtOrBefore(dates, d, Passed(dates, d)) {
      forall i, j | 0 <= i < j < |dates| ensures dates[i] <= dates[j] {
        var d := dates[j];
        assert d in dates;
        assert LastAtOrBefore(dates, d, Passed(dates, d));
        assert j < Passed(dates, d);
      }
    }
  }

  /** For ordered inputs every merged row holds, on each side, the value of the last point at or
      before its date, none if there is no such point, and the net exactly when both exist. */
  lemma MergeRefinesLookup(buyer: seq<BuyerPoint>, supplier: seq<SupplierPoint>, groupWide: bool, d: int, m: nat,
                           n: nat)
    requires Ordered(BuyerDates(buyer)) && Ordered(SupplierDates(supplier))
    requires LastAtOrBefore(BuyerDates(buyer), d, m) && LastAtOrBefore(SupplierDates(supplier), d, n)
    ensures var row := RowAt(buyer, supplier, groupWide, d);
            && row.buyer == (if m == 0 then None else if groupWide then buyer[m - 1].groupWide
                else buyer[m - 1].individual)
            && row.supplier == (if n == 0 then None else Some(supplier[n - 1].remaining))
            && row.events == (if m == 0 then [] else buyer[m - 1].events)
            && (row.net.Some? <==> row.buyer.Some? && row.supplier.Some?)
            && (row.net.Some? ==> row.net.value == row.buyer.value - row.supplier.value)
  {
    LastIsUnique(BuyerDates(buyer), d, m);
    LastIsUnique(SupplierDates(supplier), d, n);
  }

  lemma {:induction false} LastIsUnique(dates: seq<int>, d: int, n: nat)
    requires Ordered(dates) && LastAtOrBefore(dates, d, n)
    ensures n == Passed(dates, d)
  {
    assert forall i :: 0 <= i < n ==> dates[i] <= dates[n - 1];
    PassedUnique(dates, d, n);
  }

  /** Every date of either series has one row, in ascending order, and no other date has one. */
  lemma RowsCoverDates(buyer: seq<BuyerPoint>, supplier: seq<SupplierPoint>)
    ensures var dates := DistinctDates(BuyerDates(buyer) + SupplierDates(supplier));
            && Ascending(dates)
            && (forall d :: d in dates <==>
                  || (exists i :: 0 <= i < |buyer| && buyer[i].date == d)
                  || (exists i :: 0 <= i < |supplier| && supplier[i].date == d))
  {
    var bought, supplied := BuyerDates(buyer), SupplierDates(supplier);
    DistinctDatesOrder(bought + supplied);
    forall i | 0 <= i < |buyer| ensures buyer[i].date in bought + supplied {
      assert bought[i] in bought;
    }
    forall i | 0 <= i < |supplier| ensures supplier[i].date in bought + supplied {
      assert supplied[i] in supplied;
    }
    assert forall d :: d in bought + supplied <==> d in bought || d in supplied;
  }
}
