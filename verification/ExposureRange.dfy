/** The quantity range of a STEM's exposure. Orders with a quantity range are priced at their minimum,
    midpoint and maximum quantity; the differences are applied to the exposure that Salesforce holds. */
module ExposureRange {
  import opened Money
  import opened Options

  datatype Quantity = Quantity(delivered: Option<real>, ordered: Option<real>, isRange: bool, maximum: Option<real>)

  datatype LineItem = LineItem(cancelled: bool, quantity: Quantity, unitPrices: seq<Option<real>>)

  datatype ExtraCost = ExtraCost(
    cancelled: bool, fixed: bool, fixedAmounts: seq<Option<real>>, unitPrice: Option<real>,
    quantity: Quantity, minimumSell: Option<real>)

  /** Three quantities or three amounts. */
  datatype Scenario = Scenario(minimum: real, midpoint: real, maximum: real)

  datatype Range =
    | Incomplete(exposure: Option<real>, hasRange: bool)
    | Complete(minimum: real, midpoint: real, maximum: real, maximumDelta: real, hasRange: bool)

  /** Delivered quantities are facts, range orders lie between order and maximum, others are firm. */
  function QuantityScenario(q: Quantity): Option<Scenario> {
    if q.delivered.Some? && Abs(q.delivered.value) > 0.005 then
      Some(Scenario(q.delivered.value, q.delivered.value, q.delivered.value))
    else if q.isRange then
      if q.ordered.None? || q.maximum.None? || q.maximum.value < q.ordered.value then None
      else Some(Scenario(q.ordered.value, q.ordered.value + (q.maximum.value - q.ordered.value) / 2.0, q.maximum.value))
    else if q.ordered.None? then None
    else Some(Scenario(q.ordered.value, q.ordered.value, q.ordered.value))
  }

  function Price(quantity: real, unitPrice: real): real {
    quantity * unitPrice
  }

  function Amount(quantity: real, unitPrice: real, minimumAmount: Option<real>): real {
    var calculated := Price(quantity, unitPrice);
    if minimumAmount.None? then calculated else Max(minimumAmount.value, calculated)
  }

  function ScenarioAmounts(q: Scenario, unitPrice: real, minimumAmount: Option<real>): Scenario {
    Scenario(Amount(q.minimum, unitPrice, minimumAmount), Amount(q.midpoint, unitPrice, minimumAmount),
             Amount(q.maximum, unitPrice, minimumAmount))
  }

  function LineAmounts(item: LineItem): Option<Scenario> {
    var quantity, unitPrice := QuantityScenario(item.quantity), FirstSome(item.unitPrices);
    if quantity.None? || unitPrice.None? then None else Some(ScenarioAmounts(quantity.value, unitPrice.value, None))
  }

  function ExtraAmounts(item: ExtraCost): Option<Scenario> {
    if item.fixed || item.unitPrice.None? then
      var amount := FirstSome(item.fixedAmounts);
      if amount.None? then None else Some(Scenario(amount.value, amount.value, amount.value))
    else
      var quantity := QuantityScenario(item.quantity);
      if quantity.None? then None else Some(ScenarioAmounts(quantity.value, item.unitPrice.value, item.minimumSell))
  }

  function Plus(a: Scenario, b: Scenario): Scenario {
    Scenario(a.minimum + b.minimum, a.midpoint + b.midpoint, a.maximum + b.maximum)
  }

  const ZERO := Scenario(0.0, 0.0, 0.0)

  /** The totals over the rows that are not cancelled; none if one of them cannot be priced. */
  function LineTotals(items: seq<LineItem>): Option<Scenario> {
    if items == [] then Some(ZERO)
    else
      var item, before := items[|items| - 1], LineTotals(items[..|items| - 1]);
      if item.cancelled then before
      else if before.None? || LineAmounts(item).None? then None
      else Some(Plus(before.value, LineAmounts(item).value))
  }

  function ExtraTotals(items: seq<ExtraCost>): Option<Scenario> {
    if items == [] then Some(ZERO)
    else
      var item, before := items[|items| - 1], ExtraTotals(items[..|items| - 1]);
      if item.cancelled then before
      else if before.None? || ExtraAmounts(item).None? then None
      else Some(Plus(before.value, ExtraAmounts(item).value))
  }

  predicate IsRangeQuantity(q: Quantity) {
    var scenario := QuantityScenario(q);
    scenario.Some? && scenario.value.minimum < scenario.value.maximum
  }

  predicate LineIsRange(item: LineItem) {
    !item.cancelled && LineAmounts(item).Some? && IsRangeQuantity(item.quantity)
  }

  predicate ExtraIsRange(item: ExtraCost) {
    !item.cancelled && !item.fixed && item.unitPrice.Some? && IsRangeQuantity(item.quantity)
  }

  /** Some row that can be priced has a quantity range. */
  predicate AnyRange(lines: seq<LineItem>, extras: seq<ExtraCost>) {
    AnyLineRange(lines) || AnyExtraRange(extras)
  }

  predicate AnyActive(lines: seq<LineItem>, extras: seq<ExtraCost>) {
    || (exists k :: 0 <= k < |lines| && !lines[k].cancelled)
    || (exists k :: 0 <= k < |extras| && !extras[k].cancelled)
  }

  /** Some row is active and every active row can be priced. */
  predicate Priced(lines: seq<LineItem>, extras: seq<ExtraCost>) {
    AnyActive(lines, extras) && LineTotals(lines).Some? && ExtraTotals(extras).Some?
  }

  function Totals(lines: seq<LineItem>, extras: seq<ExtraCost>): Scenario
    requires LineTotals(lines).Some? && ExtraTotals(extras).Some?
  {
    Plus(LineTotals(lines).value, ExtraTotals(extras).value)
  }

  function Around(exposure: real, totals: Scenario, hasRange: bool): Range {
    var offset := exposure - totals.midpoint;
    var maximum := Round2(offset + totals.maximum);
    Complete(Round2(offset + totals.minimum), Round2(exposure), maximum, Round2(maximum - exposure), hasRange)
  }

  predicate AnyLineRange(lines: seq<LineItem>) {
    exists k :: 0 <= k < |lines| && LineIsRange(lines[k])
  }

  predicate AnyExtraRange(extras: seq<ExtraCost>) {
    exists k :: 0 <= k < |extras| && ExtraIsRange(extras[k])
  }

  lemma LineRangeStep(lines: seq<LineItem>, k: nat)
    requires k < |lines|
    ensures AnyLineRange(lines[..k + 1]) <==> AnyLineRange(lines[..k]) || LineIsRange(lines[k])
  {
  }

  lemma ExtraRangeStep(extras: seq<ExtraCost>, k: nat)
    requires k < |extras|
    ensures AnyExtraRange(extras[..k + 1]) <==> AnyExtraRange(extras[..k]) || ExtraIsRange(extras[k])
  {
  }

  /** What the loops below compute; the section on the fields of a row says what it comes to. */
  function RangeOf(lines: seq<LineItem>, extras: seq<ExtraCost>, exposure: Option<real>, complete: bool): Range {
    if complete && exposure.Some? && Priced(lines, extras)
    then Around(exposure.value, Totals(lines, extras), AnyRange(lines, extras))
    else Incomplete(exposure, complete && exposure.Some? && AnyActive(lines, extras) && AnyRange(lines, extras))
  }

  method AddLineItems(lineItems: seq<LineItem>) returns (totals: Scenario, missingInput: bool, hasRange: bool)
    ensures missingInput <==> LineTotals(lineItems).None?
    ensures !missingInput ==> LineTotals(lineItems) == Some(totals)
    ensures hasRange <==> AnyLineRange(lineItems)
  {
    totals, missingInput, hasRange := ZERO, false, false;
    var k := 0;
    while k < |lineItems|
      invariant 0 <= k <= |lineItems|
      invariant missingInput <==> LineTotals(lineItems[..k]).None?
      invariant !missingInput ==> LineTotals(lineItems[..k]) == Some(totals)
      invariant hasRange <==> AnyLineRange(lineItems[..k])
    {
      var item := lineItems[k];
      assert lineItems[..k + 1][..k] == lineItems[..k];
      LineRangeStep(lineItems, k);
      if !item.cancelled {
        var quantity, unitPrice := QuantityScenario(item.quantity), FirstSome(item.unitPrices);
        if quantity.None? || unitPrice.None? {
          missingInput := true;
        } else {
          totals := Plus(totals, ScenarioAmounts(quantity.value, unitPrice.value, None));
          hasRange := hasRange || IsRangeQuantity(item.quantity);
        }
      }
      k := k + 1;
    }
    assert lineItems[..k] == lineItems;
  }

  method AddExtraCosts(extraCosts: seq<ExtraCost>, lines: Scenario, linesMissing: bool, linesRange: bool)
    returns (totals: Scenario, missingInput: bool, hasRange: bool)
    ensures missingInput <==> linesMissing || ExtraTotals(extraCosts).None?
    ensures !missingInput ==> totals == Plus(lines, ExtraTotals(extraCosts).value)
    ensures hasRange <==> linesRange || AnyExtraRange(extraCosts)
  {
    totals, missingInput, hasRange := lines, linesMissing, linesRange;
    var k := 0;
    while k < |extraCosts|
      invariant 0 <= k <= |extraCosts|
      invariant missingInput <==> linesMissing || ExtraTotals(extraCosts[..k]).None?
      invariant !missingInput ==> totals == Plus(lines, ExtraTotals(extraCosts[..k]).value)
      invariant hasRange <==> linesRange || AnyExtraRange(extraCosts[..k])
    {
      var item := extraCosts[k];
      assert extraCosts[..k + 1][..k] == extraCosts[..k];
      ExtraRangeStep(extraCosts, k);
      if !item.cancelled {
        if item.fixed || item.unitPrice.None? {
          var amount := FirstSome(item.fixedAmounts);
          if amount.None? {
            missingInput := true;
          } else {
            totals := Plus(totals, Scenario(amount.value, amount.value, amount.value));
          }
        } else {
          var quantity := QuantityScenario(item.quantity);
          if quantity.None? {
            missingInput := true;
          } else {
            totals := Plus(totals, ScenarioAmounts(quantity.value, item.unitPrice.value, item.minimumSell));
            hasRange := hasRange || IsRangeQuantity(item.quantity);
          }
        }
      }
      k := k + 1;
    }
    assert extraCosts[..k] == extraCosts;
  }

  method BuildBuyerExposureRange(lineItems: seq<LineItem>, extraCosts: seq<ExtraCost>, currentExposure: Option<real>,
                                 complete: bool)
    returns (range: Range)
    ensures range == RangeOf(lineItems, extraCosts, currentExposure, complete)
  {
    if !complete || currentExposure.None? || !AnyActive(lineItems, extraCosts) {
      return Incomplete(currentExposure, false);
    }
    var totals, missingInput, hasRange := AddLineItems(lineItems);
    totals, missingInput, hasRange := AddExtraCosts(extraCosts, totals, missingInput, hasRange);
    if missingInput {
      return Incomplete(currentExposure, hasRange);
    }
    return Around(currentExposure.value, totals, hasRange);
  }

  // ----- the band -----

  predicate Ordered(s: Scenario) {
    s.minimum <= s.midpoint <= s.maximum
  }

  lemma QuantitiesOrdered(q: Quantity)
    requires QuantityScenario(q).Some?
    ensures Ordered(QuantityScenario(q).value)
  {
  }

  lemma PriceMonotone(a: real, b: real, unitPrice: real)
    requires a <= b && unitPrice >= 0.0
    ensures Price(a, unitPrice) <= Price(b, unitPrice)
  {
  }

  lemma AmountMonotone(a: real, b: real, unitPrice: real, minimumAmount: Option<real>)
    requires a <= b && unitPrice >= 0.0
    ensures Amount(a, unitPrice, minimumAmount) <= Amount(b, unitPrice, minimumAmount)
  {
    PriceMonotone(a, b, unitPrice);
  }

  lemma ScenarioOrdered(q: Scenario, unitPrice: real, minimumAmount: Option<real>)
    requires Ordered(q) && unitPrice >= 0.0
    ensures Ordered(ScenarioAmounts(q, unitPrice, minimumAmount))
  {
    AmountMonotone(q.minimum, q.midpoint, unitPrice, minimumAmount);
    AmountMonotone(q.midpoint, q.maximum, unitPrice, minimumAmount);
  }

  /** No active row that is priced by quantity has a negative unit price. */
  predicate PricesNonNegative(lines: seq<LineItem>, extras: seq<ExtraCost>) {
    && (forall k :: 0 <= k < |lines| && !lines[k].cancelled && FirstSome(lines[k].unitPrices).Some? ==>
          FirstSome(lines[k].unitPrices).value >= 0.0)
    && (forall k :: 0 <= k < |extras| && !extras[k].cancelled && !extras[k].fixed && extras[k].unitPrice.Some? ==>
          extras[k].unitPrice.value >= 0.0)
  }

  lemma {:induction false} LineTotalsOrdered(lines: seq<LineItem>)
    requires PricesNonNegative(lines, []) && LineTotals(lines).Some?
    ensures Ordered(LineTotals(lines).value)
  {
    if lines != [] {
      var item, before := lines[|lines| - 1], lines[..|lines| - 1];
      LineTotalsOrdered(before);
      if !item.cancelled {
        QuantitiesOrdered(item.quantity);
        ScenarioOrdered(QuantityScenario(item.quantity).value, FirstSome(item.unitPrices).value, None);
      }
    }
  }

  lemma {:induction false} ExtraTotalsOrdered(extras: seq<ExtraCost>)
    requires PricesNonNegative([], extras) && ExtraTotals(extras).Some?
    ensures Ordered(ExtraTotals(extras).value)
  {
    if extras != [] {
      var item, before := extras[|extras| - 1], extras[..|extras| - 1];
      ExtraTotalsOrdered(before);
      if !item.cancelled && !item.fixed && item.unitPrice.Some? {
        QuantitiesOrdered(item.quantity);
        ScenarioOrdered(QuantityScenario(item.quantity).value, item.unitPrice.value, item.minimumSell);
      }
    }
  }

  lemma AroundEncloses(exposure: real, totals: Scenario, hasRange: bool)
    requires Ordered(totals)
    ensures Encloses(Around(exposure, totals, hasRange), exposure)
  {
    var offset := exposure - totals.midpoint;
    RoundedBand(offset + totals.minimum, exposure, offset + totals.maximum);
    Round2IsCents(offset + totals.minimum);
    Round2IsCents(offset + totals.maximum);
  }

  /** The band is in order and encloses the exposure up to the rounding of half a cent, exactly if
      the exposure is in whole cents. */
  predicate Encloses(r: Range, exposure: real) {
    && r.Complete?
    && r.minimum <= r.midpoint <= r.maximum
    && r.minimum <= exposure + 0.005 && exposure - 0.005 <= r.maximum
    && (IsCents(exposure) ==> r.minimum <= exposure <= r.maximum)
    && IsCents(r.minimum) && IsCents(r.maximum)
  }

  /** With no negative unit price the band never inverts. */
  lemma {:induction false} BandEncloses(lines: seq<LineItem>, extras: seq<ExtraCost>, exposure: real, hasRange: bool)
    requires PricesNonNegative(lines, extras)
    requires LineTotals(lines).Some? && ExtraTotals(extras).Some?
    ensures Encloses(Around(exposure, Totals(lines, extras), hasRange), exposure)
  {
    LineTotalsOrdered(lines);
    ExtraTotalsOrdered(extras);
    AroundEncloses(exposure, Totals(lines, extras), hasRange);
  }

  lemma RoundedBand(low: real, middle: real, high: real)
    requires low <= middle <= high
    ensures Round2(low) <= Round2(middle) <= Round2(high)
    ensures Round2(low) <= middle + 0.005 && middle - 0.005 <= Round2(high)
    ensures IsCents(middle) ==> Round2(low) <= middle <= Round2(high)
  {
    Round2Monotone(low, middle);
    Round2Monotone(middle, high);
    Round2Near(middle);
    if IsCents(middle) {
      Round2Exact(middle);
    }
  }

  // ----- when the band inverts -----

  /** The midpoint of every quantity is halfway. */
  predicate Centred(q: Scenario) {
    q.minimum <= q.maximum && q.midpoint - q.minimum == q.maximum - q.midpoint
  }

  lemma QuantitiesCentred(q: Quantity)
    requires QuantityScenario(q).Some?
    ensures Centred(QuantityScenario(q).value)
  {
  }

  /** How much more the maximum quantity of a row costs than its minimum. */
  function Span(q: Scenario, unitPrice: real): real {
    Price(q.maximum, unitPrice) - Price(q.minimum, unitPrice)
  }

  lemma PriceCentred(q: Scenario, unitPrice: real)
    requires Centred(q)
    ensures Price(q.midpoint, unitPrice) - Price(q.minimum, unitPrice) == Span(q, unitPrice) / 2.0
    ensures Price(q.maximum, unitPrice) - Price(q.midpoint, unitPrice) == Span(q, unitPrice) / 2.0
  {
    var half := q.midpoint - q.minimum;
    assert q.midpoint == q.minimum + half && q.maximum == q.minimum + half + half;
    PriceAdds(q.minimum, half, unitPrice);
    PriceAdds(q.minimum + half, half, unitPrice);
  }

  lemma PriceAdds(a: real, b: real, unitPrice: real)
    ensures Price(a + b, unitPrice) == Price(a, unitPrice) + Price(b, unitPrice)
  {
  }

  /** The spans of all active order lines together. */
  function NetWidth(lines: seq<LineItem>): real {
    if lines == [] then 0.0
    else
      var item, before := lines[|lines| - 1], NetWidth(lines[..|lines| - 1]);
      if item.cancelled || LineAmounts(item).None? then before
      else before + Span(QuantityScenario(item.quantity).value, FirstSome(item.unitPrices).value)
  }

  /** Either half of the band of the order lines is half their net width. */
  lemma {:induction false} LineHalves(lines: seq<LineItem>)
    requires LineTotals(lines).Some?
    ensures var t := LineTotals(lines).value;
            t.midpoint - t.minimum == NetWidth(lines) / 2.0 && t.maximum - t.midpoint == NetWidth(lines) / 2.0
  {
    if lines != [] {
      var item, before := lines[|lines| - 1], lines[..|lines| - 1];
      LineHalves(before);
      if !item.cancelled {
        QuantitiesCentred(item.quantity);
        PriceCentred(QuantityScenario(item.quantity).value, FirstSome(item.unitPrices).value);
      }
    }
  }

  /** Order lines keep their band in order exactly if their net width is not negative: a negative price
      on a firm quantity does not matter, and another line may outweigh one on a range. */
  lemma {:induction false} LinesOrderedIff(lines: seq<LineItem>)
    requires LineTotals(lines).Some?
    ensures Ordered(LineTotals(lines).value) <==> NetWidth(lines) >= 0.0
  {
    LineHalves(lines);
  }

  lemma NegativePriceFalls(a: real, b: real, unitPrice: real)
    requires a < b && unitPrice < 0.0
    ensures Price(a, unitPrice) > Price(b, unitPrice)
  {
  }

  /** One row with a minimum charge keeps its amounts in order exactly if its price is not negative,
      its quantity is firm, or the minimum charge covers the whole range. */
  lemma ChargedRowOrderedIff(q: Scenario, unitPrice: real, minimumAmount: Option<real>)
    requires Centred(q)
    ensures Ordered(ScenarioAmounts(q, unitPrice, minimumAmount)) <==>
            || unitPrice >= 0.0
            || q.minimum == q.maximum
            || (minimumAmount.Some? && Price(q.minimum, unitPrice) <= minimumAmount.value)
  {
    if unitPrice >= 0.0 {
      ScenarioOrdered(q, unitPrice, minimumAmount);
    } else if q.minimum < q.maximum {
      NegativePriceFalls(q.minimum, q.midpoint, unitPrice);
      NegativePriceFalls(q.midpoint, q.maximum, unitPrice);
    }
  }

  /** The lower and the upper half of the band that the active extra costs add. */
  function ExtraBelow(extras: seq<ExtraCost>): real {
    if extras == [] then 0.0
    else
      var item, before := extras[|extras| - 1], ExtraBelow(extras[..|extras| - 1]);
      if item.cancelled || ExtraAmounts(item).None? then before
      else before + ExtraAmounts(item).value.midpoint - ExtraAmounts(item).value.minimum
  }

  function ExtraAbove(extras: seq<ExtraCost>): real {
    if extras == [] then 0.0
    else
      var item, before := extras[|extras| - 1], ExtraAbove(extras[..|extras| - 1]);
      if item.cancelled || ExtraAmounts(item).None? then before
      else before + ExtraAmounts(item).value.maximum - ExtraAmounts(item).value.midpoint
  }

  function Below(lines: seq<LineItem>, extras: seq<ExtraCost>): real {
    NetWidth(lines) / 2.0 + ExtraBelow(extras)
  }

  function Above(lines: seq<LineItem>, extras: seq<ExtraCost>): real {
    NetWidth(lines) / 2.0 + ExtraAbove(extras)
  }

  lemma {:induction false} ExtraHalves(extras: seq<ExtraCost>)
    requires ExtraTotals(extras).Some?
    ensures var t := ExtraTotals(extras).value;
            t.midpoint - t.minimum == ExtraBelow(extras) && t.maximum - t.midpoint == ExtraAbove(extras)
  {
    if extras != [] {
      ExtraHalves(extras[..|extras| - 1]);
    }
  }

  lemma {:induction false} TotalHalves(lines: seq<LineItem>, extras: seq<ExtraCost>)
    requires LineTotals(lines).Some? && ExtraTotals(extras).Some?
    ensures var t := Totals(lines, extras);
            t.midpoint - t.minimum == Below(lines, extras) && t.maximum - t.midpoint == Above(lines, extras)
  {
    LineHalves(lines);
    ExtraHalves(extras);
  }

  predicate InOrder(r: Range) {
    r.Complete? && r.minimum <= r.midpoint <= r.maximum
  }

  lemma RoundedHalves(exposure: real, below: real, above: real)
    requires IsCents(exposure)
    ensures Round2(exposure - below) <= exposure <==> below > -0.005
    ensures exposure <= Round2(exposure + above) <==> above >= -0.005
  {
    var n := (100.0 * exposure).Floor;
    assert (100.0 * (exposure - below) + 0.5).Floor <= n <==> 100.0 * (exposure - below) + 0.5 < n as real + 1.0;
    assert n <= (100.0 * (exposure + above) + 0.5).Floor <==> n as real <= 100.0 * (exposure + above) + 0.5;
  }

  /** The band around an exposure in whole cents is in order exactly if neither half of what the rows
      add is negative, up to half a cent that the rounding hides. */
  lemma {:induction false} BandOrderedIff(lines: seq<LineItem>, extras: seq<ExtraCost>, exposure: real, hasRange: bool)
    requires LineTotals(lines).Some? && ExtraTotals(extras).Some? && IsCents(exposure)
    ensures InOrder(Around(exposure, Totals(lines, extras), hasRange)) <==> KeepsOrder(lines, extras)
    ensures KeepsOrder(lines, extras) ==> Around(exposure, Totals(lines, extras), hasRange).midpoint == exposure
  {
    var t := Totals(lines, extras);
    TotalHalves(lines, extras);
    Round2Exact(exposure);
    RoundedHalves(exposure, Below(lines, extras), Above(lines, extras));
    assert exposure - t.midpoint + t.minimum == exposure - Below(lines, extras);
    assert exposure - t.midpoint + t.maximum == exposure + Above(lines, extras);
  }

  predicate KeepsOrder(lines: seq<LineItem>, extras: seq<ExtraCost>) {
    Below(lines, extras) > -0.005 && Above(lines, extras) >= -0.005
  }

  lemma AroundOrder(exposure: real, t: Scenario, hasRange: bool, below: real, above: real)
    requires t.midpoint - t.minimum == below && t.maximum - t.midpoint == above
    ensures below >= 0.0 && above >= 0.0 ==> InOrder(Around(exposure, t, hasRange))
    ensures InOrder(Around(exposure, t, hasRange)) ==> below > -0.01 && above > -0.01
  {
    var low, high := exposure - below, exposure + above;
    assert exposure - t.midpoint + t.minimum == low && exposure - t.midpoint + t.maximum == high;
    RoundedOrder(low, exposure, high);
  }

  /** For any exposure: halves that are not negative keep the band in order, and a band in order has no
      half as low as minus one cent. */
  lemma {:induction false} BandOrderBounds(lines: seq<LineItem>, extras: seq<ExtraCost>, exposure: real, hasRange: bool)
    requires LineTotals(lines).Some? && ExtraTotals(extras).Some?
    ensures var r := Around(exposure, Totals(lines, extras), hasRange);
            && (Below(lines, extras) >= 0.0 && Above(lines, extras) >= 0.0 ==> InOrder(r))
            && (InOrder(r) ==> Below(lines, extras) > -0.01 && Above(lines, extras) > -0.01)
  {
    TotalHalves(lines, extras);
    AroundOrder(exposure, Totals(lines, extras), hasRange, Below(lines, extras), Above(lines, extras));
  }

  lemma RoundedOrder(low: real, middle: real, high: real)
    ensures low <= middle <= high ==> Round2(low) <= Round2(middle) <= Round2(high)
    ensures Round2(low) <= Round2(middle) <= Round2(high) ==> low < middle + 0.01 && middle < high + 0.01
  {
    if low <= middle <= high {
      Round2Monotone(low, middle);
      Round2Monotone(middle, high);
    }
    RoundedApart(middle, low);
    RoundedApart(high, middle);
  }

  lemma RoundedApart(a: real, b: real)
    ensures a + 0.01 <= b ==> Round2(a) < Round2(b)
  {
    if a + 0.01 <= b {
      assert 100.0 * b + 0.5 >= 100.0 * a + 0.5 + 1.0;
      assert (100.0 * b + 0.5).Floor > (100.0 * a + 0.5).Floor;
    }
  }

  lemma {:induction false} NonNegativeKeepsOrder(lines: seq<LineItem>, extras: seq<ExtraCost>)
    requires PricesNonNegative(lines, extras)
    requires LineTotals(lines).Some? && ExtraTotals(extras).Some?
    ensures KeepsOrder(lines, extras)
  {
    LineTotalsOrdered(lines);
    ExtraTotalsOrdered(extras);
    TotalHalves(lines, extras);
  }

  /** The smallest example of a band turned around: ten to twenty units at minus one. */
  lemma NegativePriceInverts()
    ensures var line := LineItem(false, Quantity(None, Some(10.0), true, Some(20.0)), [Some(-1.0)]);
            && LineTotals([line]).Some? && ExtraTotals([]).Some?
            && var r := Around(0.0, Totals([line], []), true);
               r.maximum < r.midpoint < r.minimum
  {
    var line := LineItem(false, Quantity(None, Some(10.0), true, Some(20.0)), [Some(-1.0)]);
    assert [line][..0] == [];
    assert LineTotals([line]) == Some(Scenario(-10.0, -15.0, -20.0));
    Round2Exact(5.0);
    Round2Exact(0.0);
    Round2Exact(-5.0);
  }

  // ----- in terms of the fields of the rows -----

  /** A delivered quantity of more than 0.005 is a fact. */
  predicate Delivered(q: Quantity) {
    q.delivered.Some? && (q.delivered.value > 0.005 || q.delivered.value < -0.005)
  }

  /** The quantity is `n`: delivered, or ordered without a range or with an empty one. */
  predicate IsFirm(q: Quantity, n: real) {
    if Delivered(q) then q.delivered.value == n
    else q.ordered == Some(n) && (q.isRange ==> q.maximum == Some(n))
  }

  /** The quantity lies anywhere between order and maximum. */
  predicate Spreads(q: Quantity) {
    && !Delivered(q) && q.isRange
    && q.ordered.Some? && q.maximum.Some? && q.ordered.value < q.maximum.value
  }

  /** There is a quantity: delivered, or ordered and not above its maximum. */
  predicate HasQuantity(q: Quantity) {
    || Delivered(q)
    || (q.ordered.Some? && (q.isRange ==> q.maximum.Some? && q.ordered.value <= q.maximum.value))
  }

  /** The quantities of a row: the firm one three times, or the ends and the middle of its range. */
  predicate AreQuantities(q: Quantity, s: Scenario) {
    || (IsFirm(q, s.midpoint) && s.minimum == s.midpoint == s.maximum)
    || (Spreads(q) && q.ordered.value == s.minimum && q.maximum.value == s.maximum
        && s.midpoint == (s.minimum + s.maximum) / 2.0)
  }

  lemma QuantitiesAre(q: Quantity, s: Scenario)
    ensures AreQuantities(q, s) <==> QuantityScenario(q) == Some(s)
  {
  }

  /** The amount, or the minimum charge if that is more. */
  function Charged(amount: real, minimumSell: Option<real>): real {
    if minimumSell.Some? && minimumSell.value > amount then minimumSell.value else amount
  }

  lemma AmountIs(quantity: real, unitPrice: real, minimumSell: Option<real>)
    ensures Amount(quantity, unitPrice, minimumSell) == Charged(quantity * unitPrice, minimumSell)
    ensures Amount(quantity, unitPrice, None) == quantity * unitPrice
  {
  }

  lemma AmountsAre(q: Scenario, p: real, minimumSell: Option<real>)
    ensures ScenarioAmounts(q, p, minimumSell)
         == Scenario(Charged(q.minimum * p, minimumSell), Charged(q.midpoint * p, minimumSell),
                     Charged(q.maximum * p, minimumSell))
    ensures ScenarioAmounts(q, p, None) == Scenario(q.minimum * p, q.midpoint * p, q.maximum * p)
  {
    AmountIs(q.minimum, p, minimumSell);
    AmountIs(q.midpoint, p, minimumSell);
    AmountIs(q.maximum, p, minimumSell);
  }

  /** What an order line adds: its first price times its quantities, the delivered one if there is one, else
      what was ordered. */
  lemma {:induction false} LineAdds(lines: seq<LineItem>, line: LineItem, q: Scenario, p: real)
    requires LineTotals(lines).Some? && !line.cancelled && IsFirst(line.unitPrices, p)
    requires AreQuantities(line.quantity, q)
    ensures LineTotals(lines + [line])
         == Some(Plus(LineTotals(lines).value, Scenario(q.minimum * p, q.midpoint * p, q.maximum * p)))
  {
    assert (lines + [line])[..|lines|] == lines;
    FirstIs(line.unitPrices);
    QuantitiesAre(line.quantity, q);
    AmountsAre(q, p, None);
  }

  /** What an extra cost with a unit price adds: its price times its quantities, at least the minimum charge. */
  lemma {:induction false} ExtraAdds(extras: seq<ExtraCost>, extra: ExtraCost, q: Scenario, p: real)
    requires ExtraTotals(extras).Some? && !extra.cancelled && !extra.fixed && extra.unitPrice == Some(p)
    requires AreQuantities(extra.quantity, q)
    ensures ExtraTotals(extras + [extra])
         == Some(Plus(ExtraTotals(extras).value,
                      Scenario(Charged(q.minimum * p, extra.minimumSell), Charged(q.midpoint * p, extra.minimumSell),
                               Charged(q.maximum * p, extra.minimumSell))))
  {
    assert (extras + [extra])[..|extras|] == extras;
    QuantitiesAre(extra.quantity, q);
    AmountsAre(q, p, extra.minimumSell);
  }

  /** A fixed one, or one without a unit price, adds its fixed amount. */
  lemma {:induction false} FixedAdds(extras: seq<ExtraCost>, extra: ExtraCost, amount: real)
    requires ExtraTotals(extras).Some? && !extra.cancelled && (extra.fixed || extra.unitPrice.None?)
    requires IsFirst(extra.fixedAmounts, amount)
    ensures ExtraTotals(extras + [extra]) == Some(Plus(ExtraTotals(extras).value, Scenario(amount, amount, amount)))
  {
    assert (extras + [extra])[..|extras|] == extras;
    FirstIs(extra.fixedAmounts);
  }

  lemma {:induction false} CancelledAdds(lines: seq<LineItem>, extras: seq<ExtraCost>, line: LineItem, extra: ExtraCost)
    requires line.cancelled && extra.cancelled
    ensures LineTotals(lines + [line]) == LineTotals(lines) && ExtraTotals(extras + [extra]) == ExtraTotals(extras)
  {
    assert (lines + [line])[..|lines|] == lines && (extras + [extra])[..|extras|] == extras;
  }

  /** Some active row that can be priced by quantity has a quantity that spreads. */
  predicate SomeRowSpreads(lines: seq<LineItem>, extras: seq<ExtraCost>) {
    || (exists k :: 0 <= k < |lines| && !lines[k].cancelled && Spreads(lines[k].quantity)
             && !NoValue(lines[k].unitPrices))
    || (exists k :: 0 <= k < |extras| && !extras[k].cancelled && Spreads(extras[k].quantity)
             && !extras[k].fixed && extras[k].unitPrice.Some?)
  }

  lemma RangeQuantityIs(q: Quantity)
    ensures IsRangeQuantity(q) <==> Spreads(q)
  {
  }

  lemma LineRangeIs(line: LineItem)
    ensures LineIsRange(line) <==> !line.cancelled && Spreads(line.quantity) && !NoValue(line.unitPrices)
  {
    RangeQuantityIs(line.quantity);
    FirstIs(line.unitPrices);
  }

  /** A band has a range exactly if some active row spreads: delivered quantities never do. */
  lemma HasRangeIff(lines: seq<LineItem>, extras: seq<ExtraCost>)
    ensures AnyRange(lines, extras) <==> SomeRowSpreads(lines, extras)
  {
    forall k | 0 <= k < |lines|
      ensures LineIsRange(lines[k]) <==>
              !lines[k].cancelled && Spreads(lines[k].quantity) && !NoValue(lines[k].unitPrices)
    {
      LineRangeIs(lines[k]);
    }
    forall k | 0 <= k < |extras| ensures IsRangeQuantity(extras[k].quantity) <==> Spreads(extras[k].quantity) {
      RangeQuantityIs(extras[k].quantity);
    }
  }

  lemma {:induction false} FirmLines(lines: seq<LineItem>)
    requires LineTotals(lines).Some? && !AnyLineRange(lines)
    ensures var t := LineTotals(lines).value; t.minimum == t.midpoint == t.maximum
  {
    if lines != [] {
      var n := |lines| - 1;
      LineRangeStep(lines, n);
      assert lines[..n + 1] == lines;
      FirmLines(lines[..n]);
      if !lines[n].cancelled {
        QuantitiesCentred(lines[n].quantity);
      }
    }
  }

  lemma {:induction false} FirmExtras(extras: seq<ExtraCost>)
    requires ExtraTotals(extras).Some? && !AnyExtraRange(extras)
    ensures var t := ExtraTotals(extras).value; t.minimum == t.midpoint == t.maximum
  {
    if extras != [] {
      var n := |extras| - 1;
      ExtraRangeStep(extras, n);
      assert extras[..n + 1] == extras;
      FirmExtras(extras[..n]);
      if !extras[n].cancelled && !extras[n].fixed && extras[n].unitPrice.Some? {
        QuantitiesCentred(extras[n].quantity);
      }
    }
  }

  /** Where no active row spreads, the band is the rounded exposure, whatever the rows cost. */
  lemma FirmBandIsExposure(lines: seq<LineItem>, extras: seq<ExtraCost>, exposure: real)
    requires Priced(lines, extras) && !SomeRowSpreads(lines, extras)
    ensures var e := Round2(exposure);
            RangeOf(lines, extras, Some(exposure), true) == Complete(e, e, e, Round2(e - exposure), false)
  {
    HasRangeIff(lines, extras);
    FirmLines(lines);
    FirmExtras(extras);
  }

  /** In particular where every quantity was delivered, whatever was ordered. */
  lemma DeliveredBandIsExposure(lines: seq<LineItem>, extras: seq<ExtraCost>, exposure: real)
    requires Priced(lines, extras)
    requires forall k :: 0 <= k < |lines| && !lines[k].cancelled ==> Delivered(lines[k].quantity)
    requires forall k :: 0 <= k < |extras| && !extras[k].cancelled ==> extras[k].fixed || Delivered(extras[k].quantity)
    ensures var e := Round2(exposure);
            RangeOf(lines, extras, Some(exposure), true) == Complete(e, e, e, Round2(e - exposure), false)
  {
    FirmBandIsExposure(lines, extras, exposure);
  }

  /** An active row can be priced: it has its price and its quantity, or its fixed amount. */
  predicate LineUsable(line: LineItem) {
    line.cancelled || (!NoValue(line.unitPrices) && HasQuantity(line.quantity))
  }

  predicate ExtraUsable(extra: ExtraCost) {
    || extra.cancelled
    || (if extra.fixed || extra.unitPrice.None? then !NoValue(extra.fixedAmounts)
        else HasQuantity(extra.quantity))
  }

  lemma QuantityUsable(q: Quantity)
    ensures QuantityScenario(q).Some? <==> HasQuantity(q)
  {
  }

  lemma {:induction false} LinesUsable(lines: seq<LineItem>)
    ensures LineTotals(lines).Some? <==> forall k :: 0 <= k < |lines| ==> LineUsable(lines[k])
  {
    if lines != [] {
      var n := |lines| - 1;
      LinesUsable(lines[..n]);
      QuantityUsable(lines[n].quantity);
      FirstIs(lines[n].unitPrices);
      assert forall k :: 0 <= k < n ==> lines[..n][k] == lines[k];
    }
  }

  lemma {:induction false} ExtrasUsable(extras: seq<ExtraCost>)
    ensures ExtraTotals(extras).Some? <==> forall k :: 0 <= k < |extras| ==> ExtraUsable(extras[k])
  {
    if extras != [] {
      var n := |extras| - 1;
      ExtrasUsable(extras[..n]);
      QuantityUsable(extras[n].quantity);
      FirstIs(extras[n].fixedAmounts);
      assert forall k :: 0 <= k < n ==> extras[..n][k] == extras[k];
    }
  }

  /** There is a band exactly if the input is complete, some row is active and every row is usable; the
      minimum lies the lower half below the exposure and the maximum the upper half above it. */
  lemma BandIs(lines: seq<LineItem>, extras: seq<ExtraCost>, exposure: Option<real>, complete: bool)
    ensures var r := RangeOf(lines, extras, exposure, complete);
            && (r.Complete? <==>
                  && complete && exposure.Some?
                  && ((exists k :: 0 <= k < |lines| && !lines[k].cancelled)
                      || (exists k :: 0 <= k < |extras| && !extras[k].cancelled))
                  && (forall k :: 0 <= k < |lines| ==> LineUsable(lines[k]))
                  && (forall k :: 0 <= k < |extras| ==> ExtraUsable(extras[k])))
            && (r.Complete? ==>
                  && r.minimum == Round2(exposure.value - Below(lines, extras))
                  && r.midpoint == Round2(exposure.value)
                  && r.maximum == Round2(exposure.value + Above(lines, extras))
                  && r.maximumDelta == Round2(r.maximum - exposure.value))
            && (r.hasRange <==> complete && exposure.Some? && SomeRowSpreads(lines, extras))
  {
    LinesUsable(lines);
    ExtrasUsable(extras);
    HasRangeIff(lines, extras);
    if Priced(lines, extras) && exposure.Some? {
      TotalHalves(lines, extras);
      var t := Totals(lines, extras);
      assert exposure.value - t.midpoint + t.minimum == exposure.value - Below(lines, extras);
      assert exposure.value - t.midpoint + t.maximum == exposure.value + Above(lines, extras);
    }
  }
}
