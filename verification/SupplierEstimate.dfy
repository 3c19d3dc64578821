/** The cost estimate of a supplier child without an invoice. Prices and quantities are exact numbers;
    the estimate is in whole cents. */
module SupplierEstimate {
  import opened Money
  import opened Options

  datatype Estimate = Ignored | Incomplete | Complete(amount: int)

  /** The evidence of one line item or extra cost. Absent numbers are none; `prices` and `fixed` are in the
      order in which they are looked at. */
  datatype Cost = Cost(
    cancelled: bool, invoiced: bool, ambiguous: bool, extraCost: bool,
    prices: seq<Option<real>>, fixed: seq<Option<real>>,
    delivered: Option<real>, isRange: bool, maximum: Option<real>, ordered: Option<real>, hasUnit: bool)

  const MONEY_TOLERANCE := 0.005

  /** `Math.round(amount * 100)`. */
  function Cents(amount: real): int {
    (100.0 * amount + 0.5).Floor
  }

  /** Delivered, else the maximum of a range, else ordered. */
  function SupplierQuantity(c: Cost): Option<real> {
    if c.delivered.Some? && c.delivered.value > 0.0 then c.delivered
    else if c.isRange && c.maximum.Some? then c.maximum
    else c.ordered
  }

  /** An extra cost falls back on its fixed amount without a unit price, or if that is nothing and the
      fixed amount is something. */
  predicate UsesFixed(c: Cost) {
    var price, fixed := FirstSome(c.prices), FirstSome(c.fixed);
    && c.extraCost
    && fixed.Some?
    && (price.None? || (Abs(price.value) <= MONEY_TOLERANCE && Abs(fixed.value) > MONEY_TOLERANCE))
  }

  function EstimateUninvoicedSupplierChild(c: Cost): Estimate {
    if c.cancelled then Ignored
    else if c.invoiced then Ignored
    else if c.ambiguous then Incomplete
    else if UsesFixed(c) then Complete(Cents(FirstSome(c.fixed).value))
    else
      var price, quantity := FirstSome(c.prices), SupplierQuantity(c);
      if price.None? then Incomplete
      else if quantity.None? then Incomplete
      else if !c.hasUnit then Incomplete
      else Complete(Cents(price.value * quantity.value))
  }

  lemma CentsNegativeIff(amount: real)
    ensures Cents(amount) < 0 <==> amount < -MONEY_TOLERANCE
  {
  }

  lemma {:induction false} FirstOf(values: seq<Option<real>>)
    ensures FirstSome(values).Some? ==> FirstSome(values) in values
  {
    if values != [] {
      FirstOf(values[1..]);
    }
  }

  /** What a complete estimate is the rounding of. */
  function Value(c: Cost): real
    requires EstimateUninvoicedSupplierChild(c).Complete?
  {
    if UsesFixed(c) then FirstSome(c.fixed).value else FirstSome(c.prices).value * SupplierQuantity(c).value
  }

  /** The estimate is negative exactly if the fixed amount, or price times quantity, is below minus half
      a cent. */
  lemma NegativeIff(c: Cost)
    requires EstimateUninvoicedSupplierChild(c).Complete?
    ensures EstimateUninvoicedSupplierChild(c).amount < 0 <==> Value(c) < -MONEY_TOLERANCE
  {
    CentsNegativeIff(Value(c));
  }

  predicate NotNegative(n: Option<real>) {
    n.Some? ==> n.value >= 0.0
  }

  ghost predicate NoneNegative(values: seq<Option<real>>) {
    forall k :: 0 <= k < |values| ==> NotNegative(values[k])
  }

  /** No price, no fixed amount and no quantity below zero. */
  ghost predicate PlainEvidence(c: Cost) {
    NoneNegative(c.prices) && NoneNegative(c.fixed) && NotNegative(c.maximum) && NotNegative(c.ordered)
  }

  lemma PlainEvidenceIsOwed(c: Cost)
    requires PlainEvidence(c) && EstimateUninvoicedSupplierChild(c).Complete?
    ensures EstimateUninvoicedSupplierChild(c).amount >= 0
  {
    FirstOf(c.prices);
    FirstOf(c.fixed);
    NegativeIff(c);
    if !UsesFixed(c) {
      ProductNotNegative(FirstSome(c.prices).value, SupplierQuantity(c).value);
    }
  }

  lemma ProductNotNegative(x: real, y: real)
    requires x >= 0.0 && y >= 0.0
    ensures x * y >= 0.0
  {
  }

  // ----- the estimate in terms of the evidence -----

  /** Neither cancelled nor invoiced, and of one supplier. */
  predicate IsOpen(c: Cost) {
    !c.cancelled && !c.invoiced && !c.ambiguous
  }

  /** The quantity is the delivered one if that is above zero, else the maximum of a range, else the ordered
      one. */
  predicate IsQuantity(c: Cost, q: real) {
    if c.delivered.Some? && c.delivered.value > 0.0 then c.delivered.value == q
    else if c.isRange && c.maximum.Some? then c.maximum.value == q
    else c.ordered == Some(q)
  }

  /** Whole cents nearest to the amount, half a cent up. */
  predicate IsNearest(cents: int, amount: real) {
    100.0 * amount - 0.5 < cents as real <= 100.0 * amount + 0.5
  }

  predicate IsNothing(amount: real) {
    -0.005 <= amount <= 0.005
  }

  lemma CentsAreNearest(amount: real)
    ensures IsNearest(Cents(amount), amount)
  {
  }

  /** An extra cost without a unit price, or with a price of nothing and a fixed amount, costs the fixed amount. */
  lemma FixedEstimate(c: Cost, fixed: real, price: Option<real>)
    requires IsOpen(c) && c.extraCost && IsFirst(c.fixed, fixed)
    requires if price.None? then NoValue(c.prices)
             else IsFirst(c.prices, price.value) && IsNothing(price.value) && !IsNothing(fixed)
    ensures EstimateUninvoicedSupplierChild(c).Complete?
            && IsNearest(EstimateUninvoicedSupplierChild(c).amount, fixed)
  {
    FirstIs(c.prices);
    FirstIs(c.fixed);
    CentsAreNearest(fixed);
  }

  /** Everything else that has a price, a quantity and a unit costs price times quantity. */
  lemma PricedEstimate(c: Cost, price: real, q: real)
    requires IsOpen(c) && c.hasUnit && IsFirst(c.prices, price) && IsQuantity(c, q)
    requires !c.extraCost || NoValue(c.fixed) || !IsNothing(price) || exists f :: IsFirst(c.fixed, f) && IsNothing(f)
    ensures EstimateUninvoicedSupplierChild(c).Complete?
            && IsNearest(EstimateUninvoicedSupplierChild(c).amount, price * q)
  {
    FirstIs(c.prices);
    FirstIs(c.fixed);
    CentsAreNearest(price * q);
  }

  /** A cancelled or invoiced cost is left out; any other without an estimate is of an ambiguous supplier or lacks
      price, quantity or unit. */
  lemma NoEstimateIff(c: Cost)
    ensures EstimateUninvoicedSupplierChild(c).Ignored? <==> c.cancelled || c.invoiced
    ensures EstimateUninvoicedSupplierChild(c).Incomplete? <==>
            && !c.cancelled && !c.invoiced
            && (c.ambiguous || (NoFixed(c) && (NoValue(c.prices) || !c.hasUnit || NoQuantity(c))))
  {
    FirstIs(c.prices);
    FirstIs(c.fixed);
  }

  predicate NoQuantity(c: Cost) {
    && c.ordered.None? && (c.delivered.None? || c.delivered.value <= 0.0)
    && (!c.isRange || c.maximum.None?)
  }

  /** The fixed amount does not decide. */
  ghost predicate NoFixed(c: Cost) {
    || !c.extraCost || NoValue(c.fixed)
    || exists p :: IsFirst(c.prices, p) && (!IsNothing(p) || exists f :: IsFirst(c.fixed, f) && IsNothing(f))
  }
}
