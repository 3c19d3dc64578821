/** How the revenue, the cost and the profit of a STEM are shared among its suppliers: what an item
    names a supplier for stays with that supplier, and the rest is split by weight. The sell and buy
    amounts of single items are inputs. */
module SupplierContribution {
  import opened Money
  import opened Options

  /** An order line or an extra cost; no supplier if it names none. */
  datatype Item = Item(cancelled: bool, supplier: Option<int>, sell: real, buy: real)

  datatype Entry = Entry(supplier: int, directRevenue: real, directCost: real)

  datatype Weighted = Weighted(entry: Entry, share: real)

  datatype Allocation = Allocation(supplier: int, share: real, revenue: real, cost: real, commissions: real,
      grossProfit: real)

  const ZERO_TOLERANCE := 0.005

  function ValueOrZero(value: Option<real>): real {
    if value.None? then 0.0 else value.value
  }

  // ----- sums -----

  function SumOf<T>(rows: seq<T>, f: T -> real): real {
    if rows == [] then 0.0 else SumOf(rows[..|rows| - 1], f) + f(rows[|rows| - 1])
  }

  function Ratio(a: real, b: real): real
    requires b > 0.0
  {
    a / b
  }

  lemma RatioAdds(a: real, b: real, c: real)
    requires c > 0.0
    ensures Ratio(a, c) + Ratio(b, c) == Ratio(a + b, c)
  {
  }

  lemma RatioWithin(a: real, b: real)
    requires 0.0 <= a <= b && b > 0.0
    ensures 0.0 <= Ratio(a, b) <= 1.0
  {
  }

  lemma RatioInjective(a: real, b: real, c: real)
    requires c > 0.0
    ensures Ratio(a, c) == Ratio(b, c) <==> a == b
  {
    assert Ratio(a, c) * c == a && Ratio(b, c) * c == b;
  }

  lemma RatioOfAll(a: real)
    requires a > 0.0
    ensures Ratio(a, a) == 1.0
  {
  }

  lemma {:induction false} SumOfRatios<T>(rows: seq<T>, f: T -> real, g: T -> real, c: real)
    requires c > 0.0 && forall x :: x in rows ==> g(x) == Ratio(f(x), c)
    ensures SumOf(rows, g) == Ratio(SumOf(rows, f), c)
  {
    if rows != [] {
      var last := rows[|rows| - 1];
      assert last in rows;
      SumOfRatios(rows[..|rows| - 1], f, g, c);
      RatioAdds(SumOf(rows[..|rows| - 1], f), f(last), c);
    }
  }

  function Part(whole: real, share: real): real {
    whole * share
  }

  lemma PartsAdd(whole: real, a: real, b: real)
    ensures Part(whole, a) + Part(whole, b) == Part(whole, a + b)
  {
  }

  lemma {:induction false} SumOfLeast<T>(rows: seq<T>, f: T -> real)
    requires forall x :: x in rows ==> f(x) >= 0.0
    ensures SumOf(rows, f) >= 0.0
    ensures forall x :: x in rows ==> f(x) <= SumOf(rows, f)
  {
    if rows != [] {
      assert rows[|rows| - 1] in rows;
      assert forall x :: x in rows[..|rows| - 1] ==> x in rows;
      SumOfLeast(rows[..|rows| - 1], f);
      assert rows == rows[..|rows| - 1] + [rows[|rows| - 1]];
    }
  }

  lemma {:induction false} SumOfOnes<T>(rows: seq<T>, f: T -> real)
    requires forall x :: x in rows ==> f(x) == 1.0
    ensures SumOf(rows, f) == |rows| as real
  {
    if rows != [] {
      assert rows[|rows| - 1] in rows;
      SumOfOnes(rows[..|rows| - 1], f);
    }
  }

  lemma {:induction false} SumOfMapped<A, B>(rows: seq<A>, mapped: seq<B>, f: A -> real, g: B -> real)
    requires |rows| == |mapped| && forall k :: 0 <= k < |rows| ==> g(mapped[k]) == f(rows[k])
    ensures SumOf(mapped, g) == SumOf(rows, f)
  {
    if rows != [] {
      SumOfMapped(rows[..|rows| - 1], mapped[..|rows| - 1], f, g);
    }
  }

  // ----- what the items give each supplier -----

  predicate Counts(item: Item) {
    !item.cancelled && item.supplier.Some?
  }

  /** The suppliers in the order they first appear. */
  function Suppliers(items: seq<Item>): seq<int> {
    if items == [] then []
    else
      var item, before := items[|items| - 1], Suppliers(items[..|items| - 1]);
      if !Counts(item) || item.supplier.value in before then before else before + [item.supplier.value]
  }

  /** Every supplier that some counting item names is listed, once. */
  lemma {:induction false} SuppliersListed(items: seq<Item>)
    ensures forall s :: s in Suppliers(items) <==>
              exists i :: 0 <= i < |items| && Counts(items[i]) && items[i].supplier.value == s
    ensures forall i, j :: 0 <= i < j < |Suppliers(items)| ==> Suppliers(items)[i] != Suppliers(items)[j]
  {
    if items != [] {
      var n := |items| - 1;
      SuppliersListed(items[..n]);
      forall s | exists i :: 0 <= i < |items| && Counts(items[i]) && items[i].supplier.value == s
        ensures s in Suppliers(items)
      {
        var i :| 0 <= i < |items| && Counts(items[i]) && items[i].supplier.value == s;
        assert i < n ==> items[..n][i] == items[i];
      }
    }
  }

  function Direct(items: seq<Item>, supplier: int): (e: Entry)
    ensures e.supplier == supplier
  {
    if items == [] then Entry(supplier, 0.0, 0.0)
    else
      var item, before := items[|items| - 1], Direct(items[..|items| - 1], supplier);
      if Counts(item) && item.supplier.value == supplier
      then Entry(supplier, before.directRevenue + item.sell, before.directCost + item.buy)
      else before
  }

  lemma {:induction false} UnseenSupplier(items: seq<Item>, supplier: int)
    ensures supplier !in Suppliers(items) ==> Direct(items, supplier) == Entry(supplier, 0.0, 0.0)
  {
    if items != [] {
      UnseenSupplier(items[..|items| - 1], supplier);
    }
  }

  /** The map and its insertion order after some items. */
  ghost predicate Gathered(found: map<int, Entry>, order: seq<int>, items: seq<Item>) {
    && order == Suppliers(items)
    && (forall s :: s in found <==> s in order)
    && (forall s :: s in found ==> found[s] == Direct(items, s))
  }

  method AddItems(items: seq<Item>, found: map<int, Entry>, order: seq<int>, ghost before: seq<Item>)
    returns (suppliers: map<int, Entry>, listed: seq<int>)
    requires Gathered(found, order, before)
    ensures Gathered(suppliers, listed, before + items)
  {
    suppliers, listed := found, order;
    assert before + items[..0] == before;
    var k := 0;
    while k < |items|
      invariant 0 <= k <= |items|
      invariant Gathered(suppliers, listed, before + items[..k])
    {
      var item := items[k];
      assert before + items[..k + 1] == (before + items[..k]) + [item];
      assert ((before + items[..k]) + [item])[..|before| + k] == before + items[..k];
      k := k + 1;
      if item.cancelled || item.supplier.None? {
        continue;
      }
      var s := item.supplier.value;
      UnseenSupplier(before + items[..k - 1], s);
      if s !in suppliers {
        suppliers := suppliers[s := Entry(s, 0.0, 0.0)];
        listed := listed + [s];
      }
      var e := suppliers[s];
      suppliers := suppliers[s := Entry(s, e.directRevenue + item.sell, e.directCost + item.buy)];
    }
    assert items[..k] == items;
  }

  /** The direct amounts of every supplier. */
  function Entries(items: seq<Item>): seq<Entry> {
    var suppliers := Suppliers(items);
    seq(|suppliers|, i requires 0 <= i < |suppliers| => Direct(items, suppliers[i]))
  }

  /** One more item: nothing changes if it is cancelled or names another supplier or none; else what it sells
      for is revenue of its supplier, and what it was bought for is cost. */
  lemma {:induction false} ItemAdds(items: seq<Item>, item: Item, supplier: int)
    ensures var before, after := Direct(items, supplier), Direct(items + [item], supplier);
            var counts := !item.cancelled && item.supplier == Some(supplier);
            && after.supplier == supplier
            && after.directRevenue == before.directRevenue + (if counts then item.sell else 0.0)
            && after.directCost == before.directCost + (if counts then item.buy else 0.0)
    ensures Direct([], supplier) == Entry(supplier, 0.0, 0.0)
  {
    assert (items + [item])[..|items|] == items;
  }

  /** What all items that count sell for, and what they were bought for. */
  function Sold(items: seq<Item>): real {
    if items == [] then 0.0
    else
      var item := items[|items| - 1];
      Sold(items[..|items| - 1]) + if item.cancelled || item.supplier.None? then 0.0 else item.sell
  }

  function Bought(items: seq<Item>): real {
    if items == [] then 0.0
    else
      var item := items[|items| - 1];
      Bought(items[..|items| - 1]) + if item.cancelled || item.supplier.None? then 0.0 else item.buy
  }

  /** The direct amounts of the listed suppliers. */
  function EntriesOf(items: seq<Item>, suppliers: seq<int>): seq<Entry> {
    seq(|suppliers|, i requires 0 <= i < |suppliers| => Direct(items, suppliers[i]))
  }

  const RevenueIn := (e: Entry) => e.directRevenue
  const CostIn := (e: Entry) => e.directCost

  lemma {:induction false} NextItem(items: seq<Item>, item: Item, suppliers: seq<int>)
    requires forall i, j :: 0 <= i < j < |suppliers| ==> suppliers[i] != suppliers[j]
    ensures var counts := Counts(item) && item.supplier.value in suppliers;
            && SumOf(EntriesOf(items + [item], suppliers), RevenueIn)
            == SumOf(EntriesOf(items, suppliers), RevenueIn) + (if counts then item.sell else 0.0)
            && SumOf(EntriesOf(items + [item], suppliers), CostIn)
            == SumOf(EntriesOf(items, suppliers), CostIn) + (if counts then item.buy else 0.0)
  {
    if suppliers != [] {
      var n := |suppliers| - 1;
      NextItem(items, item, suppliers[..n]);
      ItemAdds(items, item, suppliers[n]);
      assert EntriesOf(items, suppliers)[..n] == EntriesOf(items, suppliers[..n]);
      assert EntriesOf(items + [item], suppliers)[..n] == EntriesOf(items + [item], suppliers[..n]);
      assert suppliers == suppliers[..n] + [suppliers[n]];
      assert suppliers[n] !in suppliers[..n];
    }
  }

  /** The direct amounts of all suppliers together are those of all items that count. */
  lemma {:induction false} DirectAddsUp(items: seq<Item>)
    ensures SumOf(Entries(items), RevenueIn) == Sold(items)
    ensures SumOf(Entries(items), CostIn) == Bought(items)
  {
    if items != [] {
      var n := |items| - 1;
      var before, item, suppliers := items[..n], items[n], Suppliers(items[..n]);
      assert items == before + [item];
      DirectAddsUp(before);
      SuppliersListed(before);
      NextItem(before, item, suppliers);
      assert Entries(before) == EntriesOf(before, suppliers);
      if Counts(item) && item.supplier.value !in suppliers {
        UnseenSupplier(before, item.supplier.value);
        ItemAdds(before, item, item.supplier.value);
        assert Entries(items)[..|suppliers|] == EntriesOf(items, suppliers);
      } else {
        assert Entries(items) == EntriesOf(items, suppliers);
      }
    }
  }

  // ----- weights -----

  function Revenue(e: Entry): real { Abs(e.directRevenue) }

  function Cost(e: Entry): real { Abs(e.directCost) }

  function Weight(e: Entry, entries: seq<Entry>): real {
    if SumOf(entries, Revenue) > ZERO_TOLERANCE then Revenue(e) else Cost(e)
  }

  /** The total revenue, else the total cost, else the number of suppliers. */
  function Denominator(entries: seq<Entry>): (d: real)
    requires entries != []
    ensures d > 0.0
  {
    if SumOf(entries, Revenue) > ZERO_TOLERANCE then SumOf(entries, Revenue)
    else if SumOf(entries, Cost) > ZERO_TOLERANCE then SumOf(entries, Cost)
    else |entries| as real
  }

  /** Equal shares if there is nothing to go by, or if the denominator happens to be the number of
      suppliers. */
  function Share(e: Entry, entries: seq<Entry>): real
    requires entries != []
  {
    var denominator := Denominator(entries);
    Ratio(if denominator == |entries| as real then 1.0 else Weight(e, entries), denominator)
  }

  method AllocationWeights(entries: seq<Entry>) returns (weighted: seq<Weighted>)
    ensures |weighted| == |entries|
    ensures forall k :: 0 <= k < |entries| ==> weighted[k] == Weighted(entries[k], Share(entries[k], entries))
  {
    var revenueTotal, costTotal := 0.0, 0.0;
    var k := 0;
    while k < |entries|
      invariant 0 <= k <= |entries|
      invariant revenueTotal == SumOf(entries[..k], Revenue) && costTotal == SumOf(entries[..k], Cost)
    {
      assert entries[..k + 1][..k] == entries[..k];
      revenueTotal := revenueTotal + Abs(entries[k].directRevenue);
      costTotal := costTotal + Abs(entries[k].directCost);
      k := k + 1;
    }
    assert entries[..k] == entries;
    weighted := seq(|entries|, i requires 0 <= i < |entries| => Weighted(entries[i], Share(entries[i], entries)));
  }

  /** The weight that a share is the ratio of. */
  function Counted(e: Entry, entries: seq<Entry>): real
    requires entries != []
  {
    if Denominator(entries) == |entries| as real then 1.0 else Weight(e, entries)
  }

  lemma {:induction false} CountedAddUp(entries: seq<Entry>, f: Entry -> real)
    requires entries != []
    requires forall e :: e in entries ==> f(e) == Counted(e, entries)
    ensures SumOf(entries, f) == Denominator(entries)
    ensures forall e :: e in entries ==> 0.0 <= f(e) <= Denominator(entries)
  {
    SumOfLeast(entries, f);
    if Denominator(entries) == |entries| as real {
      SumOfOnes(entries, f);
    } else if SumOf(entries, Revenue) > ZERO_TOLERANCE {
      SumOfMapped(entries, entries, Revenue, f);
    } else {
      SumOfMapped(entries, entries, Cost, f);
    }
  }

  function ShareIn(entries: seq<Entry>): Entry -> real
    requires entries != []
  {
    (e: Entry) => Share(e, entries)
  }

  /** In every branch the shares lie between 0 and 1 and add up to 1. */
  lemma {:induction false} SharesAddUp(entries: seq<Entry>)
    requires entries != []
    ensures forall e :: e in entries ==> 0.0 <= Share(e, entries) <= 1.0
    ensures SumOf(entries, ShareIn(entries)) == 1.0
  {
    var f, d := (e: Entry) => Counted(e, entries), Denominator(entries);
    CountedAddUp(entries, f);
    forall e | e in entries ensures 0.0 <= Share(e, entries) <= 1.0 && ShareIn(entries)(e) == Ratio(f(e), d) {
      RatioWithin(f(e), d);
    }
    SumOfRatios(entries, f, ShareIn(entries), d);
    RatioOfAll(d);
  }

  function RevenueTotal(entries: seq<Entry>): real {
    if entries == [] then 0.0
    else RevenueTotal(entries[..|entries| - 1]) + Abs(entries[|entries| - 1].directRevenue)
  }

  function CostTotal(entries: seq<Entry>): real {
    if entries == [] then 0.0 else CostTotal(entries[..|entries| - 1]) + Abs(entries[|entries| - 1].directCost)
  }

  lemma {:induction false} TotalsAre(entries: seq<Entry>)
    ensures SumOf(entries, Revenue) == RevenueTotal(entries)
    ensures SumOf(entries, Cost) == CostTotal(entries)
  {
    if entries != [] {
      TotalsAre(entries[..|entries| - 1]);
    }
  }

  /** A supplier's share: its part of the revenue, else of the cost, and one among equals if there is neither
      or the total happens to be their number. */
  lemma {:induction false} ShareIs(e: Entry, entries: seq<Entry>)
    requires entries != []
    ensures var revenue, cost, n := RevenueTotal(entries), CostTotal(entries), |entries| as real;
            var share := Share(e, entries);
            && (revenue > 0.005 && revenue != n ==> share == Ratio(Abs(e.directRevenue), revenue))
            && (revenue <= 0.005 && cost > 0.005 && cost != n ==> share == Ratio(Abs(e.directCost), cost))
            && (revenue > 0.005 && revenue == n ==> share == Ratio(1.0, n))
            && (revenue <= 0.005 && (cost <= 0.005 || cost == n) ==> share == Ratio(1.0, n))
  {
    TotalsAre(entries);
  }

  /** Revenue decides the shares, else cost, unless the deciding total happens to equal the number of
      suppliers: then the shares are equal, and they follow what decides only if it is one for all. */
  lemma {:induction false} ProportionalIff(entries: seq<Entry>)
    requires entries != [] && (SumOf(entries, Revenue) > ZERO_TOLERANCE || SumOf(entries, Cost) > ZERO_TOLERANCE)
    ensures var byRevenue := SumOf(entries, Revenue) > ZERO_TOLERANCE;
            var total := if byRevenue then SumOf(entries, Revenue) else SumOf(entries, Cost);
            && total > ZERO_TOLERANCE
            && ((forall e :: e in entries ==>
                   Share(e, entries) == Ratio(if byRevenue then Revenue(e) else Cost(e), total)) <==>
                (total != |entries| as real
                 || forall e :: e in entries ==> (if byRevenue then Revenue(e) else Cost(e)) == 1.0))
  {
    var total := Denominator(entries);
    forall e ensures Share(e, entries) == Ratio(Weight(e, entries), total) <==>
        (total != |entries| as real || Weight(e, entries) == 1.0) {
      RatioInjective(Counted(e, entries), Weight(e, entries), total);
    }
  }

  /** For example, revenues of one half and one and a half add up to the number of suppliers: both get one
      half. */
  lemma EqualSharesHappen()
    ensures var a, b := Entry(1, 0.5, 0.0), Entry(2, 1.5, 0.0);
            Share(a, [a, b]) == 0.5 && Share(b, [a, b]) == 0.5 && SumOf([a, b], Revenue) == 2.0
                && Ratio(Revenue(b), 2.0) == 0.75
  {
    var a, b := Entry(1, 0.5, 0.0), Entry(2, 1.5, 0.0);
    assert [a, b][..1] == [a] && [a][..0] == [];
    assert SumOf([a], Revenue) == 0.5;
    assert SumOf([a, b], Revenue) == 2.0;
  }

  // ----- the allocation -----

  /** What a supplier gets: its own amounts and its share of what no item names. */
  function AllocationOf(w: Weighted, revenueResidual: real, costResidual: real, commissions: real): Allocation {
    var revenue := w.entry.directRevenue + Part(revenueResidual, w.share);
    var cost := w.entry.directCost + Part(costResidual, w.share);
    Allocation(w.entry.supplier, w.share, revenue, cost, Part(commissions, w.share),
        revenue - cost - Part(commissions, w.share))
  }

  /** A supplier gets its own amounts and its share of what no item names. */
  lemma AllocationIs(w: Weighted, revenueResidual: real, costResidual: real, commissions: real)
    ensures var a := AllocationOf(w, revenueResidual, costResidual, commissions);
            && a.supplier == w.entry.supplier && a.share == w.share
            && a.revenue == w.entry.directRevenue + revenueResidual * w.share
            && a.cost == w.entry.directCost + costResidual * w.share
            && a.commissions == commissions * w.share
            && a.grossProfit == a.revenue - a.cost - a.commissions
  {
  }

  const DirectRevenueOf := (w: Weighted) => w.entry.directRevenue
  const DirectCostOf := (w: Weighted) => w.entry.directCost
  const ShareOf := (w: Weighted) => w.share
  const RevenueOf := (a: Allocation) => a.revenue
  const CostOf := (a: Allocation) => a.cost
  const CommissionsOf := (a: Allocation) => a.commissions
  const ProfitOf := (a: Allocation) => a.grossProfit

  /** The rows are the plain allocations of the weighted suppliers. */
  ghost predicate Allocates(rows: seq<Allocation>, weighted: seq<Weighted>, revenueResidual: real, costResidual: real,
                            commissions: real) {
    |rows| == |weighted| && forall k :: 0 <= k < |rows| ==>
        rows[k] == AllocationOf(weighted[k], revenueResidual, costResidual, commissions)
  }

  /** The totals of the first rows, before it is known that the shares add up to one. */
  lemma {:induction false} AllocationTotals(rows: seq<Allocation>, weighted: seq<Weighted>, revenueResidual: real,
                                            costResidual: real,
                                            commissions: real)
    requires Allocates(rows, weighted, revenueResidual, costResidual, commissions)
    ensures SumOf(rows, RevenueOf) == SumOf(weighted, DirectRevenueOf) + Part(revenueResidual, SumOf(weighted, ShareOf))
    ensures SumOf(rows, CostOf) == SumOf(weighted, DirectCostOf) + Part(costResidual, SumOf(weighted, ShareOf))
    ensures SumOf(rows, CommissionsOf) == Part(commissions, SumOf(weighted, ShareOf))
    ensures SumOf(rows, ProfitOf) == SumOf(rows, RevenueOf) - SumOf(rows, CostOf) - SumOf(rows, CommissionsOf)
  {
    if rows != [] {
      var n := |rows| - 1;
      AllocationTotals(rows[..n], weighted[..n], revenueResidual, costResidual, commissions);
      var before, last := SumOf(weighted[..n], ShareOf), weighted[n].share;
      PartsAdd(revenueResidual, before, last);
      PartsAdd(costResidual, before, last);
      PartsAdd(commissions, before, last);
    }
  }

  /** Every amount is shared out in full. */
  ghost predicate SharesOut(rows: seq<Allocation>, buyerAmount: real, supplierAmount: real, commissions: real) {
    && SumOf(rows, RevenueOf) == buyerAmount
    && SumOf(rows, CostOf) == supplierAmount
    && SumOf(rows, CommissionsOf) == commissions
    && SumOf(rows, ProfitOf) == buyerAmount - supplierAmount - commissions
  }

  /** Shares that add up to one share out every amount. */
  lemma {:induction false} TotalsConserved(rows: seq<Allocation>, weighted: seq<Weighted>, buyerAmount: real,
                                           supplierAmount: real,
                                           commissions: real)
    requires SumOf(weighted, ShareOf) == 1.0
    requires Allocates(rows, weighted, buyerAmount - SumOf(weighted, DirectRevenueOf),
             supplierAmount - SumOf(weighted, DirectCostOf), commissions)
    ensures SharesOut(rows, buyerAmount, supplierAmount, commissions)
  {
    AllocationTotals(rows, weighted, buyerAmount - SumOf(weighted, DirectRevenueOf),
        supplierAmount - SumOf(weighted, DirectCostOf), commissions);
  }

  lemma {:induction false} WeightedShares(entries: seq<Entry>, weighted: seq<Weighted>)
    requires entries != [] && |weighted| == |entries|
    requires forall k :: 0 <= k < |entries| ==> weighted[k] == Weighted(entries[k], Share(entries[k], entries))
    ensures SumOf(weighted, ShareOf) == 1.0
  {
    SharesAddUp(entries);
    SumOfMapped(entries, weighted, ShareIn(entries), ShareOf);
  }

  /** The weighted entries of the items. */
  function WeightedOf(items: seq<Item>): seq<Weighted> {
    var entries := Entries(items);
    seq(|entries|, i requires 0 <= i < |entries| => Weighted(entries[i], Share(entries[i], entries)))
  }

  /** Fills the rows; the last one is corrected by what profit is still missing. */
  method ShareProfit(weighted: seq<Weighted>, revenueResidual: real, costResidual: real, commissions: real,
                     expectedProfit: real)
    returns (rows: seq<Allocation>)
    requires forall plain :: Allocates(plain, weighted, revenueResidual, costResidual, commissions) ==>
             SumOf(plain, ProfitOf) == expectedProfit
    ensures Allocates(rows, weighted, revenueResidual, costResidual, commissions)
  {
    rows := [];
    var allocatedProfit := 0.0;
    ghost var whole := seq(|weighted|, i requires 0 <= i < |weighted| => AllocationOf(weighted[i], revenueResidual,
                           costResidual, commissions));
    assert Allocates(whole, weighted, revenueResidual, costResidual, commissions);
    var index := 0;
    while index < |weighted|
      invariant 0 <= index <= |weighted|
      invariant rows == whole[..index]
      invariant allocatedProfit == SumOf(rows, ProfitOf)
    {
      var entry := weighted[index].entry;
      var share := weighted[index].share;
      var allocatedRevenue := entry.directRevenue + Part(revenueResidual, share);
      var allocatedCost := entry.directCost + Part(costResidual, share);
      var allocatedCommissions := Part(commissions, share);
      var grossProfit := allocatedRevenue - allocatedCost - allocatedCommissions;
      assert whole[..index + 1] == whole[..index] + [whole[index]];
      SumOfLast(whole[..index], whole[index], ProfitOf);
      if index == |weighted| - 1 {
        assert whole[..index + 1] == whole;
        grossProfit := grossProfit + (expectedProfit - (allocatedProfit + grossProfit));
      }
      allocatedProfit := allocatedProfit + grossProfit;
      rows := rows + [Allocation(entry.supplier, share, allocatedRevenue, allocatedCost, allocatedCommissions,
          grossProfit)];
      index := index + 1;
    }
    assert whole[..index] == whole;
  }

  lemma {:induction false} SumOfLast<T>(rows: seq<T>, last: T, f: T -> real)
    ensures SumOf(rows + [last], f) == SumOf(rows, f) + f(last)
  {
    assert (rows + [last])[..|rows|] == rows;
  }

  method GatherEntries(lineItems: seq<Item>, extraCosts: seq<Item>) returns (entries: seq<Entry>)
    ensures entries == Entries(lineItems + extraCosts)
  {
    var suppliers, order := AddItems(lineItems, map[], [], []);
    assert [] + lineItems == lineItems;
    suppliers, order := AddItems(extraCosts, suppliers, order, lineItems);
    entries := [];
    var k := 0;
    while k < |order|
      invariant 0 <= k <= |order| && |entries| == k
      invariant forall j :: 0 <= j < k ==> entries[j] == Direct(lineItems + extraCosts, order[j])
    {
      var supplier := order[k];
      assert supplier in order;
      assert supplier in suppliers;
      entries := entries + [suppliers[supplier]];
      k := k + 1;
    }
  }

  method AllocateWeighted(weighted: seq<Weighted>, buyer: real, supplier: real, commissions: real)
    returns (rows: seq<Allocation>)
    requires SumOf(weighted, ShareOf) == 1.0
    ensures Allocates(rows, weighted, buyer - SumOf(weighted, DirectRevenueOf),
            supplier - SumOf(weighted, DirectCostOf), commissions)
    ensures SharesOut(rows, buyer, supplier, commissions)
  {
    var directRevenueTotal := TotalOf(weighted, DirectRevenueOf);
    var directCostTotal := TotalOf(weighted, DirectCostOf);
    forall plain | Allocates(plain, weighted, buyer - directRevenueTotal, supplier - directCostTotal, commissions)
      ensures SumOf(plain, ProfitOf) == buyer - supplier - commissions
    {
      TotalsConserved(plain, weighted, buyer, supplier, commissions);
    }
    rows := ShareProfit(weighted, buyer - directRevenueTotal, supplier - directCostTotal, commissions,
        buyer - supplier - commissions);
    TotalsConserved(rows, weighted, buyer, supplier, commissions);
  }

  /** All totals are shared out, and the correction of the last supplier is zero: every row, the last
      one too, is its own revenue less its own cost and commissions. */
  method AllocateSupplierContribution(lineItems: seq<Item>, extraCosts: seq<Item>, buyerAmount: Option<real>,
                                      supplierAmount: Option<real>,
                                      brokerCommissions: Option<real>)
    returns (rows: seq<Allocation>)
    ensures var weighted := WeightedOf(lineItems + extraCosts);
            Allocates(rows, weighted, ValueOrZero(buyerAmount) - SumOf(weighted, DirectRevenueOf),
                      ValueOrZero(supplierAmount) - SumOf(weighted, DirectCostOf), ValueOrZero(brokerCommissions))
    ensures rows == [] <==> Suppliers(lineItems + extraCosts) == []
    ensures rows != [] ==> SharesOut(rows, ValueOrZero(buyerAmount), ValueOrZero(supplierAmount),
            ValueOrZero(brokerCommissions))
  {
    var entries := GatherEntries(lineItems, extraCosts);
    if entries == [] {
      return [];
    }
    var weighted := AllocationWeights(entries);
    WeightedShares(entries, weighted);
    assert weighted == WeightedOf(lineItems + extraCosts);
    rows := AllocateWeighted(weighted, ValueOrZero(buyerAmount), ValueOrZero(supplierAmount),
        ValueOrZero(brokerCommissions));
  }

  method TotalOf(weighted: seq<Weighted>, f: Weighted -> real) returns (total: real)
    ensures total == SumOf(weighted, f)
  {
    total := 0.0;
    var k := 0;
    while k < |weighted|
      invariant 0 <= k <= |weighted|
      invariant total == SumOf(weighted[..k], f)
    {
      assert weighted[..k + 1][..k] == weighted[..k];
      total := total + f(weighted[k]);
      k := k + 1;
    }
    assert weighted[..k] == weighted;
  }
}
