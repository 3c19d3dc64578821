/** Allocation of a supplier dispute over the supplier's invoices, oldest first. Money is in whole
    cents, so the tolerance of 0.01 is one cent. Dates and ids stand for their place in the text
    order the source sorts by. */
module DisputeAllocation {
  import opened Integers
  import opened Options
  import opened Sorting

  datatype Invoice = Invoice(
    id: int, dueDate: Option<int>, invoiceDate: Option<int>, createdDate: Option<int>,
    currency: int, amount: int, rawPayable: int, payable: int, paid: int)

  datatype Override = Override(id: Option<int>, amount: Option<int>)

  datatype Error =
    | InvalidDisputeAmount
    | AllocationIdRequired
    | DuplicateAllocation
    | InvalidAllocationAmount
    | ForgedAllocation
    | AllocationExceedsInvoice
    | AllocationsExceedDispute
    | DisputeExceedsInvoices

  datatype Result<T> = Ok(value: T) | Err(error: Error)

  datatype Row = Row(invoice: Invoice, share: int, doNotPay: int, getBack: int)

  datatype Allocation = Allocation(disputeAmount: int, currency: int, rows: seq<Row>, totalDoNotPay: int,
      totalGetBack: int)

  const TOLERANCE := 1
  const FAR_FUTURE := 99991231

  /** Amounts floored at zero and the payable balance capped by the invoice amount. */
  function Normalize(i: Invoice): Invoice {
    var amount := Max(0, i.amount);
    var payable := Max(0, Min(i.rawPayable, amount));
    i.(amount := amount, payable := payable, paid := Max(0, amount - payable))
  }

  function Or(a: Option<int>, b: int): int {
    match a
    case Some(v) => v
    case None => b
  }

  function IssueDate(i: Invoice): int {
    if i.invoiceDate.Some? then i.invoiceDate.value else Or(i.createdDate, FAR_FUTURE)
  }

  const Older: (Invoice, Invoice) -> bool := (a: Invoice, b: Invoice) =>
    var p, q := Or(a.dueDate, FAR_FUTURE), Or(b.dueDate, FAR_FUTURE);
    p < q || (p == q && (IssueDate(a) < IssueDate(b) || (IssueDate(a) == IssueDate(b) && a.id <= b.id)))

  function OldestFirst(invoices: seq<Invoice>): seq<Invoice> {
    Sort(Map(Normalize, invoices), Older)
  }

  function Eligible(invoices: seq<Invoice>, currency: int): seq<Invoice> {
    Filter((i: Invoice) => i.currency == currency, OldestFirst(invoices))
  }

  // ----- overrides -----

  /** The override map, or the first entry that is not acceptable. */
  function CheckOverrides(overrides: seq<Override>, amounts: map<int, int>): Result<map<int, int>> {
    if overrides == [] then Ok(amounts)
    else
      var o := overrides[0];
      if o.id.None? then Err(AllocationIdRequired)
      else if o.id.value in amounts then Err(DuplicateAllocation)
      else if o.amount.None? || o.amount.value < 0 then Err(InvalidAllocationAmount)
      else CheckOverrides(overrides[1..], amounts[o.id.value := o.amount.value])
  }

  method NormalizedOverrides(overrides: seq<Override>) returns (result: Result<map<int, int>>)
    ensures result == CheckOverrides(overrides, map[])
  {
    var amounts: map<int, int> := map[];
    var k := 0;
    while k < |overrides|
      invariant 0 <= k <= |overrides|
      invariant CheckOverrides(overrides[k..], amounts) == CheckOverrides(overrides, map[])
    {
      var o := overrides[k];
      assert overrides[k..][1..] == overrides[k + 1..];
      if o.id.None? {
        return Err(AllocationIdRequired);
      }
      if o.id.value in amounts {
        return Err(DuplicateAllocation);
      }
      if o.amount.None? || o.amount.value < 0 {
        return Err(InvalidAllocationAmount);
      }
      amounts := amounts[o.id.value := o.amount.value];
      k := k + 1;
    }
    assert overrides[k..] == [];
    return Ok(amounts);
  }

  // ----- the pour -----

  datatype Poured = Poured(amounts: map<int, int>, remaining: int)

  /** What is left of `remaining` goes to the invoices that have no amount yet, in order. */
  function Pour(invoices: seq<Invoice>, amounts: map<int, int>, remaining: int): Poured
    decreases |invoices|
  {
    if invoices == [] then Poured(amounts, remaining)
    else
      var i := invoices[0];
      if i.id in amounts || remaining <= TOLERANCE then Pour(invoices[1..], amounts, remaining)
      else
        var share := Min(i.amount, remaining);
        Pour(invoices[1..], amounts[i.id := share], Max(0, remaining - share))
  }

  function AllocationRow(i: Invoice, share: int): Row {
    var doNotPay := Min(share, i.payable);
    Row(i, share, doNotPay, Max(0, share - doNotPay))
  }

  function Rows(invoices: seq<Invoice>, amounts: map<int, int>): seq<Row> {
    if invoices == [] then []
    else
      (if invoices[0].id in amounts then [AllocationRow(invoices[0], amounts[invoices[0].id])] else []) +
      Rows(invoices[1..], amounts)
  }

  function TotalAllocated(rows: seq<Row>): int {
    if rows == [] then 0 else rows[0].share + TotalAllocated(rows[1..])
  }

  function TotalDoNotPay(rows: seq<Row>): int {
    if rows == [] then 0 else rows[0].doNotPay + TotalDoNotPay(rows[1..])
  }

  function TotalGetBack(rows: seq<Row>): int {
    if rows == [] then 0 else rows[0].getBack + TotalGetBack(rows[1..])
  }

  predicate HasInvoice(invoices: seq<Invoice>, id: int) {
    exists k :: 0 <= k < |invoices| && invoices[k].id == id
  }

  /** `new Map(...)` keeps the last invoice of an id. */
  function InvoiceAmount(invoices: seq<Invoice>, id: int): int {
    if invoices == [] then 0
    else if HasInvoice(invoices[1..], id) then InvoiceAmount(invoices[1..], id)
    else if invoices[0].id == id then invoices[0].amount
    else 0
  }

  function OverrideTotal(overrides: seq<Override>): int {
    if overrides == [] then 0 else Or(overrides[0].amount, 0) + OverrideTotal(overrides[1..])
  }

  predicate AnyForged(overrides: seq<Override>, invoices: seq<Invoice>) {
    exists k :: 0 <= k < |overrides| && !HasInvoice(invoices, Or(overrides[k].id, 0))
  }

  predicate AnyTooLarge(overrides: seq<Override>, invoices: seq<Invoice>) {
    exists k :: 0 <= k < |overrides|
             && Or(overrides[k].amount, 0) > InvoiceAmount(invoices, Or(overrides[k].id, 0)) + TOLERANCE
  }

  function Allocate(invoices: seq<Invoice>, disputeAmount: Option<int>, currency: int,
                    overrides: seq<Override>): Result<Allocation>
  {
    if disputeAmount.None? || disputeAmount.value < 0 then Err(InvalidDisputeAmount)
    else
      var amount := disputeAmount.value;
      var eligible := Eligible(invoices, currency);
      var checked := CheckOverrides(overrides, map[]);
      if checked.Err? then Err(checked.error)
      else if AnyForged(overrides, eligible) then Err(ForgedAllocation)
      else if AnyTooLarge(overrides, eligible) then Err(AllocationExceedsInvoice)
      else if OverrideTotal(overrides) > amount + TOLERANCE then Err(AllocationsExceedDispute)
      else
        var poured := Pour(eligible, checked.value, Max(0, amount - OverrideTotal(overrides)));
        if poured.remaining > TOLERANCE then Err(DisputeExceedsInvoices)
        else
          var rows := Rows(eligible, poured.amounts);
          Ok(Allocation(amount, currency, rows, TotalDoNotPay(rows), TotalGetBack(rows)))
  }

  lemma {:induction false} OverrideTotalAppend(overrides: seq<Override>, k: nat)
    requires k < |overrides|
    ensures OverrideTotal(overrides[..k + 1]) == OverrideTotal(overrides[..k]) + Or(overrides[k].amount, 0)
  {
    if k > 0 {
      OverrideTotalAppend(overrides[1..], k - 1);
      assert overrides[..k + 1][1..] == overrides[1..][..k];
      assert overrides[..k][1..] == overrides[1..][..k - 1];
    }
  }

  ghost predicate Overridden(overrides: seq<Override>, id: int) {
    exists k :: 0 <= k < |overrides| && overrides[k].id == Some(id)
  }

  ghost predicate Usable(overrides: seq<Override>) {
    && (forall k :: 0 <= k < |overrides| ==>
          overrides[k].id.Some? && overrides[k].amount.Some? && overrides[k].amount.value >= 0)
    && DistinctBy(overrides, (o: Override) => o.id)
  }

  ghost predicate NotIn(overrides: seq<Override>, amounts: map<int, int>) {
    forall k :: 0 <= k < |overrides| && overrides[k].id.Some? ==> overrides[k].id.value !in amounts
  }

  /** The override list is accepted exactly when every entry has an id of its own and an amount of
      zero or more. */
  lemma {:induction false} OverridesAccepted(overrides: seq<Override>, amounts: map<int, int>)
    ensures CheckOverrides(overrides, amounts).Ok? <==> Usable(overrides) && NotIn(overrides, amounts)
  {
    if overrides != [] {
      var o, rest := overrides[0], overrides[1..];
      assert overrides == [o] + rest;
      if o.id.Some? && o.id.value !in amounts && o.amount.Some? && o.amount.value >= 0 {
        var more := amounts[o.id.value := o.amount.value];
        OverridesAccepted(rest, more);
        assert Usable(overrides) && NotIn(overrides, amounts) ==> Usable(rest) && NotIn(rest, more) by {
          assert forall k :: 0 <= k < |rest| ==> rest[k] == overrides[k + 1];
        }
      }
    }
  }

  lemma {:induction false} CheckedKeeps(overrides: seq<Override>, amounts: map<int, int>, id: int)
    requires CheckOverrides(overrides, amounts).Ok? && id in amounts
    ensures var m := CheckOverrides(overrides, amounts).value; id in m && m[id] == amounts[id]
  {
    if overrides != [] {
      CheckedKeeps(overrides[1..], amounts[overrides[0].id.value := overrides[0].amount.value], id);
    }
  }

  lemma {:induction false} CheckedRecords(overrides: seq<Override>, amounts: map<int, int>, k: nat)
    requires CheckOverrides(overrides, amounts).Ok? && k < |overrides|
    ensures overrides[k].id.Some? && overrides[k].amount.Some?
    ensures var m := CheckOverrides(overrides, amounts).value;
            overrides[k].id.value in m && m[overrides[k].id.value] == overrides[k].amount.value
  {
    var o := overrides[0];
    var more := amounts[o.id.value := o.amount.value];
    if k == 0 {
      CheckedKeeps(overrides[1..], more, o.id.value);
    } else {
      CheckedRecords(overrides[1..], more, k - 1);
    }
  }

  lemma {:induction false} CheckedOnly(overrides: seq<Override>, amounts: map<int, int>, id: int)
    requires CheckOverrides(overrides, amounts).Ok? && id in CheckOverrides(overrides, amounts).value
    ensures id in amounts || Overridden(overrides, id)
  {
    if overrides != [] {
      var more := amounts[overrides[0].id.value := overrides[0].amount.value];
      CheckedOnly(overrides[1..], more, id);
      if Overridden(overrides[1..], id) {
        var k :| 0 <= k < |overrides[1..]| && overrides[1..][k].id == Some(id);
        assert overrides[k + 1].id == Some(id);
      } else if id !in amounts {
        assert overrides[0].id == Some(id);
      }
    }
  }

  /** An accepted list is recorded in full, and nothing else is. */
  lemma {:induction false} CheckedAmounts(overrides: seq<Override>)
    requires CheckOverrides(overrides, map[]).Ok?
    ensures var m := CheckOverrides(overrides, map[]).value;
            && (forall id :: id in m <==> Overridden(overrides, id))
            && (forall k :: 0 <= k < |overrides| ==>
                  && overrides[k].id.Some? && overrides[k].amount.Some?
                  && overrides[k].id.value in m && m[overrides[k].id.value] == overrides[k].amount.value)
  {
    var m := CheckOverrides(overrides, map[]).value;
    forall k | 0 <= k < |overrides|
      ensures overrides[k].id.Some? && overrides[k].amount.Some?
      ensures overrides[k].id.value in m && m[overrides[k].id.value] == overrides[k].amount.value
    {
      CheckedRecords(overrides, map[], k);
    }
    forall id ensures id in m <==> Overridden(overrides, id) {
      if id in m {
        CheckedOnly(overrides, map[], id);
      }
      if Overridden(overrides, id) {
        var k :| 0 <= k < |overrides| && overrides[k].id == Some(id);
        CheckedRecords(overrides, map[], k);
      }
    }
  }

  /** Checks the overrides against the invoices and adds them up. */
  method ApplyOverrides(sorted: seq<Invoice>, overrides: seq<Override>, checked: map<int, int>)
    returns (result: Result<int>)
    requires CheckOverrides(overrides, map[]) == Ok(checked)
    ensures result == if AnyForged(overrides, sorted) then Err(ForgedAllocation)
                      else if AnyTooLarge(overrides, sorted) then Err(AllocationExceedsInvoice)
                      else Ok(OverrideTotal(overrides))
  {
    OverridesAccepted(overrides, map[]);
    var k := 0;
    while k < |overrides|
      invariant 0 <= k <= |overrides|
      invariant forall j :: 0 <= j < k ==> HasInvoice(sorted, Or(overrides[j].id, 0))
    {
      if !HasInvoice(sorted, overrides[k].id.value) {
        return Err(ForgedAllocation);
      }
      k := k + 1;
    }
    var total := 0;
    k := 0;
    while k < |overrides|
      invariant 0 <= k <= |overrides|
      invariant total == OverrideTotal(overrides[..k])
      invariant forall j :: 0 <= j < k ==>
                  Or(overrides[j].amount, 0) <= InvoiceAmount(sorted, Or(overrides[j].id, 0)) + TOLERANCE
    {
      var overrideAmount := overrides[k].amount.value;
      if overrideAmount > InvoiceAmount(sorted, overrides[k].id.value) + TOLERANCE {
        return Err(AllocationExceedsInvoice);
      }
      OverrideTotalAppend(overrides, k);
      total := total + overrideAmount;
      k := k + 1;
    }
    assert overrides[..k] == overrides;
    return Ok(total);
  }

  method FillOldestFirst(sorted: seq<Invoice>, checked: map<int, int>, rest: int) returns (poured: Poured)
    ensures poured == Pour(sorted, checked, rest)
  {
    var amounts, remaining := checked, rest;
    var k := 0;
    while k < |sorted|
      invariant 0 <= k <= |sorted|
      invariant Pour(sorted[k..], amounts, remaining) == Pour(sorted, checked, rest)
    {
      var invoice := sorted[k];
      assert sorted[k..][1..] == sorted[k + 1..];
      if !(invoice.id in amounts || remaining <= TOLERANCE) {
        var share := Min(invoice.amount, remaining);
        amounts := amounts[invoice.id := share];
        remaining := Max(0, remaining - share);
      }
      k := k + 1;
    }
    assert sorted[k..] == [];
    return Poured(amounts, remaining);
  }

  method AllocateSupplierDispute(invoices: seq<Invoice>, disputeAmount: Option<int>, currency: int,
                                 invoiceAllocations: seq<Override>)
    returns (result: Result<Allocation>)
    ensures result == Allocate(invoices, disputeAmount, currency, invoiceAllocations)
  {
    if disputeAmount.None? || disputeAmount.value < 0 {
      return Err(InvalidDisputeAmount);
    }
    var amount := disputeAmount.value;
    var sorted := Eligible(invoices, currency);
    var overrides := NormalizedOverrides(invoiceAllocations);
    if overrides.Err? {
      return Err(overrides.error);
    }
    var applied := ApplyOverrides(sorted, invoiceAllocations, overrides.value);
    if applied.Err? {
      return Err(applied.error);
    }
    if applied.value > amount + TOLERANCE {
      return Err(AllocationsExceedDispute);
    }
    var poured := FillOldestFirst(sorted, overrides.value, Max(0, amount - applied.value));
    if poured.remaining > TOLERANCE {
      return Err(DisputeExceedsInvoices);
    }
    var rows := Rows(sorted, poured.amounts);
    return Ok(Allocation(amount, currency, rows, TotalDoNotPay(rows), TotalGetBack(rows)));
  }

  // ----- the invoices that are allocated -----

  ghost predicate DistinctInvoices(invoices: seq<Invoice>) {
    DistinctBy(invoices, (i: Invoice) => i.id)
  }

  ghost predicate NormalInvoices(invoices: seq<Invoice>) {
    forall k :: 0 <= k < |invoices| ==>
      && 0 <= invoices[k].payable <= invoices[k].amount
      && invoices[k].paid == invoices[k].amount - invoices[k].payable
  }

  lemma OlderIsPreorder()
    ensures TotalPreorder(Older)
  {
  }

  lemma EligibleMembers(invoices: seq<Invoice>, currency: int)
    ensures forall i :: i in Eligible(invoices, currency) <==>
              exists k :: 0 <= k < |invoices| && invoices[k].currency == currency && i == Normalize(invoices[k])
  {
    var normal, eligible := Map(Normalize, invoices), Eligible(invoices, currency);
    SortKeepsElements(normal, Older);
    FilterMembers((i: Invoice) => i.currency == currency, OldestFirst(invoices));
    forall i ensures i in eligible <==>
                       exists k :: 0 <= k < |invoices| && invoices[k].currency == currency
                           && i == Normalize(invoices[k])
    {
      if i in eligible {
        assert i in normal;
        var k :| 0 <= k < |normal| && normal[k] == i;
      }
      if k :| 0 <= k < |invoices| && invoices[k].currency == currency && i == Normalize(invoices[k]) {
        assert normal[k] == i;
        assert i in normal;
      }
    }
  }

  lemma EligibleAreDistinct(invoices: seq<Invoice>, currency: int)
    requires DistinctInvoices(invoices)
    ensures DistinctInvoices(Eligible(invoices, currency))
  {
    var normal := Map(Normalize, invoices);
    SortPermutes(normal, Older);
    PermutationKeepsDistinct(normal, OldestFirst(invoices), (i: Invoice) => i.id);
    FilterKeepsDistinct((i: Invoice) => i.currency == currency, OldestFirst(invoices), (i: Invoice) => i.id);
  }

  lemma {:induction false} NormalizeKeepsCurrency(invoices: seq<Invoice>, currency: int)
    ensures Filter((i: Invoice) => i.currency == currency, Map(Normalize, invoices))
         == Map(Normalize, Filter((i: Invoice) => i.currency == currency, invoices))
  {
    if invoices != [] {
      NormalizeKeepsCurrency(invoices[1..], currency);
      assert Map(Normalize, invoices)[1..] == Map(Normalize, invoices[1..]);
      MapAppend(Normalize, [invoices[0]], Filter((i: Invoice) => i.currency == currency, invoices[1..]));
      assert Map(Normalize, [invoices[0]]) == [Normalize(invoices[0])];
    }
  }

  lemma EligibleAreNormal(invoices: seq<Invoice>, currency: int)
    ensures NormalInvoices(Eligible(invoices, currency))
  {
    var eligible := Eligible(invoices, currency);
    EligibleMembers(invoices, currency);
    forall k | 0 <= k < |eligible|
      ensures 0 <= eligible[k].payable <= eligible[k].amount
      ensures eligible[k].paid == eligible[k].amount - eligible[k].payable
    {
      assert eligible[k] in eligible;
    }
  }

  lemma {:induction false} FilterPermutes(p: Invoice -> bool, a: seq<Invoice>, b: seq<Invoice>)
    requires multiset(a) == multiset(b)
    ensures multiset(Filter(p, a)) == multiset(Filter(p, b))
  {
    forall x ensures multiset(Filter(p, a))[x] == multiset(Filter(p, b))[x] {
      FilterCounts(p, a, x);
      FilterCounts(p, b, x);
    }
  }

  /** The eligible invoices are the normalized invoices of the currency, none lost and none added. */
  lemma {:induction false} EligibleInvoices(invoices: seq<Invoice>, currency: int)
    ensures NormalInvoices(Eligible(invoices, currency))
    ensures multiset(Eligible(invoices, currency))
         == multiset(Map(Normalize, Filter((i: Invoice) => i.currency == currency, invoices)))
  {
    EligibleAreNormal(invoices, currency);
    SortPermutes(Map(Normalize, invoices), Older);
    FilterPermutes((i: Invoice) => i.currency == currency, OldestFirst(invoices), Map(Normalize, invoices));
    NormalizeKeepsCurrency(invoices, currency);
  }

  // ----- conservation -----

  /** Invoice amounts the pour may still use; of several invoices with one id only the first. */
  function Available(invoices: seq<Invoice>, taken: set<int>): int {
    if invoices == [] then 0
    else if invoices[0].id in taken then Available(invoices[1..], taken)
    else invoices[0].amount + Available(invoices[1..], taken + {invoices[0].id})
  }

  /** The amounts of the listed ids, each id once. */
  function TotalOf(invoices: seq<Invoice>, amounts: map<int, int>): int {
    if invoices == [] then 0
    else (if invoices[0].id in amounts && !HasInvoice(invoices[1..], invoices[0].id) then amounts[invoices[0].id]
        else 0)
         + TotalOf(invoices[1..], amounts)
  }

  /** An amount recorded for an id no listed invoice has does not show. */
  lemma {:induction false} UnlistedAmount(invoices: seq<Invoice>, amounts: map<int, int>, id: int, amount: int)
    requires !HasInvoice(invoices, id)
    ensures TotalOf(invoices, amounts[id := amount]) == TotalOf(invoices, amounts)
  {
    if invoices != [] {
      assert invoices[0].id != id;
      assert forall k :: 0 <= k < |invoices| - 1 ==> invoices[1..][k] == invoices[k + 1];
      UnlistedAmount(invoices[1..], amounts, id, amount);
    }
  }

  lemma {:induction false} PourKeeps(invoices: seq<Invoice>, amounts: map<int, int>, remaining: int)
    ensures var m := Pour(invoices, amounts, remaining).amounts;
            && (forall id :: id in amounts ==> id in m && m[id] == amounts[id])
            && (forall id :: id in m && id !in amounts ==> HasInvoice(invoices, id))
    decreases |invoices|
  {
    if invoices != [] {
      var i := invoices[0];
      ListedIds(invoices);
      if i.id in amounts || remaining <= TOLERANCE {
        PourKeeps(invoices[1..], amounts, remaining);
      } else {
        var share := Min(i.amount, remaining);
        var more := amounts[i.id := share];
        assert forall id :: id in amounts ==> id in more && more[id] == amounts[id];
        PourKeeps(invoices[1..], more, Max(0, remaining - share));
        assert Pour(invoices, amounts, remaining) == Pour(invoices[1..], more, Max(0, remaining - share));
      }
    }
  }

  lemma TailInvoices(invoices: seq<Invoice>)
    requires invoices != [] && NormalInvoices(invoices)
    ensures NormalInvoices(invoices[1..]) && invoices[0].amount >= 0
    ensures forall id :: HasInvoice(invoices, id) <==> invoices[0].id == id || HasInvoice(invoices[1..], id)
  {
    ListedIds(invoices);
    assert forall k :: 0 <= k < |invoices| - 1 ==> invoices[1..][k] == invoices[k + 1];
  }

  lemma ListedIds(invoices: seq<Invoice>)
    requires invoices != []
    ensures forall id :: HasInvoice(invoices, id) <==> invoices[0].id == id || HasInvoice(invoices[1..], id)
  {
    forall id ensures HasInvoice(invoices, id) <==> invoices[0].id == id || HasInvoice(invoices[1..], id) {
      if k :| 0 <= k < |invoices| && invoices[k].id == id {
        assert k > 0 ==> invoices[1..][k - 1] == invoices[k];
      }
      if k :| 0 <= k < |invoices| - 1 && invoices[1..][k].id == id {
        assert invoices[k + 1].id == id;
      }
    }
  }

  lemma {:induction false} ListedAmount(invoices: seq<Invoice>, amounts: map<int, int>, id: int, amount: int)
    requires HasInvoice(invoices, id) && id !in amounts
    ensures TotalOf(invoices, amounts[id := amount]) == TotalOf(invoices, amounts) + amount
  {
    ListedIds(invoices);
    if HasInvoice(invoices[1..], id) {
      ListedAmount(invoices[1..], amounts, id, amount);
    } else {
      UnlistedAmount(invoices[1..], amounts, id, amount);
    }
  }

  /** Nothing is lost in the pour: what the invoices gain is what `remaining` loses. */
  lemma {:induction false} PourConserves(invoices: seq<Invoice>, amounts: map<int, int>, remaining: int)
    requires NormalInvoices(invoices) && remaining >= 0
    ensures var p := Pour(invoices, amounts, remaining);
            && 0 <= p.remaining <= remaining
            && TotalOf(invoices, p.amounts) + p.remaining == TotalOf(invoices, amounts) + remaining
    decreases |invoices|
  {
    if invoices != [] {
      var i, rest := invoices[0], invoices[1..];
      TailInvoices(invoices);
      if i.id in amounts || remaining <= TOLERANCE {
        PourConserves(rest, amounts, remaining);
        PourKeeps(rest, amounts, remaining);
      } else {
        var share := Min(i.amount, remaining);
        var more := amounts[i.id := share];
        PourConserves(rest, more, remaining - share);
        PourKeeps(rest, more, remaining - share);
        if HasInvoice(rest, i.id) {
          ListedAmount(rest, amounts, i.id, share);
        } else {
          UnlistedAmount(rest, amounts, i.id, share);
        }
      }
    }
  }

  /** The pour ends within the tolerance exactly when the invoices can take what is left. */
  lemma {:induction false} PourSucceeds(invoices: seq<Invoice>, amounts: map<int, int>, remaining: int)
    requires NormalInvoices(invoices) && remaining >= 0
    ensures Pour(invoices, amounts, remaining).remaining <= TOLERANCE
       <==> remaining <= Available(invoices, amounts.Keys) + TOLERANCE
    decreases |invoices|
  {
    if invoices != [] {
      var i, rest := invoices[0], invoices[1..];
      TailInvoices(invoices);
      if i.id in amounts {
        PourSucceeds(rest, amounts, remaining);
      } else if remaining <= TOLERANCE {
        PourStops(rest, amounts, remaining);
        AvailableNonNegative(invoices, amounts.Keys);
      } else {
        var share := Min(i.amount, remaining);
        var more := amounts[i.id := share];
        assert more.Keys == amounts.Keys + {i.id};
        PourSucceeds(rest, more, remaining - share);
        AvailableNonNegative(rest, more.Keys);
      }
    }
  }

  lemma {:induction false} AvailableNonNegative(invoices: seq<Invoice>, taken: set<int>)
    requires NormalInvoices(invoices)
    ensures Available(invoices, taken) >= 0
  {
    if invoices != [] {
      TailInvoices(invoices);
      AvailableNonNegative(invoices[1..], if invoices[0].id in taken then taken else taken + {invoices[0].id});
    }
  }

  predicate HasRow(rows: seq<Row>, id: int) {
    exists k :: 0 <= k < |rows| && rows[k].invoice.id == id
  }

  /** The shares of the rows, of several rows of one invoice id only the last. */
  function CountedOnce(rows: seq<Row>): int {
    if rows == [] then 0
    else (if HasRow(rows[1..], rows[0].invoice.id) then 0 else rows[0].share) + CountedOnce(rows[1..])
  }

  lemma {:induction false} RowIds(invoices: seq<Invoice>, amounts: map<int, int>, id: int)
    ensures HasRow(Rows(invoices, amounts), id) <==> HasInvoice(invoices, id) && id in amounts
  {
    var rows := Rows(invoices, amounts);
    if j :| 0 <= j < |rows| && rows[j].invoice.id == id {
      RowOf(invoices, amounts, rows[j]);
    }
    if HasInvoice(invoices, id) && id in amounts {
      var k :| 0 <= k < |invoices| && invoices[k].id == id;
      var r := AllocationRow(invoices[k], amounts[id]);
      RowOf(invoices, amounts, r);
      var j :| 0 <= j < |rows| && rows[j] == r;
    }
  }

  lemma {:induction false} RowsTotal(invoices: seq<Invoice>, amounts: map<int, int>)
    ensures CountedOnce(Rows(invoices, amounts)) == TotalOf(invoices, amounts)
  {
    if invoices != [] {
      RowsTotal(invoices[1..], amounts);
      RowIds(invoices[1..], amounts, invoices[0].id);
      if invoices[0].id in amounts {
        assert Rows(invoices, amounts)[1..] == Rows(invoices[1..], amounts);
      } else {
        assert Rows(invoices, amounts) == Rows(invoices[1..], amounts);
      }
    }
  }

  /** The overrides of listed invoices count in full. */
  lemma {:induction false} OverridesCounted(overrides: seq<Override>, amounts: map<int, int>, invoices: seq<Invoice>)
    requires CheckOverrides(overrides, amounts).Ok?
    requires !AnyForged(overrides, invoices)
    ensures TotalOf(invoices, CheckOverrides(overrides, amounts).value) == TotalOf(invoices, amounts)
            + OverrideTotal(overrides)
  {
    if overrides != [] {
      var o := overrides[0];
      var more := amounts[o.id.value := o.amount.value];
      assert HasInvoice(invoices, Or(o.id, 0));
      assert forall k :: 0 <= k < |overrides| - 1 ==> overrides[1..][k] == overrides[k + 1];
      OverridesCounted(overrides[1..], more, invoices);
      ListedAmount(invoices, amounts, o.id.value, o.amount.value);
    }
  }

  lemma {:induction false} NothingAllocatedYet(invoices: seq<Invoice>)
    ensures TotalOf(invoices, map[]) == 0
  {
    if invoices != [] {
      NothingAllocatedYet(invoices[1..]);
    }
  }

  /** The allocations, one per invoice id, add up to the dispute amount within one cent. */
  lemma AllocationConserves(invoices: seq<Invoice>, disputeAmount: Option<int>, currency: int, overrides: seq<Override>)
    requires Allocate(invoices, disputeAmount, currency, overrides).Ok?
    ensures var r := Allocate(invoices, disputeAmount, currency, overrides).value;
            && disputeAmount.Some?
            && -1 <= CountedOnce(r.rows) - disputeAmount.value <= 1
            && r.totalDoNotPay + r.totalGetBack == TotalAllocated(r.rows)
  {
    var eligible := Eligible(invoices, currency);
    var checked := CheckOverrides(overrides, map[]).value;
    var rest := Max(0, disputeAmount.value - OverrideTotal(overrides));
    var amounts := Pour(eligible, checked, rest).amounts;
    EligibleAreNormal(invoices, currency);
    OverridesCounted(overrides, map[], eligible);
    NothingAllocatedYet(eligible);
    PourConserves(eligible, checked, rest);
    RowsTotal(eligible, amounts);
    SplitsAddUp(eligible, amounts);
  }

  ghost predicate NoNegative(amounts: map<int, int>) {
    forall id :: id in amounts ==> amounts[id] >= 0
  }

  lemma {:induction false} PourGivesNothingNegative(invoices: seq<Invoice>, amounts: map<int, int>, remaining: int)
    requires NormalInvoices(invoices) && remaining >= 0 && NoNegative(amounts)
    ensures NoNegative(Pour(invoices, amounts, remaining).amounts)
    decreases |invoices|
  {
    if invoices != [] {
      TailInvoices(invoices);
      var i := invoices[0];
      if i.id in amounts || remaining <= TOLERANCE {
        PourGivesNothingNegative(invoices[1..], amounts, remaining);
      } else {
        var share := Min(i.amount, remaining);
        PourGivesNothingNegative(invoices[1..], amounts[i.id := share], remaining - share);
      }
    }
  }

  lemma {:induction false} CheckedIsNotNegative(overrides: seq<Override>)
    requires CheckOverrides(overrides, map[]).Ok?
    ensures NoNegative(CheckOverrides(overrides, map[]).value)
  {
    OverridesAccepted(overrides, map[]);
    CheckedAmounts(overrides);
    var checked := CheckOverrides(overrides, map[]).value;
    forall id | id in checked ensures checked[id] >= 0 {
      var k :| 0 <= k < |overrides| && overrides[k].id == Some(id);
    }
  }

  // ----- the shares in closed form -----

  /** The place of the first invoice with the id. */
  function FirstWith(invoices: seq<Invoice>, id: int): (k: nat)
    requires HasInvoice(invoices, id)
    ensures k < |invoices| && invoices[k].id == id
    ensures forall j :: 0 <= j < k ==> invoices[j].id != id
  {
    if invoices[0].id == id then 0
    else
      ListedIds(invoices);
      1 + FirstWith(invoices[1..], id)
  }

  function OverrideOf(overrides: seq<Override>, id: int): Option<int> {
    if overrides == [] then None
    else if overrides[0].id == Some(id) then overrides[0].amount
    else OverrideOf(overrides[1..], id)
  }

  /** What the invoices before `k` leave of `rest`, if each takes all it can. */
  function LeftAt(invoices: seq<Invoice>, overrides: seq<Override>, rest: int, k: nat): int
    requires k <= |invoices|
  {
    rest - Available(invoices[..k], IdsOf(overrides))
  }

  /** The amount of an id: its override, else what the oldest invoice of the id can take of what the older
      ones leave; none if they leave at most a cent. */
  function ShareOf(invoices: seq<Invoice>, overrides: seq<Override>, rest: int, id: int): Option<int>
    requires HasInvoice(invoices, id)
  {
    if id in IdsOf(overrides) then OverrideOf(overrides, id)
    else
      var first := FirstWith(invoices, id);
      var left := LeftAt(invoices, overrides, rest, first);
      if left > TOLERANCE then Some(Min(invoices[first].amount, left)) else None
  }

  lemma {:induction false} OverrideOfListed(overrides: seq<Override>, k: nat)
    requires Usable(overrides) && k < |overrides|
    ensures OverrideOf(overrides, overrides[k].id.value) == overrides[k].amount
  {
    if k > 0 {
      var rest := overrides[1..];
      assert forall j :: 0 <= j < |rest| ==> rest[j] == overrides[j + 1];
      assert overrides[0].id != overrides[k].id;
      OverrideOfListed(rest, k - 1);
    }
  }

  lemma {:induction false} CheckedIsOverrideOf(overrides: seq<Override>, id: int)
    requires CheckOverrides(overrides, map[]).Ok? && id in IdsOf(overrides)
    ensures var m := CheckOverrides(overrides, map[]).value; id in m && OverrideOf(overrides, id) == Some(m[id])
  {
    OverridesAccepted(overrides, map[]);
    CheckedAmounts(overrides);
    var k :| 0 <= k < |overrides| && overrides[k].id == Some(id);
    OverrideOfListed(overrides, k);
  }

  /** What the pour gives to the first invoice of an id. */
  ghost predicate PoursShare(invoices: seq<Invoice>, amounts: map<int, int>, remaining: int, k: nat)
    requires k < |invoices|
  {
    var m, id, left := Pour(invoices, amounts, remaining).amounts, invoices[k].id,
        remaining - Available(invoices[..k], amounts.Keys);
    && (id in m <==> left > TOLERANCE)
    && (id in m ==> m[id] == Min(invoices[k].amount, left))
  }

  lemma {:induction false} AvailableTail(invoices: seq<Invoice>, k: nat, taken: set<int>)
    requires 0 < k <= |invoices|
    ensures Available(invoices[..k], taken)
         == if invoices[0].id in taken then Available(invoices[1..][..k - 1], taken)
            else invoices[0].amount + Available(invoices[1..][..k - 1], taken + {invoices[0].id})
  {
    assert invoices[..k][1..] == invoices[1..][..k - 1];
  }

  lemma PourFirst(invoices: seq<Invoice>, amounts: map<int, int>, remaining: int)
    requires NormalInvoices(invoices) && remaining >= 0 && invoices != [] && invoices[0].id !in amounts
    ensures PoursShare(invoices, amounts, remaining, 0)
  {
    assert invoices[..0] == [] && Available([], amounts.Keys) == 0;
    if remaining <= TOLERANCE {
      PourStops(invoices, amounts, remaining);
    } else {
      var share := Min(invoices[0].amount, remaining);
      var more := amounts[invoices[0].id := share];
      PourKeeps(invoices[1..], more, Max(0, remaining - share));
      assert Pour(invoices, amounts, remaining).amounts == Pour(invoices[1..], more, Max(0, remaining - share)).amounts;
    }
  }

  lemma {:induction false} PourShares(invoices: seq<Invoice>, amounts: map<int, int>, remaining: int, k: nat)
    requires NormalInvoices(invoices) && remaining >= 0 && k < |invoices| && invoices[k].id !in amounts
    requires forall j :: 0 <= j < k ==> invoices[j].id != invoices[k].id
    ensures PoursShare(invoices, amounts, remaining, k)
    decreases |invoices|
  {
    var i, rest := invoices[0], invoices[1..];
    TailInvoices(invoices);
    if k == 0 {
      PourFirst(invoices, amounts, remaining);
    } else {
      AvailableTail(invoices, k, amounts.Keys);
      assert rest[k - 1] == invoices[k];
      if i.id in amounts {
        PourShares(rest, amounts, remaining, k - 1);
      } else if remaining <= TOLERANCE {
        PourStops(invoices, amounts, remaining);
        PrefixAvailable(invoices, k, amounts.Keys);
      } else {
        var share := Min(i.amount, remaining);
        var more := amounts[i.id := share];
        assert more.Keys == amounts.Keys + {i.id};
        PourShares(rest, more, remaining - share, k - 1);
        PrefixAvailable(rest, k - 1, more.Keys);
      }
    }
  }

  lemma {:induction false} PrefixAvailable(invoices: seq<Invoice>, k: nat, taken: set<int>)
    requires NormalInvoices(invoices) && k <= |invoices|
    ensures Available(invoices[..k], taken) >= 0
  {
    assert forall j :: 0 <= j < k ==> invoices[..k][j] == invoices[j];
    AvailableNonNegative(invoices[..k], taken);
  }

  /** The allocated amounts are the shares of the closed form. */
  lemma {:induction false} AllocatedIsShare(eligible: seq<Invoice>, overrides: seq<Override>, rest: int, id: int)
    requires NormalInvoices(eligible) && rest >= 0 && CheckOverrides(overrides, map[]).Ok? && HasInvoice(eligible, id)
    ensures var m := Pour(eligible, CheckOverrides(overrides, map[]).value, rest).amounts;
            ShareOf(eligible, overrides, rest, id) == if id in m then Some(m[id]) else None
  {
    var checked := CheckOverrides(overrides, map[]).value;
    CheckedKeys(overrides);
    if id in IdsOf(overrides) {
      CheckedIsOverrideOf(overrides, id);
      PourKeeps(eligible, checked, rest);
    } else {
      PourShares(eligible, checked, rest, FirstWith(eligible, id));
    }
  }

  /** The rows of the closed form: every invoice of an id that gets an amount, in order. */
  function SharedRows(invoices: seq<Invoice>, all: seq<Invoice>, overrides: seq<Override>, rest: int): seq<Row>
    requires forall k :: 0 <= k < |invoices| ==> HasInvoice(all, invoices[k].id)
  {
    if invoices == [] then []
    else
      assert forall k :: 0 <= k < |invoices| - 1 ==> invoices[1..][k] == invoices[k + 1];
      var share := ShareOf(all, overrides, rest, invoices[0].id);
      (if share.Some? then [AllocationRow(invoices[0], share.value)] else [])
          + SharedRows(invoices[1..], all, overrides, rest)
  }

  lemma AllListed(invoices: seq<Invoice>)
    ensures forall k :: 0 <= k < |invoices| ==> HasInvoice(invoices, invoices[k].id)
  {
  }

  lemma {:induction false} RowsAreShared(invoices: seq<Invoice>, all: seq<Invoice>, overrides: seq<Override>, rest: int)
    requires NormalInvoices(all) && rest >= 0 && CheckOverrides(overrides, map[]).Ok?
    requires forall k :: 0 <= k < |invoices| ==> HasInvoice(all, invoices[k].id)
    ensures Rows(invoices, Pour(all, CheckOverrides(overrides, map[]).value, rest).amounts)
            == SharedRows(invoices, all, overrides, rest)
  {
    if invoices != [] {
      assert forall k :: 0 <= k < |invoices| - 1 ==> invoices[1..][k] == invoices[k + 1];
      AllocatedIsShare(all, overrides, rest, invoices[0].id);
      RowsAreShared(invoices[1..], all, overrides, rest);
    }
  }

  /** What the overrides leave of a dispute. */
  function RestOf(disputeAmount: int, overrides: seq<Override>): int {
    Max(0, disputeAmount - OverrideTotal(overrides))
  }

  /** The rows in closed form: no loop and no map, only totals of older invoices. */
  lemma {:induction false} AllocationInClosedForm(invoices: seq<Invoice>, disputeAmount: Option<int>, currency: int,
                                                  overrides: seq<Override>)
    requires Allocate(invoices, disputeAmount, currency, overrides).Ok?
    ensures var eligible := Eligible(invoices, currency);
            && (forall k :: 0 <= k < |eligible| ==> HasInvoice(eligible, eligible[k].id))
            && Allocate(invoices, disputeAmount, currency, overrides).value.rows
            == SharedRows(eligible, eligible, overrides, RestOf(disputeAmount.value, overrides))
  {
    var eligible := Eligible(invoices, currency);
    EligibleAreNormal(invoices, currency);
    AllListed(eligible);
    RowsAreShared(eligible, eligible, overrides, RestOf(disputeAmount.value, overrides));
  }

  // ----- repeated invoices -----

  predicate HasAmount(amounts: map<int, int>, id: int) {
    id in amounts && amounts[id] > 0
  }

  /** Some id with an amount above zero is listed again. */
  predicate ListedAgain(invoices: seq<Invoice>, amounts: map<int, int>) {
    && invoices != []
    && ((HasAmount(amounts, invoices[0].id) && HasInvoice(invoices[1..], invoices[0].id))
        || ListedAgain(invoices[1..], amounts))
  }

  lemma {:induction false} ListedAgainCounts(invoices: seq<Invoice>, amounts: map<int, int>)
    requires NoNegative(amounts)
    ensures var rows := Rows(invoices, amounts);
            && CountedOnce(rows) <= TotalAllocated(rows)
            && (CountedOnce(rows) < TotalAllocated(rows) <==> ListedAgain(invoices, amounts))
  {
    if invoices != [] {
      ListedAgainCounts(invoices[1..], amounts);
      RowIds(invoices[1..], amounts, invoices[0].id);
      if invoices[0].id in amounts {
        assert Rows(invoices, amounts)[1..] == Rows(invoices[1..], amounts);
      } else {
        assert Rows(invoices, amounts) == Rows(invoices[1..], amounts);
      }
    }
  }

  lemma {:induction false} ListedAgainIff(invoices: seq<Invoice>, amounts: map<int, int>)
    ensures ListedAgain(invoices, amounts) <==>
            exists j, k :: 0 <= j < k < |invoices| && invoices[j].id == invoices[k].id
                && HasAmount(amounts, invoices[j].id)
  {
    if invoices != [] {
      var rest := invoices[1..];
      ListedAgainIff(rest, amounts);
      assert forall k :: 0 <= k < |rest| ==> rest[k] == invoices[k + 1];
      if j, k :| 0 <= j < k < |invoices| && invoices[j].id == invoices[k].id && HasAmount(amounts, invoices[j].id) {
        assert rest[k - 1].id == invoices[k].id;
        assert j > 0 ==> rest[j - 1].id == invoices[j].id;
      }
      if j, k :| 0 <= j < k < |rest| && rest[j].id == rest[k].id && HasAmount(amounts, rest[j].id) {
        assert invoices[j + 1].id == invoices[k + 1].id && HasAmount(amounts, invoices[j + 1].id);
      }
      if HasInvoice(rest, invoices[0].id) {
        var k :| 0 <= k < |rest| && rest[k].id == invoices[0].id;
        assert invoices[k + 1].id == invoices[0].id;
      }
    }
  }

  /** An invoice that is listed again behind the first one of its id, and what the first one gets: an
      override above zero, or something of what the older invoices leave. */
  predicate RepeatedGets(eligible: seq<Invoice>, overrides: seq<Override>, rest: int) {
    exists f, k ::
      && 0 <= f < k < |eligible| && eligible[f].id == eligible[k].id
      && (forall j :: 0 <= j < f ==> eligible[j].id != eligible[f].id)
      && if eligible[f].id in IdsOf(overrides) then OverrideOf(overrides, eligible[f].id).Some?
      && OverrideOf(overrides, eligible[f].id).value > 0
         else eligible[f].amount > 0 && LeftAt(eligible, overrides, rest, f) > TOLERANCE
  }

  /** An id gets an amount above zero. */
  lemma {:induction false} HasAmountIff(eligible: seq<Invoice>, overrides: seq<Override>, rest: int, f: nat)
    requires NormalInvoices(eligible) && rest >= 0 && CheckOverrides(overrides, map[]).Ok? && f < |eligible|
    requires forall j :: 0 <= j < f ==> eligible[j].id != eligible[f].id
    ensures HasAmount(Pour(eligible, CheckOverrides(overrides, map[]).value, rest).amounts, eligible[f].id) <==>
            if eligible[f].id in IdsOf(overrides) then OverrideOf(overrides, eligible[f].id).Some?
                && OverrideOf(overrides, eligible[f].id).value > 0
            else eligible[f].amount > 0 && LeftAt(eligible, overrides, rest, f) > TOLERANCE
  {
    var id := eligible[f].id;
    assert HasInvoice(eligible, id);
    assert FirstWith(eligible, id) == f;
    AllocatedIsShare(eligible, overrides, rest, id);
  }

  lemma {:induction false} RepeatedGetsIff(eligible: seq<Invoice>, overrides: seq<Override>, rest: int)
    requires NormalInvoices(eligible) && rest >= 0 && CheckOverrides(overrides, map[]).Ok?
    ensures RepeatedGets(eligible, overrides, rest) <==>
            ListedAgain(eligible, Pour(eligible, CheckOverrides(overrides, map[]).value, rest).amounts)
  {
    var m := Pour(eligible, CheckOverrides(overrides, map[]).value, rest).amounts;
    ListedAgainIff(eligible, m);
    if ListedAgain(eligible, m) {
      var j, k :| 0 <= j < k < |eligible| && eligible[j].id == eligible[k].id && HasAmount(m, eligible[j].id);
      assert HasInvoice(eligible, eligible[j].id);
      var f := FirstWith(eligible, eligible[j].id);
      HasAmountIff(eligible, overrides, rest, f);
      assert f < k;
    }
    if RepeatedGets(eligible, overrides, rest) {
      var f, k :|
        && 0 <= f < k < |eligible| && eligible[f].id == eligible[k].id
        && (forall j :: 0 <= j < f ==> eligible[j].id != eligible[f].id)
        && if eligible[f].id in IdsOf(overrides) then OverrideOf(overrides, eligible[f].id).Some?
        && OverrideOf(overrides, eligible[f].id).value > 0
           else eligible[f].amount > 0 && LeftAt(eligible, overrides, rest, f) > TOLERANCE;
      HasAmountIff(eligible, overrides, rest, f);
    }
  }

  lemma {:induction false} RepeatedCounts(eligible: seq<Invoice>, overrides: seq<Override>, rest: int)
    requires NormalInvoices(eligible) && rest >= 0 && CheckOverrides(overrides, map[]).Ok?
    ensures var rows := Rows(eligible, Pour(eligible, CheckOverrides(overrides, map[]).value, rest).amounts);
            TotalAllocated(rows) == CountedOnce(rows) <==> !RepeatedGets(eligible, overrides, rest)
  {
    var checked := CheckOverrides(overrides, map[]).value;
    CheckedIsNotNegative(overrides);
    PourGivesNothingNegative(eligible, checked, rest);
    ListedAgainCounts(eligible, Pour(eligible, checked, rest).amounts);
    RepeatedGetsIff(eligible, overrides, rest);
  }

  /** The sum over all rows, which is what the totals add up to, is the sum over the invoice ids exactly
      unless an invoice is listed twice in the currency and gets something: every row of an id carries the
      amount of the id. */
  lemma RepeatedInvoiceCountsTwice(invoices: seq<Invoice>, disputeAmount: Option<int>, currency: int,
                                   overrides: seq<Override>)
    requires Allocate(invoices, disputeAmount, currency, overrides).Ok?
    ensures var rows := Allocate(invoices, disputeAmount, currency, overrides).value.rows;
            TotalAllocated(rows) == CountedOnce(rows) <==>
            !RepeatedGets(Eligible(invoices, currency), overrides, RestOf(disputeAmount.value, overrides))
  {
    EligibleAreNormal(invoices, currency);
    RepeatedCounts(Eligible(invoices, currency), overrides, RestOf(disputeAmount.value, overrides));
  }

  lemma TwiceInTwoRows(r: Row)
    ensures CountedOnce([r, r]) == r.share && TotalAllocated([r, r]) == r.share + r.share
  {
    assert [r, r][1..] == [r] && [r][1..] == [];
    assert [r][0].invoice.id == r.invoice.id;
    assert HasRow([r], r.invoice.id);
    assert !HasRow([], r.invoice.id);
    assert CountedOnce([r]) == r.share + CountedOnce([]);
    assert TotalAllocated([r]) == r.share + TotalAllocated([]);
  }

  /** It happens: a dispute of 100 cents over an invoice of 100 cents that is listed twice puts 200 cents
      into the rows. */
  lemma RepeatedInvoiceHappens()
    ensures var i := Invoice(1, None, None, None, 0, 100, 100, 100, 0);
            var r := Allocate([i, i], Some(100), 0, []);
            r.Ok? && CountedOnce(r.value.rows) == 100 && TotalAllocated(r.value.rows) == 200
  {
    var i := Invoice(1, None, None, None, 0, 100, 100, 100, 0);
    assert Map(Normalize, [i, i]) == [i, i];
    assert Insert(i, [i], Older) == [i, i];
    assert [i, i][1..] == [i] && [i][1..] == [];
    assert Sort([i], Older) == [i];
    assert Sort([i, i], Older) == [i, i];
    var p := (i: Invoice) => i.currency == 0;
    assert Filter(p, [i]) == [i] && Filter(p, [i, i]) == [i, i];
    assert Eligible([i, i], 0) == [i, i];
    var amounts := map[1 := 100];
    PourStops([i], amounts, 0);
    assert Pour([i, i], map[], 100) == Poured(amounts, 0);
    var r := AllocationRow(i, 100);
    assert Rows([i], amounts) == [r] && Rows([i, i], amounts) == [r, r];
    TwiceInTwoRows(r);
  }

  /** Invoices with ids of their own count once. */
  lemma DistinctInvoicesCountOnce(invoices: seq<Invoice>, disputeAmount: Option<int>, currency: int,
                                  overrides: seq<Override>)
    requires DistinctInvoices(invoices) && Allocate(invoices, disputeAmount, currency, overrides).Ok?
    ensures var rows := Allocate(invoices, disputeAmount, currency, overrides).value.rows;
            TotalAllocated(rows) == CountedOnce(rows)
  {
    EligibleAreDistinct(invoices, currency);
    RepeatedInvoiceCountsTwice(invoices, disputeAmount, currency, overrides);
  }

  lemma {:induction false} SplitsAddUp(invoices: seq<Invoice>, amounts: map<int, int>)
    ensures var rows := Rows(invoices, amounts);
            TotalDoNotPay(rows) + TotalGetBack(rows) == TotalAllocated(rows)
  {
    if invoices != [] {
      SplitsAddUp(invoices[1..], amounts);
      if invoices[0].id in amounts {
        assert Rows(invoices, amounts)[1..] == Rows(invoices[1..], amounts);
      } else {
        assert Rows(invoices, amounts) == Rows(invoices[1..], amounts);
      }
    }
  }

  // ----- rows -----

  /** A share is nobody's loss: what is withheld is still payable, what is claimed back was paid. */
  ghost predicate FairRow(r: Row, slack: int) {
    && r.share >= 0 && r.doNotPay >= 0 && r.getBack >= 0
    && r.doNotPay + r.getBack == r.share
    && r.doNotPay <= r.invoice.payable
    && r.getBack <= r.invoice.paid + slack
    && r.share <= r.invoice.amount + slack
    && (r.getBack > 0 ==> r.doNotPay == r.invoice.payable)
  }

  /** At most one listed invoice has the id. */
  ghost predicate Single(invoices: seq<Invoice>, id: int) {
    forall j, k :: 0 <= j < k < |invoices| && invoices[j].id == id ==> invoices[k].id != id
  }

  lemma TailSingle(invoices: seq<Invoice>, id: int)
    requires invoices != [] && Single(invoices, id)
    ensures Single(invoices[1..], id)
    ensures invoices[0].id == id ==> !HasInvoice(invoices[1..], id)
  {
    assert forall k :: 0 <= k < |invoices| - 1 ==> invoices[1..][k] == invoices[k + 1];
  }

  /** The row of an allocated invoice. */
  lemma {:induction false} RowOf(invoices: seq<Invoice>, amounts: map<int, int>, r: Row)
    ensures r in Rows(invoices, amounts)
       <==> exists k :: 0 <= k < |invoices| && invoices[k].id in amounts
                     && r == AllocationRow(invoices[k], amounts[invoices[k].id])
  {
    if invoices != [] {
      RowOf(invoices[1..], amounts, r);
      assert invoices == [invoices[0]] + invoices[1..];
      if r in Rows(invoices[1..], amounts) {
        var k :| 0 <= k < |invoices[1..]| && invoices[1..][k].id in amounts
              && r == AllocationRow(invoices[1..][k], amounts[invoices[1..][k].id]);
        assert invoices[k + 1] == invoices[1..][k];
      }
      if k :|
           0 <= k < |invoices| && invoices[k].id in amounts
           && r == AllocationRow(invoices[k], amounts[invoices[k].id]) {
        assert k > 0 ==> invoices[1..][k - 1] == invoices[k];
      }
    }
  }

  lemma {:induction false} AmountOfListed(invoices: seq<Invoice>, k: nat)
    requires k < |invoices| && Single(invoices, invoices[k].id)
    ensures InvoiceAmount(invoices, invoices[k].id) == invoices[k].amount
  {
    TailSingle(invoices, invoices[k].id);
    if k > 0 {
      assert invoices[1..][k - 1].id == invoices[k].id;
      AmountOfListed(invoices[1..], k - 1);
    }
  }

  /** What an accepted override gives to an invoice with its own id is at most a cent above its amount. */
  lemma {:induction false} CheckedIsCapped(overrides: seq<Override>, invoices: seq<Invoice>, k: nat)
    requires CheckOverrides(overrides, map[]).Ok? && !AnyTooLarge(overrides, invoices)
    requires k < |invoices| && Single(invoices, invoices[k].id)
    ensures var checked := CheckOverrides(overrides, map[]).value;
            invoices[k].id in checked ==> checked[invoices[k].id] <= invoices[k].amount + TOLERANCE
  {
    var checked := CheckOverrides(overrides, map[]).value;
    CheckedAmounts(overrides);
    if invoices[k].id in checked {
      var j :| 0 <= j < |overrides| && overrides[j].id == Some(invoices[k].id);
      AmountOfListed(invoices, k);
    }
  }

  lemma RowFairIff(i: Invoice, share: int, slack: int)
    requires 0 <= i.payable <= i.amount && i.paid == i.amount - i.payable && share >= 0 && slack >= 0
    ensures FairRow(AllocationRow(i, share), slack) <==> share <= i.amount + slack
  {
  }

  /** What may exceed an invoice: a cent, if its id is overridden. */
  function Slack(overrides: seq<Override>, id: int): int {
    if id in IdsOf(overrides) then TOLERANCE else 0
  }

  lemma {:induction false} SharesAreFair(eligible: seq<Invoice>, overrides: seq<Override>, rest: int, k: nat)
    requires NormalInvoices(eligible) && rest >= 0 && CheckOverrides(overrides, map[]).Ok?
             && !AnyTooLarge(overrides, eligible)
    requires k < |eligible| && HasInvoice(eligible, eligible[k].id)
             && ShareOf(eligible, overrides, rest, eligible[k].id).Some?
    ensures var i, share := eligible[k], ShareOf(eligible, overrides, rest, eligible[k].id).value;
            var slack := Slack(overrides, i.id);
            && (FairRow(AllocationRow(i, share), slack) <==> share <= i.amount + slack)
            && (i.id !in IdsOf(overrides) && FirstWith(eligible, i.id) == k ==> share <= i.amount)
            && (Single(eligible, i.id) ==> share <= i.amount + slack)
  {
    var i, share := eligible[k], ShareOf(eligible, overrides, rest, eligible[k].id).value;
    var checked := CheckOverrides(overrides, map[]).value;
    CheckedIsNotNegative(overrides);
    PourGivesNothingNegative(eligible, checked, rest);
    AllocatedIsShare(eligible, overrides, rest, i.id);
    RowFairIff(i, share, Slack(overrides, i.id));
    if i.id in IdsOf(overrides) && Single(eligible, i.id) {
      CheckedIsOverrideOf(overrides, i.id);
      CheckedIsCapped(overrides, eligible, k);
    }
    assert Single(eligible, i.id) ==> FirstWith(eligible, i.id) == k;
  }

  /** The row of every invoice whose id gets an amount splits it into a hold on what is still payable and a
      claim on what was paid. It is fair if and only if the share, which older invoices and overrides
      determine, stays within the invoice; so it is for the oldest invoice of an id and, up to a cent, for
      an override of an id that is listed once. */
  lemma RowsAreFair(invoices: seq<Invoice>, disputeAmount: Option<int>, currency: int, overrides: seq<Override>, k: nat)
    requires Allocate(invoices, disputeAmount, currency, overrides).Ok?
    requires k < |Eligible(invoices, currency)| && HasInvoice(Eligible(invoices, currency),
             Eligible(invoices, currency)[k].id)
    requires ShareOf(Eligible(invoices, currency), overrides, RestOf(disputeAmount.value, overrides),
             Eligible(invoices, currency)[k].id).Some?
    ensures var eligible := Eligible(invoices, currency);
            var i, share := eligible[k], ShareOf(eligible, overrides, RestOf(disputeAmount.value, overrides),
                eligible[k].id).value;
            var row, slack := AllocationRow(i, share), Slack(overrides, i.id);
            && row in Allocate(invoices, disputeAmount, currency, overrides).value.rows
            && (FairRow(row, slack) <==> share <= i.amount + slack)
            && ((i.id !in IdsOf(overrides) && FirstWith(eligible, i.id) == k) || Single(eligible, i.id) ==>
                FairRow(row, slack))
  {
    var eligible, rest := Eligible(invoices, currency), RestOf(disputeAmount.value, overrides);
    EligibleAreNormal(invoices, currency);
    SharesAreFair(eligible, overrides, rest, k);
    ShareHasRow(eligible, overrides, rest, k);
  }

  lemma {:induction false} ShareHasRow(eligible: seq<Invoice>, overrides: seq<Override>, rest: int, k: nat)
    requires NormalInvoices(eligible) && rest >= 0 && CheckOverrides(overrides, map[]).Ok?
    requires k < |eligible| && HasInvoice(eligible, eligible[k].id)
             && ShareOf(eligible, overrides, rest, eligible[k].id).Some?
    ensures AllocationRow(eligible[k], ShareOf(eligible, overrides, rest, eligible[k].id).value)
         in Rows(eligible, Pour(eligible, CheckOverrides(overrides, map[]).value, rest).amounts)
  {
    AllocatedIsShare(eligible, overrides, rest, eligible[k].id);
    RowOf(eligible, Pour(eligible, CheckOverrides(overrides, map[]).value, rest).amounts,
          AllocationRow(eligible[k], ShareOf(eligible, overrides, rest, eligible[k].id).value));
  }

  // ----- oldest first -----

  lemma {:induction false} PourOldestFirst(invoices: seq<Invoice>, amounts: map<int, int>, remaining: int, j: nat,
                                           k: nat)
    requires NormalInvoices(invoices) && remaining >= 0
    requires j < k < |invoices| && invoices[j].id !in amounts && invoices[k].id !in amounts
    requires Single(invoices, invoices[j].id) && Single(invoices, invoices[k].id)
    requires var m := Pour(invoices, amounts, remaining).amounts; invoices[k].id in m && m[invoices[k].id] > 0
    ensures var m := Pour(invoices, amounts, remaining).amounts;
            invoices[j].id in m && m[invoices[j].id] == invoices[j].amount
    decreases |invoices|
  {
    var i, rest := invoices[0], invoices[1..];
    TailInvoices(invoices);
    TailSingle(invoices, invoices[j].id);
    TailSingle(invoices, invoices[k].id);
    assert rest[k - 1] == invoices[k];
    assert j > 0 ==> rest[j - 1] == invoices[j] && i.id != invoices[j].id;
    if remaining <= TOLERANCE {
      PourStops(invoices, amounts, remaining);
    } else if i.id in amounts {
      PourOldestFirst(rest, amounts, remaining, j - 1, k - 1);
    } else {
      var share := Min(i.amount, remaining);
      var more := amounts[i.id := share];
      assert i.id != invoices[k].id;
      if j == 0 {
        PourKeeps(rest, more, remaining - share);
        if share < i.amount {
          PourStops(rest, more, remaining - share);
        }
      } else {
        PourOldestFirst(rest, more, remaining - share, j - 1, k - 1);
      }
    }
  }

  lemma {:induction false} PourStops(invoices: seq<Invoice>, amounts: map<int, int>, remaining: int)
    requires remaining <= TOLERANCE
    ensures Pour(invoices, amounts, remaining) == Poured(amounts, remaining)
  {
    if invoices != [] {
      PourStops(invoices[1..], amounts, remaining);
    }
  }

  lemma OlderDecidesPosition(s: seq<Invoice>, j: nat, k: nat)
    requires Sorted(s, Older) && j < |s| && k < |s| && j != k && Single(s, s[j].id) && Older(s[j], s[k])
    ensures j < k
  {
    if k < j {
      OlderTies(s[j], s[k]);
    }
  }

  lemma {:induction false} OldestFirstRows(eligible: seq<Invoice>, checked: map<int, int>, rest: int, older: Invoice,
                                           r: Row)
    requires NormalInvoices(eligible) && Sorted(eligible, Older) && rest >= 0
    requires Single(eligible, older.id) && Single(eligible, r.invoice.id)
    requires var amounts := Pour(eligible, checked, rest).amounts; r in Rows(eligible, amounts)
    requires older in eligible && older != r.invoice && Older(older, r.invoice)
    requires older.id !in checked && r.invoice.id !in checked && r.share > 0
    ensures AllocationRow(older, older.amount) in Rows(eligible, Pour(eligible, checked, rest).amounts)
  {
    var amounts := Pour(eligible, checked, rest).amounts;
    RowOf(eligible, amounts, r);
    var k :| 0 <= k < |eligible| && eligible[k].id in amounts
        && r == AllocationRow(eligible[k], amounts[eligible[k].id]);
    var j :| 0 <= j < |eligible| && eligible[j] == older;
    OlderDecidesPosition(eligible, j, k);
    PourOldestFirst(eligible, checked, rest, j, k);
    RowOf(eligible, amounts, AllocationRow(older, older.amount));
  }

  /** An invoice without an override gets money only after every older one without an override,
      in the same currency, is allocated in full; neither shares its id with another invoice. */
  lemma OldestFirstAllocation(invoices: seq<Invoice>, disputeAmount: Option<int>, currency: int,
                              overrides: seq<Override>,
                              older: Invoice, r: Row)
    requires Allocate(invoices, disputeAmount, currency, overrides).Ok?
    requires r in Allocate(invoices, disputeAmount, currency, overrides).value.rows
    requires older in Eligible(invoices, currency) && older != r.invoice && Older(older, r.invoice)
    requires Single(Eligible(invoices, currency), older.id) && Single(Eligible(invoices, currency), r.invoice.id)
    requires !Overridden(overrides, older.id) && !Overridden(overrides, r.invoice.id) && r.share > 0
    ensures AllocationRow(older, older.amount) in Allocate(invoices, disputeAmount, currency, overrides).value.rows
  {
    EligibleAreNormal(invoices, currency);
    EligibleSorted(invoices, currency);
    CheckedAmounts(overrides);
    OldestFirstRows(Eligible(invoices, currency), CheckOverrides(overrides, map[]).value,
                    Max(0, disputeAmount.value - OverrideTotal(overrides)), older, r);
  }

  lemma EligibleSorted(invoices: seq<Invoice>, currency: int)
    ensures Sorted(Eligible(invoices, currency), Older)
  {
    OlderIsPreorder();
    SortSorts(Map(Normalize, invoices), Older);
    FilterSorted((i: Invoice) => i.currency == currency, OldestFirst(invoices));
  }

  lemma {:induction false} FilterSorted(p: Invoice -> bool, s: seq<Invoice>)
    requires Sorted(s, Older)
    ensures Sorted(Filter(p, s), Older)
  {
    if s != [] {
      var rest := Filter(p, s[1..]);
      assert forall i, j :: 0 <= i < j < |s| - 1 ==> Older(s[1..][i], s[1..][j]) by {
        assert forall i :: 0 <= i < |s| - 1 ==> s[1..][i] == s[i + 1];
      }
      FilterSorted(p, s[1..]);
      FilterMembers(p, s[1..]);
      forall j | 0 <= j < |rest| ensures Older(s[0], rest[j]) {
        assert rest[j] in rest;
        var k :| 0 <= k < |s| - 1 && s[1..][k] == rest[j];
        assert Older(s[0], s[k + 1]);
      }
    }
  }

  // ----- oldest first, in terms of the invoices as they come in -----

  /** The first date is earlier; a missing one counts as the last day of the year 9999. */
  predicate EarlierDate(a: Option<int>, b: Option<int>) {
    a.Some? && (if b.Some? then a.value < b.value else a.value < 99991231)
  }

  /** The day an invoice was issued, else the day it was created. */
  function Issued(i: Invoice): Option<int> {
    if i.invoiceDate.Some? then i.invoiceDate else i.createdDate
  }

  /** The due date decides, then the day of issue, then the Id. */
  predicate ComesBefore(a: Invoice, b: Invoice) {
    || EarlierDate(a.dueDate, b.dueDate)
    || (a.dueDate == b.dueDate && EarlierDate(Issued(a), Issued(b)))
    || (a.dueDate == b.dueDate && Issued(a) == Issued(b) && a.id < b.id)
  }

  /** No other invoice of the currency has its Id. */
  predicate AloneIn(invoices: seq<Invoice>, currency: int, k: nat)
    requires k < |invoices|
  {
    && invoices[k].currency == currency
    && forall j :: 0 <= j < |invoices| && j != k && invoices[j].currency == currency ==>
         invoices[j].id != invoices[k].id
  }

  lemma {:induction false} SingleIff(s: seq<Invoice>, id: int)
    ensures Single(s, id) <==> |Filter((i: Invoice) => i.id == id, s)| <= 1
    ensures Filter((i: Invoice) => i.id == id, s) == [] <==> !HasInvoice(s, id)
  {
    if s != [] {
      SingleIff(s[1..], id);
      assert forall k :: 0 < k < |s| ==> s[k] == s[1..][k - 1];
      if Single(s, id) {
        TailSingle(s, id);
      }
      if HasInvoice(s[1..], id) {
        var k :| 0 <= k < |s[1..]| && s[1..][k].id == id;
        assert s[k + 1].id == id;
      }
    }
  }

  lemma SamePermuted(a: seq<Invoice>, b: seq<Invoice>, id: int)
    requires multiset(a) == multiset(b)
    ensures Single(a, id) <==> Single(b, id)
  {
    var p := (i: Invoice) => i.id == id;
    FilterPermutes(p, a, b);
    assert |multiset(Filter(p, a))| == |multiset(Filter(p, b))|;
    SingleIff(a, id);
    SingleIff(b, id);
  }

  lemma {:induction false} AloneIsSingle(invoices: seq<Invoice>, currency: int, k: nat)
    requires k < |invoices| && AloneIn(invoices, currency, k)
    ensures Single(Filter((i: Invoice) => i.currency == currency, invoices), invoices[k].id)
  {
    var own := (i: Invoice) => i.currency == currency;
    var id, rest := invoices[k].id, invoices[1..];
    assert forall j :: 0 < j < |invoices| ==> invoices[j] == rest[j - 1];
    FilterMembers(own, rest);
    if k == 0 {
      var others := Filter(own, rest);
      forall j | 0 <= j < |others| ensures others[j].id != id {
        assert others[j] in rest;
        var m :| 0 <= m < |rest| && rest[m] == others[j];
        assert invoices[m + 1] == others[j];
      }
    } else {
      assert invoices[0].currency == currency ==> invoices[0].id != id;
      AloneIsSingle(rest, currency, k - 1);
      assert rest[k - 1] == invoices[k];
    }
  }

  lemma {:induction false} NormalizedSingle(s: seq<Invoice>, id: int)
    requires Single(s, id)
    ensures Single(Map(Normalize, s), id)
  {
    forall j, k | 0 <= j < k < |s| && Map(Normalize, s)[j].id == id ensures Map(Normalize, s)[k].id != id {
      assert s[j].id == id;
    }
  }

  lemma SingleEligible(invoices: seq<Invoice>, currency: int, k: nat)
    requires k < |invoices| && AloneIn(invoices, currency, k)
    ensures Single(Eligible(invoices, currency), invoices[k].id)
    ensures Normalize(invoices[k]) in Eligible(invoices, currency)
    ensures forall i :: i in Eligible(invoices, currency) && i.id == invoices[k].id ==> i == Normalize(invoices[k])
  {
    EligibleMembers(invoices, currency);
    EligibleInvoices(invoices, currency);
    AloneIsSingle(invoices, currency, k);
    var own := Filter((i: Invoice) => i.currency == currency, invoices);
    NormalizedSingle(own, invoices[k].id);
    SamePermuted(Eligible(invoices, currency), Map(Normalize, own), invoices[k].id);
    forall i | i in Eligible(invoices, currency) && i.id == invoices[k].id ensures i == Normalize(invoices[k]) {
      var j :| 0 <= j < |invoices| && invoices[j].currency == currency && i == Normalize(invoices[j]);
    }
  }

  lemma BeforeIsOlder(a: Invoice, b: Invoice)
    requires ComesBefore(a, b)
    ensures Older(Normalize(a), Normalize(b)) && Normalize(a) != Normalize(b)
  {
    var x, y := Normalize(a), Normalize(b);
    assert IssueDate(x) == Or(Issued(a), FAR_FUTURE) && IssueDate(y) == Or(Issued(b), FAR_FUTURE);
    assert x.dueDate == a.dueDate && y.dueDate == b.dueDate && x.id == a.id && y.id == b.id;
  }

  /** The row of an invoice that is allocated in full: its amount, of which the payable part is held. */
  predicate FullRow(r: Row, i: Invoice) {
    && r.invoice.id == i.id
    && r.share == (if i.amount > 0 then i.amount else 0)
    && r.doNotPay == (if i.rawPayable <= 0 || i.amount <= 0 then 0
                      else if i.rawPayable < i.amount then i.rawPayable else i.amount)
    && r.getBack == r.share - r.doNotPay
  }

  /** Of two invoices with Ids of their own and no override, the one with the later due date gets money only
      if the other one is allocated in full; with equal due dates the day of issue decides, and then the
      Id. */
  lemma OldestDueFirst(invoices: seq<Invoice>, disputeAmount: Option<int>, currency: int, overrides: seq<Override>,
                       a: nat, b: nat, r: Row)
    requires Allocate(invoices, disputeAmount, currency, overrides).Ok?
    requires a < |invoices| && b < |invoices| && ComesBefore(invoices[a], invoices[b])
    requires AloneIn(invoices, currency, a) && AloneIn(invoices, currency, b)
    requires forall k :: 0 <= k < |overrides| ==> overrides[k].id !in {Some(invoices[a].id), Some(invoices[b].id)}
    requires r in Allocate(invoices, disputeAmount, currency, overrides).value.rows
    requires r.invoice.id == invoices[b].id && r.share > 0
    ensures exists full :: full in Allocate(invoices, disputeAmount, currency, overrides).value.rows
              && FullRow(full, invoices[a])
  {
    var older := Normalize(invoices[a]);
    SingleEligible(invoices, currency, a);
    SingleEligible(invoices, currency, b);
    RowOf(Eligible(invoices, currency), Pour(Eligible(invoices, currency), CheckOverrides(overrides, map[]).value,
        Max(0, disputeAmount.value - OverrideTotal(overrides))).amounts, r);
    BeforeIsOlder(invoices[a], invoices[b]);
    OldestFirstAllocation(invoices, disputeAmount, currency, overrides, older, r);
    assert FullRow(AllocationRow(older, older.amount), invoices[a]);
  }

  // ----- success and failure -----

  ghost predicate AcceptableOverrides(overrides: seq<Override>, eligible: seq<Invoice>, amount: int) {
    && Usable(overrides)
    && !AnyForged(overrides, eligible)
    && !AnyTooLarge(overrides, eligible)
    && OverrideTotal(overrides) <= amount + 1
  }

  function IdsOf(overrides: seq<Override>): set<int> {
    set k | 0 <= k < |overrides| && overrides[k].id.Some? :: overrides[k].id.value
  }

  lemma {:induction false} CheckedKeys(overrides: seq<Override>)
    requires CheckOverrides(overrides, map[]).Ok?
    ensures CheckOverrides(overrides, map[]).value.Keys == IdsOf(overrides)
  {
    var checked := CheckOverrides(overrides, map[]).value;
    CheckedAmounts(overrides);
    forall id ensures id in checked <==> id in IdsOf(overrides) {
      if id in checked {
        var k :| 0 <= k < |overrides| && overrides[k].id == Some(id);
      }
    }
  }

  lemma {:induction false} UsableAreAccepted(overrides: seq<Override>)
    ensures CheckOverrides(overrides, map[]).Ok? <==> Usable(overrides)
  {
    OverridesAccepted(overrides, map[]);
  }

  lemma {:induction false} OverridesLeaveRoom(eligible: seq<Invoice>, overrides: seq<Override>, rest: int)
    requires NormalInvoices(eligible) && CheckOverrides(overrides, map[]).Ok?
    ensures Pour(eligible, CheckOverrides(overrides, map[]).value, Max(0, rest)).remaining <= TOLERANCE
       <==> rest <= Available(eligible, IdsOf(overrides)) + TOLERANCE
  {
    CheckedKeys(overrides);
    AvailableNonNegative(eligible, IdsOf(overrides));
    PourSucceeds(eligible, CheckOverrides(overrides, map[]).value, Max(0, rest));
  }

  /** The allocation succeeds exactly when the amount and the overrides are acceptable and the
      invoices without an override can take what the overrides leave, give or take a cent. */
  lemma {:induction false} AllocationSucceeds(invoices: seq<Invoice>, disputeAmount: Option<int>, currency: int,
                                              overrides: seq<Override>)
    ensures Allocate(invoices, disputeAmount, currency, overrides).Ok?
       <==> && disputeAmount.Some? && disputeAmount.value >= 0
            && AcceptableOverrides(overrides, Eligible(invoices, currency), disputeAmount.value)
            && disputeAmount.value - OverrideTotal(overrides)
                 <= Available(Eligible(invoices, currency), IdsOf(overrides)) + 1
  {
    UsableAreAccepted(overrides);
    if disputeAmount.Some? && CheckOverrides(overrides, map[]).Ok? {
      assert NormalInvoices(Eligible(invoices, currency)) by {
        EligibleAreNormal(invoices, currency);
      }
      OverridesLeaveRoom(Eligible(invoices, currency), overrides, disputeAmount.value - OverrideTotal(overrides));
    }
  }

  // ----- input order -----

  lemma {:induction false} OverrideTotalPermutes(a: seq<Override>, b: seq<Override>)
    requires multiset(a) == multiset(b)
    ensures OverrideTotal(a) == OverrideTotal(b)
  {
    if a == [] {
      assert |multiset(b)| == 0;
    } else {
      assert a[0] in multiset(b);
      var k :| 0 <= k < |b| && b[k] == a[0];
      WithoutAt(b, k);
      TailMultiset(a);
      OverrideTotalPermutes(a[1..], b[..k] + b[k + 1..]);
      OverrideTotalSplit(b, k);
    }
  }

  lemma {:induction false} OverrideTotalSplit(b: seq<Override>, k: nat)
    requires k < |b|
    ensures OverrideTotal(b) == Or(b[k].amount, 0) + OverrideTotal(b[..k] + b[k + 1..])
  {
    if k == 0 {
      assert b[..0] + b[1..] == b[1..];
    } else {
      OverrideTotalSplit(b[1..], k - 1);
      assert (b[..k] + b[k + 1..])[1..] == b[1..][..k - 1] + b[1..][k..];
    }
  }

  lemma UsablePermutes(a: seq<Override>, b: seq<Override>)
    requires multiset(a) == multiset(b) && Usable(a)
    ensures Usable(b)
  {
    forall k | 0 <= k < |b| ensures b[k].id.Some? && b[k].amount.Some? && b[k].amount.value >= 0 {
      assert b[k] in multiset(a);
    }
    PermutationKeepsDistinct(a, b, (o: Override) => o.id);
  }

  lemma {:induction false} CheckedPermutes(a: seq<Override>, b: seq<Override>)
    requires multiset(a) == multiset(b) && CheckOverrides(a, map[]).Ok?
    ensures CheckOverrides(b, map[]) == CheckOverrides(a, map[])
  {
    OverridesAccepted(a, map[]);
    UsablePermutes(a, b);
    OverridesAccepted(b, map[]);
    CheckedAmounts(a);
    CheckedAmounts(b);
    var m, n := CheckOverrides(a, map[]).value, CheckOverrides(b, map[]).value;
    SameMembers(a, b);
    forall id ensures Overridden(a, id) <==> Overridden(b, id) {
      if Overridden(a, id) {
        var k :| 0 <= k < |a| && a[k].id == Some(id);
        assert a[k] in b;
      }
      if Overridden(b, id) {
        var k :| 0 <= k < |b| && b[k].id == Some(id);
        assert b[k] in a;
      }
    }
    assert forall id :: id in m <==> id in n;
    forall id | id in m ensures m[id] == n[id] {
      var k :| 0 <= k < |a| && a[k].id == Some(id);
      assert a[k] in b;
      var j :| 0 <= j < |b| && b[j] == a[k];
    }
    assert m == n;
  }

  lemma SameMembers<T>(a: seq<T>, b: seq<T>)
    requires multiset(a) == multiset(b)
    ensures forall x | x in a :: x in b
    ensures forall x | x in b :: x in a
  {
    forall x | x in a ensures x in b {
      assert x in multiset(a);
    }
    forall x | x in b ensures x in a {
      assert x in multiset(b);
    }
  }

  lemma OlderTies(x: Invoice, y: Invoice)
    requires Older(x, y) && Older(y, x)
    ensures x.id == y.id
  {
  }

  /** Two invoices with the same dates and the same id are the same. */
  ghost predicate TiesAgree(invoices: seq<Invoice>) {
    Antisymmetric(Map(Normalize, invoices), Older)
  }

  lemma DistinctTiesAgree(a: seq<Invoice>)
    requires DistinctInvoices(a)
    ensures TiesAgree(a)
  {
    var normal := Map(Normalize, a);
    forall x, y | x in normal && y in normal && Older(x, y) && Older(y, x) ensures x == y {
      var j :| 0 <= j < |a| && normal[j] == x;
      var k :| 0 <= k < |a| && normal[k] == y;
      OlderTies(x, y);
      SameKeySamePlace(a, (i: Invoice) => i.id, j, k);
    }
  }

  /** The order of the invoices does not show in the oldest-first list. */
  lemma EligiblePermutes(a: seq<Invoice>, b: seq<Invoice>, currency: int)
    requires multiset(a) == multiset(b) && TiesAgree(a)
    ensures Eligible(a, currency) == Eligible(b, currency)
  {
    OlderIsPreorder();
    MapPermutes(Normalize, a, b);
    SortIgnoresOrder(Map(Normalize, a), Map(Normalize, b), Older);
  }

  lemma OverrideChecksPermute(a: seq<Override>, b: seq<Override>, eligible: seq<Invoice>)
    requires multiset(a) == multiset(b)
    requires !AnyForged(a, eligible) && !AnyTooLarge(a, eligible)
    ensures !AnyForged(b, eligible) && !AnyTooLarge(b, eligible)
  {
    SameMembers(a, b);
    forall k | 0 <= k < |b|
      ensures HasInvoice(eligible, Or(b[k].id, 0))
      ensures Or(b[k].amount, 0) <= InvoiceAmount(eligible, Or(b[k].id, 0)) + TOLERANCE
    {
      assert b[k] in a;
      var j :| 0 <= j < |a| && a[j] == b[k];
    }
  }

  lemma OverrideOrderDoesNotShow(invoices: seq<Invoice>, disputeAmount: Option<int>, currency: int,
                                 overrides: seq<Override>, shuffled: seq<Override>)
    requires multiset(overrides) == multiset(shuffled)
    requires Allocate(invoices, disputeAmount, currency, overrides).Ok?
    ensures Allocate(invoices, disputeAmount, currency, shuffled)
            == Allocate(invoices, disputeAmount, currency, overrides)
  {
    var eligible := Eligible(invoices, currency);
    assert CheckOverrides(shuffled, map[]) == CheckOverrides(overrides, map[]) by {
      CheckedPermutes(overrides, shuffled);
    }
    assert !AnyForged(shuffled, eligible) && !AnyTooLarge(shuffled, eligible) by {
      OverrideChecksPermute(overrides, shuffled, eligible);
    }
    OverrideTotalPermutes(overrides, shuffled);
  }

  /** Neither the order of the invoices nor the order of the overrides changes the allocation, so
      the fingerprint, which is a text of the allocation, does not change either. */
  lemma InputOrderDoesNotShow(invoices: seq<Invoice>, reordered: seq<Invoice>, disputeAmount: Option<int>,
                              currency: int,
                              overrides: seq<Override>, shuffled: seq<Override>)
    requires TiesAgree(invoices) || DistinctInvoices(invoices)
    requires multiset(invoices) == multiset(reordered) && multiset(overrides) == multiset(shuffled)
    requires Allocate(invoices, disputeAmount, currency, overrides).Ok?
    ensures Allocate(reordered, disputeAmount, currency, shuffled)
            == Allocate(invoices, disputeAmount, currency, overrides)
  {
    assert Eligible(invoices, currency) == Eligible(reordered, currency) by {
      if DistinctInvoices(invoices) {
        DistinctTiesAgree(invoices);
      }
      EligiblePermutes(invoices, reordered, currency);
    }
    OverrideOrderDoesNotShow(invoices, disputeAmount, currency, overrides, shuffled);
    SameEligible(invoices, reordered, disputeAmount, currency, shuffled);
  }

  /** The allocation sees the invoices only through the oldest-first list. */
  lemma SameEligible(a: seq<Invoice>, b: seq<Invoice>, disputeAmount: Option<int>, currency: int,
                     overrides: seq<Override>)
    requires Eligible(a, currency) == Eligible(b, currency)
    ensures Allocate(a, disputeAmount, currency, overrides) == Allocate(b, disputeAmount, currency, overrides)
  {
  }

  // ----- accounting instructions -----

  datatype InstructionType = WithholdUnpaid | GetBackPaid

  datatype Instruction = Instruction(invoiceId: int, kind: InstructionType, planned: int, share: int)

  function RowInstructions(r: Row): seq<Instruction> {
    (if r.doNotPay > TOLERANCE then [Instruction(r.invoice.id, WithholdUnpaid, r.doNotPay, r.share)] else [])
    + (if r.getBack > TOLERANCE then [Instruction(r.invoice.id, GetBackPaid, r.getBack, r.share)] else [])
  }

  function Instructions(rows: seq<Row>): seq<Instruction> {
    if rows == [] then [] else RowInstructions(rows[0]) + Instructions(rows[1..])
  }

  method SupplierInstructionRows(rows: seq<Row>) returns (instructions: seq<Instruction>)
    ensures instructions == Instructions(rows)
  {
    instructions := [];
    var k := 0;
    while k < |rows|
      invariant 0 <= k <= |rows|
      invariant instructions + Instructions(rows[k..]) == Instructions(rows)
    {
      var item := rows[k];
      assert rows[k..][1..] == rows[k + 1..];
      ghost var before := instructions;
      if item.doNotPay > TOLERANCE {
        instructions := instructions + [Instruction(item.invoice.id, WithholdUnpaid, item.doNotPay, item.share)];
      }
      if item.getBack > TOLERANCE {
        instructions := instructions + [Instruction(item.invoice.id, GetBackPaid, item.getBack, item.share)];
      }
      assert instructions == before + RowInstructions(item);
      Regroup(before, RowInstructions(item), Instructions(rows[k + 1..]));
      k := k + 1;
    }
    assert rows[k..] == [];
    assert instructions + [] == instructions;
  }

  function Planned(instructions: seq<Instruction>, id: int, kind: InstructionType): int {
    if instructions == [] then 0
    else
      (if instructions[0].invoiceId == id && instructions[0].kind == kind then instructions[0].planned else 0) +
      Planned(instructions[1..], id, kind)
  }

  lemma {:induction false} PlannedAppend(a: seq<Instruction>, b: seq<Instruction>, id: int, kind: InstructionType)
    ensures Planned(a + b, id, kind) == Planned(a, id, kind) + Planned(b, id, kind)
  {
    if a == [] {
      assert a + b == b;
    } else {
      PlannedAppend(a[1..], b, id, kind);
      assert (a + b)[1..] == a[1..] + b;
    }
  }

  function AboveTolerance(amount: int): int { if amount > 1 then amount else 0 }

  function AmountOf(r: Row, kind: InstructionType): int {
    if kind.WithholdUnpaid? then r.doNotPay else r.getBack
  }

  /** The holds, or the claims, of an invoice id, leaving out parts of at most one cent. */
  function Due(rows: seq<Row>, id: int, kind: InstructionType): int {
    if rows == [] then 0
    else (if rows[0].invoice.id == id then AboveTolerance(AmountOf(rows[0], kind)) else 0) + Due(rows[1..], id, kind)
  }

  /** For every invoice id the instructions carry its holds and its claims to the cent, each unless it is
      at most one cent, and nothing else. */
  lemma {:induction false} InstructionsAccount(rows: seq<Row>, id: int, kind: InstructionType)
    ensures Planned(Instructions(rows), id, kind) == Due(rows, id, kind)
  {
    if rows != [] {
      PlannedAppend(RowInstructions(rows[0]), Instructions(rows[1..]), id, kind);
      InstructionsAccount(rows[1..], id, kind);
    }
  }
}
