/** The bridge from the used credit that Salesforce reports to what the buyer receivables and the
    supplier payables explain. Evidence rows repeat; every keyed obligation counts once. Money is in
    whole cents, so the half-cent tolerance is zero and rounding to cents changes nothing. */
module UsedCreditBridge {
  import opened Options
  import opened Sorting

  datatype RecordType = SupplierInvoice | SupplierPayment | Other

  /** Ids are texts of one space, by number. `place` stands for the account and the STEM of the row. */
  datatype Evidence = Evidence(
    place: int, currency: Option<int>, recordType: RecordType,
    gross: Option<int>, balance: Option<int>, paid: Option<int>,
    invoiceId: Option<int>, lineItemId: Option<int>, extraCostId: Option<int>, cashflowId: Option<int>,
        paymentId: Option<int>)

  datatype GroupKey = GroupKey(place: int, currency: int)

  /** The text that marks an obligation as counted: an Id, or a name made up from the row's group and
      its number in the group. */
  datatype Mark = Id(id: int) | MadeUp(group: GroupKey, number: nat)

  datatype Kind = Gross | Balance | Payment

  /** An amount that one row claims in one group. */
  datatype Claim = Claim(group: GroupKey, id: Option<int>, amount: int)

  function First(a: Option<int>, b: Option<int>): Option<int> {
    if a.Some? then a else b
  }

  function NonZero(amount: Option<int>): bool {
    amount.Some? && amount.value != 0
  }

  predicate Active(row: Evidence) {
    NonZero(row.gross) || NonZero(row.balance) || NonZero(row.paid)
  }

  function GroupKeyOf(row: Evidence, currency: int): GroupKey {
    GroupKey(row.place, if row.currency.Some? then row.currency.value else currency)
  }

  function InvoiceMark(row: Evidence): Option<int> {
    First(row.invoiceId, First(row.lineItemId, First(row.extraCostId, row.cashflowId)))
  }

  /** What a row claims: nothing, or one amount. */
  function ClaimOf(row: Evidence, kind: Kind, currency: int): seq<Claim> {
    match kind
    case Gross =>
      if row.recordType == SupplierInvoice && NonZero(row.gross)
      then [Claim(GroupKeyOf(row, currency), InvoiceMark(row), row.gross.value)] else []
    case Balance =>
      if row.recordType == SupplierInvoice && NonZero(row.balance)
      then [Claim(GroupKeyOf(row, currency), InvoiceMark(row), row.balance.value)] else []
    case Payment =>
      if row.recordType == SupplierPayment && NonZero(row.paid)
      then [Claim(GroupKeyOf(row, currency), First(row.paymentId, row.cashflowId), row.paid.value)] else []
  }

  function Claims(rows: seq<Evidence>, kind: Kind, currency: int): seq<Claim> {
    if rows == [] then [] else Claims(rows[..|rows| - 1], kind, currency) + ClaimOf(rows[|rows| - 1], kind, currency)
  }

  // ----- counting once -----

  /** The claims that count: without an Id always, with an Id the first time it is seen. */
  function Keep(claims: seq<Claim>, seen: set<int>): seq<Claim> {
    if claims == [] then []
    else
      var c := claims[0];
      if c.id.None? then [c] + Keep(claims[1..], seen)
      else if c.id.value in seen then Keep(claims[1..], seen)
      else [c] + Keep(claims[1..], seen + {c.id.value})
  }

  function Ids(claims: seq<Claim>): set<int> {
    set c | c in claims && c.id.Some? :: c.id.value
  }

  function Sum(claims: seq<Claim>): int {
    if claims == [] then 0 else claims[0].amount + Sum(claims[1..])
  }

  function SumIn(claims: seq<Claim>, group: GroupKey): int {
    if claims == [] then 0 else (if claims[0].group == group then claims[0].amount else 0) + SumIn(claims[1..], group)
  }

  function Counted(rows: seq<Evidence>, kind: Kind, currency: int): seq<Claim> {
    Keep(Claims(rows, kind, currency), {})
  }

  lemma {:induction false} SumAppend(a: seq<Claim>, b: seq<Claim>, group: GroupKey)
    ensures Sum(a + b) == Sum(a) + Sum(b)
    ensures SumIn(a + b, group) == SumIn(a, group) + SumIn(b, group)
  {
    if a == [] {
      assert a + b == b;
    } else {
      assert (a + b)[1..] == a[1..] + b;
      SumAppend(a[1..], b, group);
    }
  }

  lemma IdsAppend(a: seq<Claim>, b: seq<Claim>)
    ensures Ids(a + b) == Ids(a) + Ids(b)
  {
    assert forall c :: c in a + b <==> c in a || c in b;
  }

  lemma {:induction false} KeepAppend(a: seq<Claim>, b: seq<Claim>, seen: set<int>)
    ensures Keep(a + b, seen) == Keep(a, seen) + Keep(b, seen + Ids(a))
  {
    if a == [] {
      assert a + b == b;
      assert seen + Ids(a) == seen;
    } else {
      var c, rest := a[0], a[1..];
      var now := if c.id.Some? then seen + {c.id.value} else seen;
      assert (a + b)[0] == c && (a + b)[1..] == rest + b;
      KeepAppend(rest, b, now);
      assert a == [c] + rest;
      IdsAppend([c], rest);
      assert Ids([c]) == if c.id.Some? then {c.id.value} else {};
      assert seen + Ids(a) == now + Ids(rest);
      if c.id.Some? && c.id.value in seen {
        assert now == seen;
      } else {
        Regroup([c], Keep(rest, now), Keep(b, now + Ids(rest)));
      }
    }
  }

  lemma {:induction false} OneClaim(c: Claim, seen: set<int>, group: GroupKey)
    ensures var counts := c.id.None? || c.id.value !in seen;
            && Keep([c], seen) == (if counts then [c] else [])
            && Sum(Keep([c], seen)) == (if counts then c.amount else 0)
            && SumIn(Keep([c], seen), group) == (if counts && c.group == group then c.amount else 0)
  {
    assert [c][1..] == [];
  }

  // ----- the groups -----

  datatype Group = Group(gross: int, balance: int, paid: int, count: nat)

  const NO_GROUP := Group(0, 0, 0, 0)

  function CountIn(rows: seq<Evidence>, group: GroupKey, currency: int): nat {
    if rows == [] then 0
    else CountIn(rows[..|rows| - 1], group, currency) + if GroupKeyOf(rows[|rows| - 1], currency) == group then 1 else 0
  }

  function GroupKeys(rows: seq<Evidence>, currency: int): seq<GroupKey> {
    if rows == [] then []
    else
      var before, key := GroupKeys(rows[..|rows| - 1], currency), GroupKeyOf(rows[|rows| - 1], currency);
      if key in before then before else before + [key]
  }

  function GroupOf(rows: seq<Evidence>, group: GroupKey, currency: int): Group {
    Group(SumIn(Counted(rows, Gross, currency), group), SumIn(Counted(rows, Balance, currency), group),
          SumIn(Counted(rows, Payment, currency), group), CountIn(rows, group, currency))
  }

  /** The marks in use are the Ids seen so far and names whose number is already taken. */
  ghost predicate MarksFit(marks: set<Mark>, claims: seq<Claim>, rows: seq<Evidence>, currency: int) {
    && (forall id :: Id(id) in marks <==> id in Ids(claims))
    && (forall g: GroupKey, n: nat :: MadeUp(g, n) in marks ==> n <= CountIn(rows, g, currency))
  }

  // ----- marks as texts -----

  const SEPARATOR: char := ':'

  function KindName(kind: Kind): string {
    match kind
    case Gross => "gross"
    case Balance => "balance"
    case Payment => "payment"
  }

  /** The texts that the source writes into a mark. */
  datatype Names = Names(id: int -> string, place: int -> string, currency: int -> string, number: nat -> string)

  ghost predicate Distinguishes<A(!new)>(name: A -> string) {
    forall a, b :: name(a) == name(b) ==> a == b
  }

  ghost predicate WithoutSeparator<A(!new)>(name: A -> string) {
    forall a :: SEPARATOR !in name(a)
  }

  /** Different things have different names, and only the name of a place holds a separator. */
  ghost predicate ProperNames(names: Names) {
    && Distinguishes(names.id) && Distinguishes(names.place) && Distinguishes(names.currency)
    && Distinguishes(names.number)
    && WithoutSeparator(names.id) && WithoutSeparator(names.currency) && WithoutSeparator(names.number)
  }

  function MarkText(mark: Mark, kind: Kind, names: Names): string {
    match mark
    case Id(id) => names.id(id)
    case MadeUp(group, number) =>
      names.place(group.place) + [SEPARATOR] + names.currency(group.currency) + [SEPARATOR] + KindName(kind)
          + [SEPARATOR] + names.number(number)
  }

  lemma LastPart(a: string, x: string, b: string, y: string)
    requires SEPARATOR !in x && SEPARATOR !in y && a + [SEPARATOR] + x == b + [SEPARATOR] + y
    ensures a == b && x == y
  {
    var t := a + [SEPARATOR] + x;
    assert t[|a|] == SEPARATOR && t[|b|] == SEPARATOR;
    assert forall k :: |a| < k < |t| ==> t[k] == x[k - |a| - 1];
    assert forall k :: |b| < k < |t| ==> t[k] == y[k - |b| - 1];
    assert a == t[..|a|] && b == t[..|b|] && x == t[|a| + 1..] && y == t[|b| + 1..];
  }

  /** Marks collide as texts only if they are the same: a made-up one is never an Id, since no Id holds a
      colon, and it tells the group and the number of the row. */
  lemma MarksAreDistinct(a: Mark, b: Mark, kind: Kind, names: Names)
    requires ProperNames(names) && MarkText(a, kind, names) == MarkText(b, kind, names)
    ensures a == b
  {
    if a.MadeUp? && b.MadeUp? {
      var p, q := names.place(a.group.place) + [SEPARATOR] + names.currency(a.group.currency),
                  names.place(b.group.place) + [SEPARATOR] + names.currency(b.group.currency);
      LastPart(p + [SEPARATOR] + KindName(kind), names.number(a.number), q + [SEPARATOR] + KindName(kind),
          names.number(b.number));
      LastPart(p, KindName(kind), q, KindName(kind));
      LastPart(names.place(a.group.place), names.currency(a.group.currency), names.place(b.group.place),
          names.currency(b.group.currency));
    } else if a.MadeUp? {
      HoldsSeparator(a, kind, names);
    } else if b.MadeUp? {
      HoldsSeparator(b, kind, names);
    }
  }

  lemma HoldsSeparator(mark: Mark, kind: Kind, names: Names)
    requires mark.MadeUp?
    ensures SEPARATOR in MarkText(mark, kind, names)
  {
    assert MarkText(mark, kind, names)[|names.place(mark.group.place)|] == SEPARATOR;
  }

  /** Marks a claim; a made-up mark is never in use. */
  method CountOnce(marks: set<Mark>, claim: Claim, count: nat, ghost claims: seq<Claim>, ghost rows: seq<Evidence>,
                   ghost row: Evidence,
                   currency: int)
    returns (marked: set<Mark>, counted: int)
    requires MarksFit(marks, claims, rows, currency)
    requires claim.group == GroupKeyOf(row, currency) && count == CountIn(rows, claim.group, currency) + 1
    ensures MarksFit(marked, claims + [claim], rows + [row], currency)
    ensures counted == Sum(Keep([claim], Ids(claims)))
  {
    var mark := if claim.id.Some? then Id(claim.id.value) else MadeUp(claim.group, count);
    assert (rows + [row])[..|rows|] == rows;
    IdsAppend(claims, [claim]);
    assert Ids([claim]) == if claim.id.Some? then {claim.id.value} else {};
    assert [claim][1..] == [];
    if mark in marks {
      return marks, 0;
    }
    return marks + {mark}, claim.amount;
  }

  lemma {:induction false} CountedNext(rows: seq<Evidence>, row: Evidence, kind: Kind, currency: int, group: GroupKey)
    ensures var before, next, claim := Counted(rows, kind, currency), Counted(rows + [row], kind, currency),
            ClaimOf(row, kind, currency);
            var added := Keep(claim, Ids(Claims(rows, kind, currency)));
            && Claims(rows + [row], kind, currency) == Claims(rows, kind, currency) + claim
            && Sum(next) == Sum(before) + Sum(added)
            && SumIn(next, group) == SumIn(before, group) + SumIn(added, group)
  {
    var before, claim := Claims(rows, kind, currency), ClaimOf(row, kind, currency);
    assert (rows + [row])[..|rows|] == rows;
    KeepAppend(before, claim, {});
    assert {} + Ids(before) == Ids(before);
    SumAppend(Keep(before, {}), Keep(claim, Ids(before)), group);
  }

  /** `counted` is what the row adds to its group and to the total. */
  ghost predicate Adds(rows: seq<Evidence>, row: Evidence, kind: Kind, currency: int, counted: int) {
    && Sum(Counted(rows + [row], kind, currency)) == Sum(Counted(rows, kind, currency)) + counted
    && forall g :: SumIn(Counted(rows + [row], kind, currency), g)
                == SumIn(Counted(rows, kind, currency), g) + if g == GroupKeyOf(row, currency) then counted else 0
  }

  /** What a row's claim adds to every group. */
  lemma {:induction false} ClaimAdds(rows: seq<Evidence>, row: Evidence, kind: Kind, currency: int, counted: int)
    requires counted == Sum(Keep(ClaimOf(row, kind, currency), Ids(Claims(rows, kind, currency))))
    ensures Adds(rows, row, kind, currency, counted)
  {
    var claim, seen := ClaimOf(row, kind, currency), Ids(Claims(rows, kind, currency));
    CountedNext(rows, row, kind, currency, GroupKeyOf(row, currency));
    forall g ensures SumIn(Counted(rows + [row], kind, currency), g)
                  == SumIn(Counted(rows, kind, currency), g) + if g == GroupKeyOf(row, currency) then counted else 0
    {
      CountedNext(rows, row, kind, currency, g);
      if claim != [] {
        OneClaim(claim[0], seen, g);
      }
    }
  }

  /** One kind of one row. */
  method CountKind(row: Evidence, kind: Kind, currency: int, count: nat, marks: set<Mark>, ghost rows: seq<Evidence>)
    returns (marked: set<Mark>, counted: int)
    requires MarksFit(marks, Claims(rows, kind, currency), rows, currency)
    requires count == CountIn(rows, GroupKeyOf(row, currency), currency) + 1
    ensures MarksFit(marked, Claims(rows + [row], kind, currency), rows + [row], currency)
    ensures Adds(rows, row, kind, currency, counted)
  {
    var claim := ClaimOf(row, kind, currency);
    ghost var before := Claims(rows, kind, currency);
    assert Claims(rows + [row], kind, currency) == before + claim by {
      CountedNext(rows, row, kind, currency, GroupKeyOf(row, currency));
    }
    if claim == [] {
      assert before + claim == before;
      assert (rows + [row])[..|rows|] == rows;
      marked, counted := marks, 0;
    } else {
      marked, counted := CountOnce(marks, claim[0], count, before, rows, row, currency);
    }
    ClaimAdds(rows, row, kind, currency, counted);
  }

  datatype Groups = Groups(found: map<GroupKey, Group>, order: seq<GroupKey>)

  ghost predicate GroupsFit(groups: Groups, rows: seq<Evidence>, currency: int) {
    && groups.order == GroupKeys(rows, currency)
    && (forall g :: g in groups.found <==> g in groups.order)
    && (forall g :: g in groups.found ==> groups.found[g] == GroupOf(rows, g, currency))
  }

  lemma {:induction false} NewGroupIsEmpty(rows: seq<Evidence>, group: GroupKey, currency: int)
    ensures group !in GroupKeys(rows, currency) ==> GroupOf(rows, group, currency) == NO_GROUP
  {
    NoClaimsInGroup(rows, Gross, group, currency);
    NoClaimsInGroup(rows, Balance, group, currency);
    NoClaimsInGroup(rows, Payment, group, currency);
    NoRowsInGroup(rows, group, currency);
  }

  lemma {:induction false} NoRowsInGroup(rows: seq<Evidence>, group: GroupKey, currency: int)
    ensures group !in GroupKeys(rows, currency) ==> CountIn(rows, group, currency) == 0
  {
    if rows != [] {
      NoRowsInGroup(rows[..|rows| - 1], group, currency);
    }
  }

  lemma {:induction false} NoClaimsInGroup(rows: seq<Evidence>, kind: Kind, group: GroupKey, currency: int)
    ensures forall c :: c in Claims(rows, kind, currency) ==> c.group in GroupKeys(rows, currency)
    ensures group !in GroupKeys(rows, currency) ==> SumIn(Counted(rows, kind, currency), group) == 0
  {
    ClaimsAreGrouped(rows, kind, currency);
    NothingIn(Claims(rows, kind, currency), {}, group);
  }

  lemma {:induction false} ClaimsAreGrouped(rows: seq<Evidence>, kind: Kind, currency: int)
    ensures forall c :: c in Claims(rows, kind, currency) ==> c.group in GroupKeys(rows, currency)
  {
    if rows != [] {
      ClaimsAreGrouped(rows[..|rows| - 1], kind, currency);
    }
  }

  lemma {:induction false} NothingIn(claims: seq<Claim>, seen: set<int>, group: GroupKey)
    ensures (forall c :: c in claims ==> c.group != group) ==> SumIn(Keep(claims, seen), group) == 0
  {
    if claims != [] {
      var c := claims[0];
      assert c in claims;
      NothingIn(claims[1..], seen, group);
      NothingIn(claims[1..], if c.id.Some? then seen + {c.id.value} else seen, group);
    }
  }

  function Grow(g: Group, gross: int, balance: int, paid: int): Group {
    Group(g.gross + gross, g.balance + balance, g.paid + paid, g.count + 1)
  }

  ghost predicate Grows(rows: seq<Evidence>, row: Evidence, currency: int, gross: int, balance: int, paid: int) {
    forall g :: GroupOf(rows + [row], g, currency)
             == if g == GroupKeyOf(row, currency) then Grow(GroupOf(rows, g, currency), gross, balance, paid)
                 else GroupOf(rows, g, currency)
  }

  lemma AddsGrow(rows: seq<Evidence>, row: Evidence, currency: int, gross: int, balance: int, paid: int)
    requires Adds(rows, row, Gross, currency, gross) && Adds(rows, row, Balance, currency, balance)
             && Adds(rows, row, Payment, currency, paid)
    ensures Grows(rows, row, currency, gross, balance, paid)
  {
    forall g ensures GroupOf(rows + [row], g, currency)
                  == if g == GroupKeyOf(row, currency) then Grow(GroupOf(rows, g, currency), gross, balance, paid)
                      else GroupOf(rows, g, currency)
    {
      CountNext(rows, row, g, currency);
    }
  }

  method AddRow(groups: Groups, row: Evidence, currency: int, gross: int, balance: int, paid: int,
                ghost rows: seq<Evidence>)
    returns (added: Groups)
    requires GroupsFit(groups, rows, currency)
    requires Grows(rows, row, currency, gross, balance, paid)
    ensures GroupsFit(added, rows + [row], currency)
  {
    var key := GroupKeyOf(row, currency);
    NewGroupIsEmpty(rows, key, currency);
    var current := if key in groups.found then groups.found[key] else NO_GROUP;
    assert current == GroupOf(rows, key, currency);
    var order := if key in groups.found then groups.order else groups.order + [key];
    assert order == GroupKeys(rows + [row], currency) by {
      assert (rows + [row])[..|rows|] == rows;
    }
    added := Groups(groups.found[key := Grow(current, gross, balance, paid)], order);
  }

  lemma {:induction false} CountNext(rows: seq<Evidence>, row: Evidence, group: GroupKey, currency: int)
    ensures CountIn(rows + [row], group, currency) == CountIn(rows, group, currency) + if GroupKeyOf(row, currency)
            == group then 1 else 0
  {
    assert (rows + [row])[..|rows|] == rows;
  }

  datatype State = State(groups: Groups, payables: int, grossMarks: set<Mark>, balanceMarks: set<Mark>,
      paymentMarks: set<Mark>)

  ghost predicate Fits(s: State, rows: seq<Evidence>, currency: int) {
    && GroupsFit(s.groups, rows, currency)
    && s.payables == Sum(Counted(rows, Gross, currency))
    && MarksFit(s.grossMarks, Claims(rows, Gross, currency), rows, currency)
    && MarksFit(s.balanceMarks, Claims(rows, Balance, currency), rows, currency)
    && MarksFit(s.paymentMarks, Claims(rows, Payment, currency), rows, currency)
  }

  method AddEvidence(s: State, row: Evidence, currency: int, ghost rows: seq<Evidence>) returns (t: State)
    requires Fits(s, rows, currency)
    ensures Fits(t, rows + [row], currency)
  {
    var key := GroupKeyOf(row, currency);
    assert key !in s.groups.found ==> CountIn(rows, key, currency) == 0 by {
      NoRowsInGroup(rows, key, currency);
    }
    var count := (if key in s.groups.found then s.groups.found[key].count else 0) + 1;
    var grossMarks, gross := CountKind(row, Gross, currency, count, s.grossMarks, rows);
    var balanceMarks, balance := CountKind(row, Balance, currency, count, s.balanceMarks, rows);
    var paymentMarks, paid := CountKind(row, Payment, currency, count, s.paymentMarks, rows);
    AddsGrow(rows, row, currency, gross, balance, paid);
    var groups := AddRow(s.groups, row, currency, gross, balance, paid, rows);
    return State(groups, s.payables + gross, grossMarks, balanceMarks, paymentMarks);
  }

  /** The active rows, grouped, and the supplier payables. */
  method GroupEvidence(rows: seq<Evidence>, currency: int) returns (groups: Groups, supplierPayables: int)
    ensures GroupsFit(groups, rows, currency)
    ensures supplierPayables == Sum(Counted(rows, Gross, currency))
  {
    var s := State(Groups(map[], []), 0, {}, {}, {});
    var k := 0;
    while k < |rows|
      invariant 0 <= k <= |rows|
      invariant Fits(s, rows[..k], currency)
    {
      assert rows[..k + 1] == rows[..k] + [rows[k]];
      s := AddEvidence(s, rows[k], currency, rows[..k]);
      k := k + 1;
    }
    assert rows[..k] == rows;
    return s.groups, s.payables;
  }

  // ----- the groups add up -----

  function SumOver(claims: seq<Claim>, groups: seq<GroupKey>): int {
    if groups == [] then 0 else SumOver(claims, groups[..|groups| - 1]) + SumIn(claims, groups[|groups| - 1])
  }

  lemma {:induction false} SumOverFirst(claims: seq<Claim>, groups: seq<GroupKey>)
    requires claims != [] && DistinctBy(groups, (g: GroupKey) => g)
    ensures SumOver(claims, groups) == SumOver(claims[1..], groups) + if claims[0].group in groups then claims[0].amount
            else 0
  {
    if groups != [] {
      var n := |groups| - 1;
      SumOverFirst(claims, groups[..n]);
      assert groups == groups[..n] + [groups[n]];
      assert groups[n] !in groups[..n];
    }
  }

  lemma {:induction false} SumOverNothing(groups: seq<GroupKey>)
    ensures SumOver([], groups) == 0
  {
    if groups != [] {
      SumOverNothing(groups[..|groups| - 1]);
    }
  }

  lemma {:induction false} SumOverAll(claims: seq<Claim>, groups: seq<GroupKey>)
    requires DistinctBy(groups, (g: GroupKey) => g) && forall c :: c in claims ==> c.group in groups
    ensures SumOver(claims, groups) == Sum(claims)
  {
    if claims == [] {
      SumOverNothing(groups);
    } else {
      assert claims[0] in claims && forall c :: c in claims[1..] ==> c in claims;
      SumOverAll(claims[1..], groups);
      SumOverFirst(claims, groups);
    }
  }

  lemma {:induction false} GroupKeysDistinct(rows: seq<Evidence>, currency: int)
    ensures DistinctBy(GroupKeys(rows, currency), (g: GroupKey) => g)
  {
    if rows != [] {
      GroupKeysDistinct(rows[..|rows| - 1], currency);
    }
  }

  lemma {:induction false} KeepMembers(claims: seq<Claim>, seen: set<int>)
    ensures forall c :: c in Keep(claims, seen) ==> c in claims
  {
    if claims != [] {
      var c := claims[0];
      KeepMembers(claims[1..], seen);
      KeepMembers(claims[1..], if c.id.Some? then seen + {c.id.value} else seen);
      assert claims == [c] + claims[1..];
    }
  }

  /** The groups' gross amounts add up to the supplier payables; so do the balances and the payments
      of the groups to the balances and payments counted. */
  lemma {:induction false} GroupsAddUp(rows: seq<Evidence>, kind: Kind, currency: int)
    ensures SumOver(Counted(rows, kind, currency), GroupKeys(rows, currency)) == Sum(Counted(rows, kind, currency))
  {
    GroupKeysDistinct(rows, currency);
    ClaimsAreGrouped(rows, kind, currency);
    KeepMembers(Claims(rows, kind, currency), {});
    SumOverAll(Counted(rows, kind, currency), GroupKeys(rows, currency));
  }

  // ----- repeating a row -----

  lemma {:induction false} ClaimsAppend(a: seq<Evidence>, b: seq<Evidence>, kind: Kind, currency: int)
    ensures Claims(a + b, kind, currency) == Claims(a, kind, currency) + Claims(b, kind, currency)
  {
    if b == [] {
      assert a + b == a;
    } else {
      var n := |b| - 1;
      assert (a + b)[..|a| + n] == a + b[..n];
      ClaimsAppend(a, b[..n], kind, currency);
      Regroup(Claims(a, kind, currency), Claims(b[..n], kind, currency), ClaimOf(b[n], kind, currency));
    }
  }

  /** A row whose claims of this kind carry an Id that `rows` already counted. */
  ghost predicate AlreadyCounted(row: Evidence, rows: seq<Evidence>, kind: Kind, currency: int) {
    forall c :: c in ClaimOf(row, kind, currency) ==> c.id.Some? && c.id.value in Ids(Claims(rows, kind, currency))
  }

  lemma {:induction false} KeepNothing(claims: seq<Claim>, seen: set<int>)
    requires forall c :: c in claims ==> c.id.Some? && c.id.value in seen
    ensures Keep(claims, seen) == []
  {
    if claims != [] {
      assert claims[0] in claims;
      KeepNothing(claims[1..], seen);
    }
  }

  lemma {:induction false} KeepSkips(a: seq<Claim>, c: seq<Claim>, b: seq<Claim>)
    requires forall x :: x in c ==> x.id.Some? && x.id.value in Ids(a)
    ensures Keep(a + c + b, {}) == Keep(a + b, {})
  {
    KeepAppend(a + c, b, {});
    KeepAppend(a, c, {});
    KeepAppend(a, b, {});
    assert {} + Ids(a) == Ids(a);
    KeepNothing(c, Ids(a));
    IdsAppend(a, c);
    assert Ids(a + c) == Ids(a);
  }

  /** Repeating a keyed row that is already counted, wherever it comes, changes no amount. */
  lemma RepeatChangesNothing(before: seq<Evidence>, row: Evidence, after: seq<Evidence>, kind: Kind, currency: int)
    requires AlreadyCounted(row, before, kind, currency)
    ensures Counted(before + [row] + after, kind, currency) == Counted(before + after, kind, currency)
  {
    ClaimsAppend(before + [row], after, kind, currency);
    assert (before + [row])[..|before|] == before;
    ClaimsAppend(before, after, kind, currency);
    KeepSkips(Claims(before, kind, currency), ClaimOf(row, kind, currency), Claims(after, kind, currency));
  }

  // ----- the order of the rows -----

  /** Claims under one Id agree on their amount. */
  ghost predicate Agree(claims: seq<Claim>) {
    forall x, y :: x in claims && y in claims && x.id.Some? && x.id == y.id ==> x.amount == y.amount
  }

  function Anywhere(c: Claim): Claim {
    c.(group := GroupKey(0, 0))
  }

  /** Where a claim belongs does not matter for whether it counts. */
  lemma {:induction false} KeepAnywhere(claims: seq<Claim>, seen: set<int>)
    ensures Keep(Map(Anywhere, claims), seen) == Map(Anywhere, Keep(claims, seen))
    ensures Sum(Keep(Map(Anywhere, claims), seen)) == Sum(Keep(claims, seen))
  {
    if claims != [] {
      var c := claims[0];
      KeepAnywhere(claims[1..], seen);
      KeepAnywhere(claims[1..], if c.id.Some? then seen + {c.id.value} else seen);
    }
  }

  /** One claim per Id: the same wherever it occurs. */
  ghost predicate Functional(claims: seq<Claim>) {
    forall x, y :: x in claims && y in claims && x.id.Some? && x.id == y.id ==> x == y
  }

  /** How often a claim counts. */
  lemma {:induction false} KeptTimes(claims: seq<Claim>, seen: set<int>, x: Claim)
    requires Functional(claims)
    ensures multiset(Keep(claims, seen))[x]
         == if x.id.None? then multiset(claims)[x] else if x in claims && x.id.value !in seen then 1 else 0
  {
    if claims != [] {
      var c, rest := claims[0], claims[1..];
      assert claims == [c] + rest;
      KeptTimes(rest, seen, x);
      KeptTimes(rest, if c.id.Some? then seen + {c.id.value} else seen, x);
    }
  }

  lemma {:induction false} SumPermutes(a: seq<Claim>, b: seq<Claim>)
    requires multiset(a) == multiset(b)
    ensures Sum(a) == Sum(b)
  {
    if a == [] {
      assert |multiset(b)| == 0;
    } else {
      assert a[0] in multiset(b);
      var k :| 0 <= k < |b| && b[k] == a[0];
      WithoutAt(b, k);
      TailMultiset(a);
      SumPermutes(a[1..], b[..k] + b[k + 1..]);
      SumAppend(b[..k], b[k + 1..], GroupKey(0, 0));
      SumAppend(b[..k] + [b[k]], b[k + 1..], GroupKey(0, 0));
      SumAppend(b[..k], [b[k]], GroupKey(0, 0));
      assert [b[k]][1..] == [];
    }
  }

  lemma {:induction false} SumIgnoresOrder(a: seq<Claim>, b: seq<Claim>)
    requires multiset(a) == multiset(b) && Agree(a)
    ensures Sum(Keep(a, {})) == Sum(Keep(b, {}))
  {
    var c, d := Map(Anywhere, a), Map(Anywhere, b);
    MapPermutes(Anywhere, a, b);
    AgreeAnywhere(a);
    SameMembers(c, d);
    assert Functional(d);
    forall x ensures multiset(Keep(c, {}))[x] == multiset(Keep(d, {}))[x] {
      KeptTimes(c, {}, x);
      KeptTimes(d, {}, x);
    }
    assert multiset(Keep(c, {})) == multiset(Keep(d, {}));
    SumPermutes(Keep(c, {}), Keep(d, {}));
    KeepAnywhere(a, {});
    KeepAnywhere(b, {});
  }

  lemma SameMembers(a: seq<Claim>, b: seq<Claim>)
    requires multiset(a) == multiset(b)
    ensures forall x :: x in a <==> x in b
  {
    forall x ensures x in a <==> x in b {
      assert x in a <==> x in multiset(a);
      assert x in b <==> x in multiset(b);
    }
  }

  lemma {:induction false} AgreeAnywhere(claims: seq<Claim>)
    requires Agree(claims)
    ensures Functional(Map(Anywhere, claims))
  {
    var m := Map(Anywhere, claims);
    forall x, y | x in m && y in m && x.id.Some? && x.id == y.id ensures x == y {
      var i :| 0 <= i < |m| && m[i] == x;
      var j :| 0 <= j < |m| && m[j] == y;
      assert claims[i] in claims && claims[j] in claims;
    }
  }

  lemma {:induction false} KeepsFirst(x: Claim, y: Claim, rest: seq<Claim>)
    requires x.id.Some? && x.id == y.id
    ensures Sum(Keep([x, y] + rest, {})) == x.amount + Sum(Keep(rest, {x.id.value}))
  {
    var a := [x, y] + rest;
    assert a[1..] == [y] + rest && ([y] + rest)[1..] == rest;
    assert {} + {x.id.value} == {x.id.value};
  }

  /** The supplier payables do not depend on the order of the evidence if rows agree on the amount of
      each obligation. */
  lemma {:induction false} PayablesIgnoreOrder(rows: seq<Evidence>, other: seq<Evidence>, kind: Kind, currency: int)
    requires multiset(rows) == multiset(other) && Agree(Claims(rows, kind, currency))
    ensures Sum(Counted(rows, kind, currency)) == Sum(Counted(other, kind, currency))
  {
    ClaimsPermute(rows, other, kind, currency);
    SumIgnoresOrder(Claims(rows, kind, currency), Claims(other, kind, currency));
  }

  lemma {:induction false} ClaimsWithout(rows: seq<Evidence>, k: nat, kind: Kind, currency: int)
    requires k < |rows|
    ensures multiset(Claims(rows, kind, currency))
         == multiset(ClaimOf(rows[k], kind, currency)) + multiset(Claims(rows[..k] + rows[k + 1..], kind, currency))
  {
    assert rows == rows[..k] + [rows[k]] + rows[k + 1..];
    ClaimsAppend(rows[..k] + [rows[k]], rows[k + 1..], kind, currency);
    ClaimsAppend(rows[..k], rows[k + 1..], kind, currency);
    assert (rows[..k] + [rows[k]])[..k] == rows[..k];
  }

  lemma MatchHead(a: seq<Evidence>, b: seq<Evidence>) returns (k: nat)
    requires a != [] && multiset(a) == multiset(b)
    ensures k < |b| && b[k] == a[0]
    ensures multiset(a[1..]) == multiset(b[..k] + b[k + 1..])
  {
    assert a[0] in multiset(b);
    k :| 0 <= k < |b| && b[k] == a[0];
    WithoutAt(b, k);
    TailMultiset(a);
  }

  lemma {:induction false} ClaimsHead(rows: seq<Evidence>, kind: Kind, currency: int)
    requires rows != []
    ensures Claims(rows, kind, currency) == ClaimOf(rows[0], kind, currency) + Claims(rows[1..], kind, currency)
  {
    assert rows == [rows[0]] + rows[1..];
    ClaimsAppend([rows[0]], rows[1..], kind, currency);
    assert [rows[0]][..0] == [];
  }

  lemma {:induction false} ClaimsPermute(a: seq<Evidence>, b: seq<Evidence>, kind: Kind, currency: int)
    requires multiset(a) == multiset(b)
    ensures multiset(Claims(a, kind, currency)) == multiset(Claims(b, kind, currency))
  {
    if a == [] {
      assert |multiset(b)| == 0;
    } else {
      var k := MatchHead(a, b);
      ClaimsPermute(a[1..], b[..k] + b[k + 1..], kind, currency);
      ClaimsHead(a, kind, currency);
      ClaimsWithout(b, k, kind, currency);
    }
  }

  lemma {:induction false} ClaimHasRow(rows: seq<Evidence>, c: Claim, kind: Kind, currency: int) returns (row: Evidence)
    requires c in Claims(rows, kind, currency)
    ensures row in rows && ClaimOf(row, kind, currency) == [c]
  {
    var n := |rows| - 1;
    if c in ClaimOf(rows[n], kind, currency) {
      row := rows[n];
    } else {
      row := ClaimHasRow(rows[..n], c, kind, currency);
    }
  }

  /** Two rows in front of others whose claims disagree: the first one counts. */
  lemma {:induction false} FrontRowCounts(a: Evidence, b: Evidence, rest: seq<Evidence>, x: Claim, y: Claim, kind: Kind,
                                          currency: int)
    requires ClaimOf(a, kind, currency) == [x] && ClaimOf(b, kind, currency) == [y]
    requires x.id.Some? && x.id == y.id
    ensures Sum(Counted([a, b] + rest, kind, currency)) == x.amount
            + Sum(Keep(Claims(rest, kind, currency), {x.id.value}))
  {
    ClaimsAppend([a, b], rest, kind, currency);
    ClaimsHead([a, b], kind, currency);
    ClaimsHead([b], kind, currency);
    assert [a, b][1..] == [b] && [b][1..] == [];
    assert [x] + ([y] + []) == [x, y];
    KeepsFirst(x, y, Claims(rest, kind, currency));
  }

  lemma DisagreeingRows(rows: seq<Evidence>, kind: Kind, currency: int)
    returns (a: Evidence, b: Evidence, x: Claim, y: Claim)
    requires !Agree(Claims(rows, kind, currency))
    ensures a in rows && b in rows && a != b
    ensures ClaimOf(a, kind, currency) == [x] && ClaimOf(b, kind, currency) == [y]
    ensures x.id.Some? && x.id == y.id && x.amount != y.amount
  {
    var claims := Claims(rows, kind, currency);
    x, y :| x in claims && y in claims && x.id.Some? && x.id == y.id && x.amount != y.amount;
    a := ClaimHasRow(rows, x, kind, currency);
    b := ClaimHasRow(rows, y, kind, currency);
    assert [x][0] != [y][0];
  }

  /** Swapping two such rows in front changes what is counted. */
  lemma SwapShows(a: Evidence, b: Evidence, rest: seq<Evidence>, x: Claim, y: Claim, kind: Kind, currency: int)
    requires ClaimOf(a, kind, currency) == [x] && ClaimOf(b, kind, currency) == [y]
    requires x.id.Some? && x.id == y.id && x.amount != y.amount
    ensures Sum(Counted([a, b] + rest, kind, currency)) != Sum(Counted([b, a] + rest, kind, currency))
  {
    FrontRowCounts(a, b, rest, x, y, kind, currency);
    FrontRowCounts(b, a, rest, y, x, kind, currency);
  }

  ghost predicate ShowsOrder(rows: seq<Evidence>, other: seq<Evidence>, kind: Kind, currency: int) {
    multiset(other) == multiset(rows) && Sum(Counted(other, kind, currency)) != Sum(Counted(rows, kind, currency))
  }

  lemma SwappedOrders(rows: seq<Evidence>, kind: Kind, currency: int) returns (one: seq<Evidence>, two: seq<Evidence>)
    requires !Agree(Claims(rows, kind, currency))
    ensures multiset(one) == multiset(rows) && multiset(two) == multiset(rows)
    ensures Sum(Counted(one, kind, currency)) != Sum(Counted(two, kind, currency))
  {
    var a, b, x, y := DisagreeingRows(rows, kind, currency);
    var rest := TwoInFront(rows, a, b);
    one, two := [a, b] + rest, [b, a] + rest;
    SwapShows(a, b, rest, x, y, kind, currency);
  }

  lemma {:induction false} OrderShows(rows: seq<Evidence>, kind: Kind, currency: int)
    requires !Agree(Claims(rows, kind, currency))
    ensures exists other :: ShowsOrder(rows, other, kind, currency)
  {
    var one, two := SwappedOrders(rows, kind, currency);
    assert ShowsOrder(rows, one, kind, currency) || ShowsOrder(rows, two, kind, currency);
  }

  /** What is counted does not depend on the order of the evidence rows exactly when rows that claim
      under one Id agree on the amount. */
  lemma {:induction false} OrderShowsIff(rows: seq<Evidence>, kind: Kind, currency: int)
    ensures (forall other :: multiset(other) == multiset(rows) ==>
            Sum(Counted(other, kind, currency)) == Sum(Counted(rows, kind, currency)))
       <==> Agree(Claims(rows, kind, currency))
  {
    if Agree(Claims(rows, kind, currency)) {
      forall other | multiset(other) == multiset(rows) ensures Sum(Counted(other, kind, currency))
          == Sum(Counted(rows, kind, currency)) {
        PayablesIgnoreOrder(rows, other, kind, currency);
      }
    } else {
      OrderShows(rows, kind, currency);
      var other :| ShowsOrder(rows, other, kind, currency);
    }
  }

  /** For example, two rows of one invoice that disagree: whichever comes first counts. */
  lemma OrderShowsHere()
    ensures var a := Evidence(1, None, SupplierInvoice, Some(100), None, None, Some(7), None, None, None, None);
            var b := a.(gross := Some(200));
            Sum(Counted([a, b], Gross, 0)) == 100 && Sum(Counted([b, a], Gross, 0)) == 200
  {
    var a := Evidence(1, None, SupplierInvoice, Some(100), None, None, Some(7), None, None, None, None);
    var b := a.(gross := Some(200));
    TwoRowsCount(a, b);
    TwoRowsCount(b, a);
  }

  /** Of two rows that claim under one Id the first counts. */
  lemma TwoRowsCount(a: Evidence, b: Evidence)
    requires a.recordType == SupplierInvoice == b.recordType && NonZero(a.gross) && NonZero(b.gross)
    requires a.invoiceId.Some? && b.invoiceId == a.invoiceId
    ensures Sum(Counted([a, b], Gross, 0)) == a.gross.value
  {
    var x, y := ClaimOf(a, Gross, 0)[0], ClaimOf(b, Gross, 0)[0];
    assert [a, b][..1] == [a] && [a][..0] == [];
    assert Claims([a], Gross, 0) == [x];
    assert Claims([a, b], Gross, 0) == [x, y];
    assert [x, y][1..] == [y] && [y][1..] == [];
    var none: set<int> := {};
    assert none + {x.id.value} == {x.id.value};
    assert Keep([y], {x.id.value}) == [];
    assert Keep([x, y], none) == [x] + Keep([y], none + {x.id.value});
    assert Keep([x, y], {}) == [x];
  }

  // ----- the bridge -----

  datatype Status = IsIncomplete | SupplierPayablesExplained | BuyerOnlyReconciled | Unexplained

  datatype Reconciliation = Reconciliation(complete: bool, matches: bool, difference: Option<int>)

  datatype Bridge = Bridge(complete: bool, status: Status, supplierPayables: int, reconstructed: Option<int>,
      residual: Option<int>,
                           currencyConflict: bool, groups: Groups)

  /** One unit of currency, in cents. */
  const TOLERANCE := 100

  function Abs(x: int): int {
    if x < 0 then -x else x
  }

  function Reconcile(expected: Option<int>, reconstructed: Option<int>, complete: bool): Reconciliation {
    if !complete || expected.None? || reconstructed.None? then Reconciliation(false, false, None)
    else
      var difference := reconstructed.value - expected.value;
      Reconciliation(true, Abs(difference) <= TOLERANCE, Some(difference))
  }

  predicate OtherCurrency(rows: seq<Evidence>, currency: int) {
    exists k :: 0 <= k < |rows| && GroupKeyOf(rows[k], currency).currency != currency
  }

  method CurrencyConflict(rows: seq<Evidence>, currency: int) returns (conflict: bool)
    ensures conflict <==> OtherCurrency(rows, currency)
  {
    var currencies: set<int> := {};
    var k := 0;
    while k < |rows|
      invariant 0 <= k <= |rows|
      invariant forall c :: c in currencies <==> exists j :: 0 <= j < k && GroupKeyOf(rows[j], currency).currency == c
    {
      currencies := currencies + {GroupKeyOf(rows[k], currency).currency};
      k := k + 1;
    }
    conflict := |currencies| > 1 || (|currencies| == 1 && currency !in currencies);
    SizeOne(currencies, currency);
    assert OtherCurrency(rows, currency) <==> exists c :: c in currencies && c != currency by {
      forall k | 0 <= k < |rows| ensures GroupKeyOf(rows[k], currency).currency in currencies {
      }
    }
  }

  lemma SizeOne(s: set<int>, x: int)
    ensures (|s| > 1 || (|s| == 1 && x !in s)) <==> exists y :: y in s && y != x
  {
    if forall y :: y in s ==> y == x {
      assert s <= {x};
      assert x in s ==> s == {x};
      assert x !in s ==> s == {};
    } else {
      var y :| y in s && y != x;
      var t := s - {y};
      assert |s| == |t| + 1;
      assert x in s ==> x in t;
      assert t == {} ==> s == {y};
    }
  }

  // ----- what counts, row by row -----

  /** The row states an amount of this kind other than zero. */
  predicate Asks(row: Evidence, kind: Kind, amount: int) {
    match kind
    case Gross => row.recordType == SupplierInvoice && row.gross == Some(amount) && amount != 0
    case Balance => row.recordType == SupplierInvoice && row.balance == Some(amount) && amount != 0
    case Payment => row.recordType == SupplierPayment && row.paid == Some(amount) && amount != 0
  }

  /** The row states it under the Id: that of the invoice, else the order line, else the extra cost, else the
      cashflow; a payment under that of the payment, else the cashflow. */
  predicate Under(row: Evidence, kind: Kind, id: int) {
    if kind == Payment then row.paymentId == Some(id) || (row.paymentId.None? && row.cashflowId == Some(id))
    else
      || row.invoiceId == Some(id)
      || (row.invoiceId.None? && row.lineItemId == Some(id))
      || (row.invoiceId.None? && row.lineItemId.None? && row.extraCostId == Some(id))
      || (row.invoiceId.None? && row.lineItemId.None? && row.extraCostId.None? && row.cashflowId == Some(id))
  }

  ghost predicate AsksUnder(row: Evidence, kind: Kind, id: int) {
    Under(row, kind, id) && exists amount :: Asks(row, kind, amount)
  }

  lemma ClaimIs(row: Evidence, kind: Kind, currency: int, amount: int)
    ensures Asks(row, kind, amount) ==>
              && |ClaimOf(row, kind, currency)| == 1 && ClaimOf(row, kind, currency)[0].amount == amount
              && forall id :: ClaimOf(row, kind, currency)[0].id == Some(id) <==> Under(row, kind, id)
    ensures ClaimOf(row, kind, currency) != [] ==> Asks(row, kind, ClaimOf(row, kind, currency)[0].amount)
  {
  }

  lemma {:induction false} ClaimedIds(rows: seq<Evidence>, kind: Kind, currency: int, id: int)
    ensures id in Ids(Claims(rows, kind, currency)) <==>
            exists k :: 0 <= k < |rows| && AsksUnder(rows[k], kind, id)
  {
    if rows != [] {
      var n := |rows| - 1;
      var claim := ClaimOf(rows[n], kind, currency);
      ClaimedIds(rows[..n], kind, currency, id);
      IdsAppend(Claims(rows[..n], kind, currency), claim);
      LastClaimed(rows[n], kind, currency, id);
      assert forall k :: 0 <= k < n ==> rows[..n][k] == rows[k];
    }
  }

  lemma LastClaimed(row: Evidence, kind: Kind, currency: int, id: int)
    ensures id in Ids(ClaimOf(row, kind, currency)) <==> AsksUnder(row, kind, id)
  {
    var claim := ClaimOf(row, kind, currency);
    if claim != [] {
      assert claim == [claim[0]];
      ClaimIs(row, kind, currency, claim[0].amount);
    }
    if amount :| Asks(row, kind, amount) {
      ClaimIs(row, kind, currency, amount);
      assert claim == [claim[0]];
    }
  }

  /** One more row counts exactly if no earlier row states an amount of its kind under the same Id, and it
      counts in the group of its account, STEM and currency. */
  lemma {:induction false} RowCounts(rows: seq<Evidence>, row: Evidence, kind: Kind, currency: int, group: GroupKey,
                                     amount: int)
    requires Asks(row, kind, amount)
    ensures var before, after := Counted(rows, kind, currency), Counted(rows + [row], kind, currency);
            var repeats := exists k, id :: 0 <= k < |rows| && Under(row, kind, id) && AsksUnder(rows[k], kind, id);
            var itsGroup := group.place == row.place
                && group.currency == (if row.currency.Some? then row.currency.value else currency);
            && Sum(after) == Sum(before) + (if repeats then 0 else amount)
            && SumIn(after, group) == SumIn(before, group) + (if repeats || !itsGroup then 0 else amount)
  {
    var claim := ClaimOf(row, kind, currency);
    ClaimIs(row, kind, currency, amount);
    assert claim == [claim[0]];
    CountedNext(rows, row, kind, currency, group);
    OneClaim(claim[0], Ids(Claims(rows, kind, currency)), group);
    forall id ensures id in Ids(Claims(rows, kind, currency)) <==>
                      exists k :: 0 <= k < |rows| && AsksUnder(rows[k], kind, id)
    {
      ClaimedIds(rows, kind, currency, id);
    }
  }

  /** A row without an amount of this kind counts nothing, whatever else it holds. */
  lemma OtherRowsDoNotCount(rows: seq<Evidence>, row: Evidence, kind: Kind, currency: int)
    requires forall amount :: !Asks(row, kind, amount)
    ensures Counted(rows + [row], kind, currency) == Counted(rows, kind, currency)
  {
    var claim := ClaimOf(row, kind, currency);
    if claim != [] {
      ClaimIs(row, kind, currency, claim[0].amount);
    }
    assert (rows + [row])[..|rows|] == rows;
    assert Claims(rows, kind, currency) + [] == Claims(rows, kind, currency);
  }

  /** Dropping the inactive rows first drops no amount. */
  lemma {:induction false} InactiveRowsCountNothing(rows: seq<Evidence>, kind: Kind, currency: int)
    ensures Counted(Filter(Active, rows), kind, currency) == Counted(rows, kind, currency)
  {
    ActiveClaims(rows, kind, currency);
  }

  lemma InactiveClaims(row: Evidence, kind: Kind, currency: int)
    ensures !Active(row) ==> ClaimOf(row, kind, currency) == []
  {
  }

  lemma {:induction false} ActiveClaims(rows: seq<Evidence>, kind: Kind, currency: int)
    ensures Claims(Filter(Active, rows), kind, currency) == Claims(rows, kind, currency)
  {
    if rows != [] {
      var rest := Filter(Active, rows[1..]);
      ActiveClaims(rows[1..], kind, currency);
      ClaimsHead(rows, kind, currency);
      if Active(rows[0]) {
        assert Filter(Active, rows) == [rows[0]] + rest;
        ClaimsHead([rows[0]] + rest, kind, currency);
        assert ([rows[0]] + rest)[1..] == rest;
      } else {
        InactiveClaims(rows[0], kind, currency);
        assert Filter(Active, rows) == rest;
      }
    }
  }

  /** The currencies conflict exactly if some row with an amount names another currency. */
  lemma {:induction false} ConflictIff(rows: seq<Evidence>, currency: int)
    ensures OtherCurrency(Filter(Active, rows), currency) <==>
            exists k :: 0 <= k < |rows| && rows[k].currency.Some? && rows[k].currency.value != currency
                && (rows[k].gross !in {None, Some(0)} || rows[k].balance !in {None, Some(0)}
                    || rows[k].paid !in {None, Some(0)})
  {
    var active := Filter(Active, rows);
    FilterMembers(Active, rows);
    if k :| 0 <= k < |active| && GroupKeyOf(active[k], currency).currency != currency {
      assert active[k] in rows;
    }
    if k :| 0 <= k < |rows| && Active(rows[k]) && rows[k].currency.Some? && rows[k].currency.value != currency {
      assert rows[k] in active;
    }
  }

  /** The bridge counts the active rows. It is complete if the evidence is, in one currency, with both
      totals known; then the used credit is what was reconstructed plus the residual, and the status
      follows from the tolerance. */
  method BuildUsedCreditBridge(salesforceUsed: Option<int>, buyerExposure: Option<int>, supplierEvidence: seq<Evidence>,
                               complete: bool,
                               currency: int)
    returns (bridge: Bridge)
    ensures var rows := Filter(Active, supplierEvidence);
            && GroupsFit(bridge.groups, rows, currency)
            && bridge.supplierPayables == Sum(Counted(rows, Gross, currency))
            && (bridge.currencyConflict <==> OtherCurrency(rows, currency))
    ensures bridge.complete <==> complete && !bridge.currencyConflict && salesforceUsed.Some? && buyerExposure.Some?
    ensures buyerExposure.Some? ==> bridge.reconstructed == Some(buyerExposure.value + bridge.supplierPayables)
    ensures bridge.complete <==> bridge.residual.Some?
    ensures bridge.complete ==> salesforceUsed.value == bridge.reconstructed.value + bridge.residual.value
    ensures bridge.status == IsIncomplete <==> !bridge.complete
    ensures bridge.status == SupplierPayablesExplained <==>
            bridge.complete && !(-100 <= bridge.supplierPayables <= 100) && -100 <= bridge.residual.value <= 100
    ensures bridge.status == BuyerOnlyReconciled <==>
            bridge.complete && -100 <= bridge.supplierPayables <= 100
                && -100 <= buyerExposure.value - salesforceUsed.value <= 100
  {
    var rows := Filter(Active, supplierEvidence);
    var groups, supplier := GroupEvidence(rows, currency);
    var currencyConflict := CurrencyConflict(rows, currency);
    var bridgeComplete := complete && !currencyConflict && salesforceUsed.Some? && buyerExposure.Some?;
    var reconstructed := if buyerExposure.None? then None else Some(buyerExposure.value + supplier);
    var buyerReconciliation := Reconcile(salesforceUsed, buyerExposure, bridgeComplete);
    var totalReconciliation := Reconcile(salesforceUsed, reconstructed, bridgeComplete);
    var status := Unexplained;
    if !bridgeComplete {
      status := IsIncomplete;
    } else if Abs(supplier) > TOLERANCE && totalReconciliation.matches {
      status := SupplierPayablesExplained;
    } else if Abs(supplier) <= TOLERANCE && buyerReconciliation.matches {
      status := BuyerOnlyReconciled;
    }
    var residual := if bridgeComplete then Some(salesforceUsed.value - reconstructed.value) else None;
    return Bridge(bridgeComplete, status, supplier, reconstructed, residual, currencyConflict, groups);
  }
}
