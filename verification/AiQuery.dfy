/** The compiler of the AI record search: an OR of ANDs of conditions, a date scope and what the schema
    offers become one SOQL condition, with the parentheses that the source writes. */
module AiQuery {
  import opened Calendar
  import opened Options
  import opened Soql
  import opened Sorting

  datatype Error = InvalidInterpretation | MissingSchema | EmptySelection

  datatype Result<T> = Ok(value: T) | Err(error: Error)

  /** `relationship` is the name by which the referenced record is reached. */
  datatype FieldInfo = FieldInfo(filterable: bool, relationship: Option<string>)

  type Fields = map<string, FieldInfo>

  datatype Schema = Schema(stem: Fields, account: Fields, lineItem: Fields, extraCost: Fields, product: Fields,
      port: Fields)

  datatype Field =
    | Stem | Buyer | BuyerGroup | Supplier | Product | ExtraCost | Vessel | Port | PortCountry
    | DisputeStatus | StemStatus | StemType
    | Turnover | SupplierInvoiceAmount | Costs | GrossProfit | GrossMarginPercent | Volume

  datatype Operator =
    | Contains | NotContains | Equals | NotEquals
    | GreaterThan | GreaterThanOrEqual | LessThan | LessThanOrEqual | Between
    | Exists | NotExists

  /** `text` is the trimmed value; the numbers are the values as finite numbers. */
  datatype Search = Search(field: Field, operator: Operator, text: string, number: Option<real>, numberTo: Option<real>)

  datatype DateScope = SelectedPeriod | AllTime | Range(start: Option<Date>, end: Option<Date>)

  datatype Interpretation = Interpretation(ready: bool, includeCancelled: bool, dateScope: DateScope,
      groups: seq<seq<Search>>)

  // ----- what may be compiled -----

  predicate IsTextField(f: Field) {
    f in {Stem, Buyer, BuyerGroup, Supplier, Product, ExtraCost, Vessel, Port, PortCountry, DisputeStatus, StemStatus,
        StemType}
  }

  predicate IsTextOperator(o: Operator) {
    o in {Contains, NotContains, Equals, NotEquals, Exists, NotExists}
  }

  predicate IsNumericOperator(o: Operator) {
    o != Contains && o != NotContains
  }

  predicate ValidSearch(s: Search) {
    if IsTextField(s.field) then IsTextOperator(s.operator)
        && (s.operator == Exists || s.operator == NotExists || s.text != "")
    else
      && IsNumericOperator(s.operator)
      && (s.operator == Exists || s.operator == NotExists || s.number.Some?)
      && (s.operator == Between ==> s.numberTo.Some?)
  }

  predicate ValidScope(scope: DateScope) {
    scope.Range? ==> scope.start.Some? && scope.end.Some? && NotAfter(scope.start.value, scope.end.value)
  }

  predicate ValidInterpretation(i: Interpretation) {
    && i.ready
    && !(i.groups == [] && i.dateScope == SelectedPeriod)
    && ValidScope(i.dateScope)
    && |i.groups| <= 8
    && forall g :: 0 <= g < |i.groups| ==> 1 <= |i.groups[g]| <= 8 && forall c :: 0 <= c < |i.groups[g]| ==>
        ValidSearch(i.groups[g][c])
  }

  // ----- the schema -----

  predicate Filterable(fields: Fields, name: string) {
    name in fields && fields[name].filterable
  }

  function FilterableField(fields: Fields, candidates: seq<string>): Result<string> {
    if candidates == [] then Err(MissingSchema)
    else if Filterable(fields, candidates[0]) then Ok(candidates[0])
    else FilterableField(fields, candidates[1..])
  }

  function AvailableFields(fields: Fields, candidates: seq<string>): seq<string> {
    Filter((name: string) => Filterable(fields, name), candidates)
  }

  /** The relationship of the first filterable lookup. */
  function Relationship(fields: Fields, lookups: seq<string>): Result<string> {
    var lookup := FilterableField(fields, lookups);
    if lookup.Err? then Err(lookup.error)
    else if lookup.value in fields && fields[lookup.value].relationship.Some?
        then Ok(fields[lookup.value].relationship.value)
    else Err(MissingSchema)
  }

  function Path(relationship: string, field: string): string {
    relationship + "." + field
  }

  /** Fields of the rows of a child object, which point at the STEM by `lookup`. */
  datatype ChildFields = ChildFields(sobject: string, lookup: string, paths: seq<string>)

  /** Where a text condition looks. */
  datatype Target = OnRecord(paths: seq<string>) | OnChildren(children: seq<ChildFields>)

  function RecordTarget(paths: seq<string>): Result<Target> {
    if paths == [] then Err(MissingSchema) else Ok(OnRecord(paths))
  }

  function ChildTarget(sobject: string, fields: Fields, direct: seq<string>, related: seq<string>,
                       includeCancelled: bool): Result<ChildFields> {
    var lookup := FilterableField(fields, ["STEM__c"]);
    var paths := AvailableFields(fields, direct) + related;
    if lookup.Err? then Err(lookup.error)
    else if paths == [] then Err(MissingSchema)
    else if !includeCancelled && !Filterable(fields, CANCELLED) then Err(MissingSchema)
    else Ok(ChildFields(sobject, lookup.value, paths))
  }

  const CANCELLED := "Cancelled__c"
  const LINE_ITEM := "STEM_Line_Item__c"
  const EXTRA_COST := "STEM_Extra_Cost__c"

  function BuyerTarget(schema: Schema): Result<Target> {
    var direct := AvailableFields(schema.stem, ["Buyer_Name__c", "Buyer__c"]);
    if "Account__c" in schema.stem && "Name" in schema.account then
      var account := Relationship(schema.stem, ["Account__c"]);
      if account.Err? then Err(account.error) else RecordTarget(direct + [Path(account.value, "Name")])
    else RecordTarget(direct)
  }

  function BuyerGroupTarget(schema: Schema): Result<Target> {
    var account := Relationship(schema.stem, ["Account__c"]);
    if account.Err? then Err(account.error)
    else
      RecordTarget((if "Group_Name__c" in schema.account then [Path(account.value, "Group_Name__c")] else []) +
                   (if "ParentId" in schema.account then [Path(account.value, "Parent.Name")] else []))
  }

  function SupplierTarget(schema: Schema, includeCancelled: bool): Result<Target> {
    var line := ChildTarget(LINE_ITEM, schema.lineItem, ["Supplier_Name__c"], [], includeCancelled);
    var extra := ChildTarget(EXTRA_COST, schema.extraCost, ["Supplier_Name__c"], [], includeCancelled);
    if line.Err? then Err(line.error) else if extra.Err? then Err(extra.error)
        else Ok(OnChildren([line.value, extra.value]))
  }

  function OneChild(child: Result<ChildFields>): Result<Target> {
    if child.Err? then Err(child.error) else Ok(OnChildren([child.value]))
  }

  function ProductTarget(schema: Schema, includeCancelled: bool): Result<Target> {
    var product := Relationship(schema.lineItem, ["Product__c"]);
    if product.Err? then Err(product.error)
    else if !Filterable(schema.product, "Name") then Err(MissingSchema)
    else
      OneChild(ChildTarget(LINE_ITEM, schema.lineItem, ["Product_Name__c"],
                           [Path(product.value, "Name")]
                               + (if "Family" in schema.product then [Path(product.value, "Family")] else []),
                           includeCancelled))
  }

  function ExtraCostTarget(schema: Schema, includeCancelled: bool): Result<Target> {
    var product := Relationship(schema.extraCost, ["Product2Id__c", "Product__c"]);
    if product.Err? then Err(product.error)
    else if !Filterable(schema.product, "Name") then Err(MissingSchema)
    else
      OneChild(ChildTarget(EXTRA_COST, schema.extraCost, ["Name", "Description__c"], [Path(product.value, "Name")],
          includeCancelled))
  }

  function PortTarget(schema: Schema, nested: string): Result<Target> {
    var port := Relationship(schema.stem, ["Port__c"]);
    if nested !in schema.port then Err(MissingSchema)
    else if port.Err? then Err(port.error)
    else Ok(OnRecord([Path(port.value, nested)]))
  }

  function TargetOf(field: Field, schema: Schema, includeCancelled: bool): Result<Target> {
    match field
    case Stem => RecordTarget(AvailableFields(schema.stem, ["Name", "KeyStem__c"]))
    case Buyer => BuyerTarget(schema)
    case BuyerGroup => BuyerGroupTarget(schema)
    case Supplier => SupplierTarget(schema, includeCancelled)
    case Product => ProductTarget(schema, includeCancelled)
    case ExtraCost => ExtraCostTarget(schema, includeCancelled)
    case Vessel => RecordTarget(AvailableFields(schema.stem, ["Vessel__c", "Vessel_Name__c", "Vessel_Name_Text__c"]))
    case Port => PortTarget(schema, "Name")
    case PortCountry => PortTarget(schema, "Country__c")
    case DisputeStatus => RecordTarget(AvailableFields(schema.stem,
        ["Dispute_Status__c", "Dispute_Type__c", "Dispute_Particular__c"]))
    case StemStatus => RecordTarget(AvailableFields(schema.stem, ["Status__c"]))
    case StemType => RecordTarget(AvailableFields(schema.stem, ["Type__c"]))
    case _ => Err(MissingSchema)
  }

  function NumberCandidates(field: Field): seq<string> {
    match field
    case Turnover => ["Total_Invoice_Amount__c"]
    case SupplierInvoiceAmount => ["Total_Invoiced_Amount_From_Suppliers__c"]
    case Costs => ["Costs_Total__c", "QLIK_Costs_Total_Cost__c"]
    case GrossProfit =>
      ["Profit__c", "Net_Profit__c", "Gross_Profit__c", "Total_Profit__c", "ProfitAmount__c", "QLIK_Total_Profit__c"]
    case GrossMarginPercent =>
      ["Gross_Margin_Percentage__c", "Gross_Margin__c", "Margin_Percentage__c", "Margin__c"]
    case Volume =>
      ["Total_Volume__c", "Volume__c", "Total_Quantity_in_MT__c", "Quantity_in_MT__c", "Total_Quantity__c"]
    case _ => []
  }

  function NumberField(field: Field, schema: Schema): Result<string> {
    FilterableField(schema.stem, NumberCandidates(field))
  }

  // ----- predicates -----

  predicate Negative(o: Operator) {
    o == NotContains || o == NotEquals || o == NotExists
  }

  function Positive(o: Operator): Operator {
    match o
    case NotContains => Contains
    case NotEquals => Equals
    case NotExists => Exists
    case _ => o
  }

  function TextPredicate(field: string, operator: Operator, value: string): Condition
    requires IsTextOperator(operator)
  {
    match operator
    case Exists => TextIsPresent(field)
    case NotExists => TextIsNull(field)
    case Contains => TextLike(field, "%" + Escape(value) + "%")
    case NotContains => Parens(Joined(Or, [TextIsNull(field), Not(TextLike(field, "%" + Escape(value) + "%"))]))
    case Equals => TextEquals(field, Escape(value))
    case NotEquals => Parens(Joined(Or, [TextIsNull(field), TextDiffers(field, Escape(value))]))
  }

  function TextPredicates(fields: seq<string>, operator: Operator, value: string): seq<Condition>
    requires IsTextOperator(operator)
  {
    seq(|fields|, i requires 0 <= i < |fields| => TextPredicate(fields[i], operator, value))
  }

  /** One predicate stands alone, several are joined in parentheses. */
  function Across(predicates: seq<Condition>, operator: Operator): Condition {
    if |predicates| == 1 then predicates[0] else Parens(Joined(if Negative(operator) then And else Or, predicates))
  }

  function TextPredicateAcross(fields: seq<string>, operator: Operator, value: string): Condition
    requires IsTextOperator(operator)
  {
    Across(TextPredicates(fields, operator, value), operator)
  }

  function ChildWhere(child: ChildFields, operator: Operator, value: string, includeCancelled: bool): Condition
    requires IsTextOperator(operator)
  {
    var found := TextPredicateAcross(child.paths, operator, value);
    Join(And, InParens((if includeCancelled then [] else [FlagIsFalse(CANCELLED)]) + [found]))
  }

  /** `Id IN` or `Id NOT IN` the STEMs of the children that match the positive operator. */
  function ChildTextSearch(child: ChildFields, operator: Operator, value: string, includeCancelled: bool): Condition
    requires IsTextOperator(operator)
  {
    HasChild(Negative(operator), child.sobject, child.lookup,
        ChildWhere(child, Positive(operator), value, includeCancelled))
  }

  function ChildSearches(children: seq<ChildFields>, operator: Operator, value: string,
                         includeCancelled: bool): seq<Condition>
    requires IsTextOperator(operator)
  {
    seq(|children|, i requires 0 <= i < |children| => ChildTextSearch(children[i], operator, value, includeCancelled))
  }

  function CompileTarget(target: Target, operator: Operator, value: string, includeCancelled: bool): Condition
    requires IsTextOperator(operator)
  {
    match target
    case OnRecord(paths) => TextPredicateAcross(paths, operator, value)
    case OnChildren(children) => Across(ChildSearches(children, operator, value, includeCancelled), operator)
  }

  function NumericPredicate(field: string, s: Search): Condition
    requires !IsTextField(s.field) && ValidSearch(s)
  {
    match s.operator
    case Exists => NumberIsPresent(field)
    case NotExists => NumberIsNull(field)
    case Between =>
      var first, second := s.number.value, s.numberTo.value;
      Parens(Joined(And, [NumberCompares(field, AtLeast, if first < second then first else second),
                          NumberCompares(field, AtMost, if first < second then second else first)]))
    case Equals => NumberCompares(field, Equal, s.number.value)
    case NotEquals => NumberCompares(field, Unequal, s.number.value)
    case GreaterThan => NumberCompares(field, Greater, s.number.value)
    case GreaterThanOrEqual => NumberCompares(field, AtLeast, s.number.value)
    case LessThan => NumberCompares(field, Less, s.number.value)
    case LessThanOrEqual => NumberCompares(field, AtMost, s.number.value)
  }

  function CompileSearch(s: Search, schema: Schema, includeCancelled: bool): Result<Condition>
    requires ValidSearch(s)
  {
    if IsTextField(s.field) then
      var target := TargetOf(s.field, schema, includeCancelled);
      if target.Err? then Err(target.error) else Ok(CompileTarget(target.value, s.operator, s.text, includeCancelled))
    else
      var field := NumberField(s.field, schema);
      if field.Err? then Err(field.error) else Ok(NumericPredicate(field.value, s))
  }

  // ----- dates -----

  const DELIVERY := "Delivery_Date__c"
  const EXPECTED := "Expected_Delivery_Date__c"

  /** The integers within bounds, once each, ascending. */
  function Normalized(values: seq<int>, min: int, max: int): seq<int> {
    DistinctDates(Filter((value: int) => min <= value <= max, values))
  }

  function MonthStart(year: int, month: int): Date {
    Date(year, month, 1)
  }

  function NextMonthStart(year: int, month: int): Date {
    if month == 12 then Date(year + 1, 1, 1) else Date(year, month + 1, 1)
  }

  /** Two bounds on the delivery date, or on the expected one if there is no delivery date. */
  function Bounds(low: Date, comparison: Comparison, high: Date): Condition {
    Joined(Or, [
      Parens(Joined(And, [DateCompares(DELIVERY, AtLeast, low), DateCompares(DELIVERY, comparison, high)])),
      Parens(Joined(And, [DateIsNull(DELIVERY), DateCompares(EXPECTED, AtLeast, low),
          DateCompares(EXPECTED, comparison, high)]))])
  }

  function MonthRange(year: int, month: int): Condition {
    Bounds(MonthStart(year, month), Less, NextMonthStart(year, month))
  }

  function RangesOfYear(year: int, months: seq<int>): seq<Condition> {
    seq(|months|, i requires 0 <= i < |months| => MonthRange(year, months[i]))
  }

  function MonthRanges(years: seq<int>, months: seq<int>): seq<Condition> {
    if years == [] then [] else MonthRanges(years[..|years| - 1], months) + RangesOfYear(years[|years| - 1], months)
  }

  function SelectedDateWhere(years: seq<int>, months: seq<int>): Result<Condition> {
    var y, m := Normalized(years, 2000, 2100), Normalized(months, 1, 12);
    if y == [] || m == [] then Err(EmptySelection) else Ok(Parens(Join(Or, InParens(MonthRanges(y, m)))))
  }

  method BuildSelectedDashboardDateWhere(selectedYears: seq<int>, selectedMonths: seq<int>)
    returns (where: Result<Condition>)
    ensures where == SelectedDateWhere(selectedYears, selectedMonths)
  {
    var years, months := Normalized(selectedYears, 2000, 2100), Normalized(selectedMonths, 1, 12);
    if years == [] || months == [] {
      return Err(EmptySelection);
    }
    var monthRanges := [];
    var i := 0;
    while i < |years|
      invariant 0 <= i <= |years|
      invariant monthRanges == MonthRanges(years[..i], months)
    {
      assert years[..i + 1][..i] == years[..i];
      ghost var before := monthRanges;
      var j := 0;
      while j < |months|
        invariant 0 <= j <= |months|
        invariant monthRanges == before + RangesOfYear(years[i], months)[..j]
      {
        monthRanges := monthRanges + [MonthRange(years[i], months[j])];
        j := j + 1;
      }
      i := i + 1;
    }
    assert years[..i] == years;
    return Ok(Parens(Join(Or, InParens(monthRanges))));
  }

  function RangeWhere(start: Date, end: Date): Condition {
    Parens(Bounds(start, AtMost, end))
  }

  /** No condition for all time. */
  function DateWhere(scope: DateScope, years: seq<int>, months: seq<int>): Result<seq<Condition>>
    requires ValidScope(scope)
  {
    match scope
    case AllTime => Ok([])
    case SelectedPeriod =>
      var where := SelectedDateWhere(years, months);
      if where.Err? then Err(where.error) else Ok([where.value])
    case Range(start, end) => Ok([RangeWhere(start.value, end.value)])
  }

  // ----- the whole condition -----

  function CompileSearches(searches: seq<Search>, schema: Schema, includeCancelled: bool): Result<seq<Condition>>
    requires forall c :: 0 <= c < |searches| ==> ValidSearch(searches[c])
  {
    if searches == [] then Ok([])
    else
      var first := CompileSearch(searches[0], schema, includeCancelled);
      var rest := CompileSearches(searches[1..], schema, includeCancelled);
      if first.Err? then Err(first.error) else if rest.Err? then rest else Ok([first.value] + rest.value)
  }

  function GroupCondition(predicates: seq<Condition>): Condition {
    Parens(Join(And, InParens(predicates)))
  }

  function CompileGroups(groups: seq<seq<Search>>, schema: Schema, includeCancelled: bool): Result<seq<Condition>>
    requires forall g :: 0 <= g < |groups| ==> forall c :: 0 <= c < |groups[g]| ==> ValidSearch(groups[g][c])
  {
    if groups == [] then Ok([])
    else
      var first := CompileSearches(groups[0], schema, includeCancelled);
      var rest := CompileGroups(groups[1..], schema, includeCancelled);
      if first.Err? then Err(first.error) else if rest.Err? then rest
          else Ok([GroupCondition(first.value)] + rest.value)
  }

  function CompileWhere(i: Interpretation, schema: Schema, years: seq<int>, months: seq<int>): Result<Condition> {
    if !ValidInterpretation(i) then Err(InvalidInterpretation)
    else
      var groups := CompileGroups(i.groups, schema, i.includeCancelled);
      var date := DateWhere(i.dateScope, years, months);
      if groups.Err? then Err(groups.error)
      else if date.Err? then Err(date.error)
      else
        var record := if groups.value == [] then [] else [Parens(Join(Or, groups.value))];
        Ok(Join(And, InParens(date.value + record)))
  }

  // ----- what the conditions mean -----

  /** A text against a positive operator. */
  predicate Fits(text: string, operator: Operator, value: string) {
    match operator
    case Contains => LikeAround(text, value)
    case Equals => text == value
    case _ => true
  }

  /** Some of the fields has a text that fits. */
  predicate Found(r: Record, paths: seq<string>, operator: Operator, value: string) {
    exists i :: 0 <= i < |paths| && paths[i] in r.texts && Fits(r.texts[paths[i]], operator, value)
  }

  predicate ChildOf(child: Record, lookup: string, r: Record) {
    lookup in child.lookups && child.lookups[lookup] == r.id
  }

  /** Some child of the STEM, cancelled ones only if they are included, has a fitting text. */
  predicate FoundInChildren(r: Record, database: Database, child: ChildFields, operator: Operator, value: string,
                            includeCancelled: bool) {
    var rows := Rows(database, child.sobject);
    exists k :: 0 <= k < |rows| && ChildOf(rows[k], child.lookup, r)
        && (includeCancelled || CANCELLED !in rows[k].flags)
             && Found(rows[k], child.paths, operator, value)
  }

  predicate MatchesTarget(r: Record, database: Database, target: Target, operator: Operator, value: string,
                          includeCancelled: bool) {
    match target
    case OnRecord(paths) => Found(r, paths, operator, value)
    case OnChildren(children) =>
      exists i :: 0 <= i < |children| && FoundInChildren(r, database, children[i], operator, value, includeCancelled)
  }

  predicate TextHolds(r: Record, database: Database, target: Target, operator: Operator, value: string,
                      includeCancelled: bool) {
    if Negative(operator) then !MatchesTarget(r, database, target, Positive(operator), value, includeCancelled)
    else MatchesTarget(r, database, target, operator, value, includeCancelled)
  }

  /** Only `not equals` depends on what SOQL makes of a null number. */
  predicate NumberHolds(n: Option<real>, s: Search, nulls: Nulls)
    requires !IsTextField(s.field) && ValidSearch(s)
  {
    match s.operator
    case Exists => n.Some?
    case NotExists => n.None?
    case NotEquals => if n.None? then nulls.differing == Yes else n.value != s.number.value
    case Between => n.Some? && (s.number.value <= n.value <= s.numberTo.value
        || s.numberTo.value <= n.value <= s.number.value)
    case Equals => n.Some? && n.value == s.number.value
    case GreaterThan => n.Some? && n.value > s.number.value
    case GreaterThanOrEqual => n.Some? && n.value >= s.number.value
    case LessThan => n.Some? && n.value < s.number.value
    case LessThanOrEqual => n.Some? && n.value <= s.number.value
  }

  function NumberOf(r: Record, field: string): Option<real> {
    if field in r.numbers then Some(r.numbers[field]) else None
  }

  // ----- what the conditions ask, field by field -----

  /** The record has a text of that name, and it fits. */
  predicate Shows(r: Record, name: string, operator: Operator, value: string) {
    name in r.texts && Fits(r.texts[name], operator, value)
  }

  predicate ShowsOwn(r: Record, fields: Fields, name: string, operator: Operator, value: string) {
    Filterable(fields, name) && Shows(r, name, operator, value)
  }

  /** The lookup can be followed. */
  predicate Follows(fields: Fields, lookup: string) {
    Filterable(fields, lookup) && fields[lookup].relationship.Some?
  }

  /** The record shows a text of the record that a lookup leads to. */
  predicate ShowsBehind(r: Record, fields: Fields, lookup: string, name: string, operator: Operator, value: string) {
    Follows(fields, lookup) && Shows(r, fields[lookup].relationship.value + "." + name, operator, value)
  }

  /** An order line or extra cost of the STEM, a cancelled one only if those are included. */
  predicate CountsFor(row: Record, r: Record, includeCancelled: bool) {
    && "STEM__c" in row.lookups && row.lookups["STEM__c"] == r.id
    && (includeCancelled || "Cancelled__c" !in row.flags)
  }

  predicate ShowsProduct(row: Record, schema: Schema, operator: Operator, value: string) {
    || ShowsOwn(row, schema.lineItem, "Product_Name__c", operator, value)
    || ShowsBehind(row, schema.lineItem, "Product__c", "Name", operator, value)
    || ("Family" in schema.product && ShowsBehind(row, schema.lineItem, "Product__c", "Family", operator, value))
  }

  predicate ShowsExtraCost(row: Record, schema: Schema, operator: Operator, value: string) {
    || ShowsOwn(row, schema.extraCost, "Name", operator, value)
    || ShowsOwn(row, schema.extraCost, "Description__c", operator, value)
    || (if Filterable(schema.extraCost, "Product2Id__c")
        then ShowsBehind(row, schema.extraCost, "Product2Id__c", "Name", operator, value)
        else ShowsBehind(row, schema.extraCost, "Product__c", "Name", operator, value))
  }

  predicate BuyerShown(r: Record, schema: Schema, operator: Operator, value: string) {
    || ShowsOwn(r, schema.stem, "Buyer_Name__c", operator, value)
    || ShowsOwn(r, schema.stem, "Buyer__c", operator, value)
    || ("Name" in schema.account && ShowsBehind(r, schema.stem, "Account__c", "Name", operator, value))
  }

  predicate BuyerGroupShown(r: Record, schema: Schema, operator: Operator, value: string) {
    || ("Group_Name__c" in schema.account && ShowsBehind(r, schema.stem, "Account__c", "Group_Name__c", operator,
        value))
    || ("ParentId" in schema.account && ShowsBehind(r, schema.stem, "Account__c", "Parent.Name", operator, value))
  }

  /** Some row of the STEM in a child object shows its supplier. */
  predicate SupplierShownIn(rows: seq<Record>, fields: Fields, includeCancelled: bool, r: Record, operator: Operator,
                            value: string)
  {
    exists k :: 0 <= k < |rows| && CountsFor(rows[k], r, includeCancelled)
        && ShowsOwn(rows[k], fields, "Supplier_Name__c", operator, value)
  }

  predicate ProductShownIn(lines: seq<Record>, schema: Schema, includeCancelled: bool, r: Record, operator: Operator,
                           value: string)
  {
    exists k :: 0 <= k < |lines| && CountsFor(lines[k], r, includeCancelled)
        && ShowsProduct(lines[k], schema, operator, value)
  }

  predicate ExtraCostShownIn(extras: seq<Record>, schema: Schema, includeCancelled: bool, r: Record,
                             operator: Operator, value: string)
  {
    exists k :: 0 <= k < |extras| && CountsFor(extras[k], r, includeCancelled)
        && ShowsExtraCost(extras[k], schema, operator, value)
  }

  /** Some text of the STEM, or of a row of it, that the field stands for fits a positive operator. */
  predicate TextShown(field: Field, schema: Schema, includeCancelled: bool, r: Record, database: Database,
                      operator: Operator, value: string)
  {
    var lines, extras := Rows(database, "STEM_Line_Item__c"), Rows(database, "STEM_Extra_Cost__c");
    match field
    case Stem =>
      || ShowsOwn(r, schema.stem, "Name", operator, value)
      || ShowsOwn(r, schema.stem, "KeyStem__c", operator, value)
    case Buyer => BuyerShown(r, schema, operator, value)
    case BuyerGroup => BuyerGroupShown(r, schema, operator, value)
    case Supplier =>
      || SupplierShownIn(lines, schema.lineItem, includeCancelled, r, operator, value)
      || SupplierShownIn(extras, schema.extraCost, includeCancelled, r, operator, value)
    case Product => ProductShownIn(lines, schema, includeCancelled, r, operator, value)
    case ExtraCost => ExtraCostShownIn(extras, schema, includeCancelled, r, operator, value)
    case Vessel =>
      || ShowsOwn(r, schema.stem, "Vessel__c", operator, value)
      || ShowsOwn(r, schema.stem, "Vessel_Name__c", operator, value)
      || ShowsOwn(r, schema.stem, "Vessel_Name_Text__c", operator, value)
    case Port => ShowsBehind(r, schema.stem, "Port__c", "Name", operator, value)
    case PortCountry => ShowsBehind(r, schema.stem, "Port__c", "Country__c", operator, value)
    case DisputeStatus =>
      || ShowsOwn(r, schema.stem, "Dispute_Status__c", operator, value)
      || ShowsOwn(r, schema.stem, "Dispute_Type__c", operator, value)
      || ShowsOwn(r, schema.stem, "Dispute_Particular__c", operator, value)
    case StemStatus => ShowsOwn(r, schema.stem, "Status__c", operator, value)
    case StemType => ShowsOwn(r, schema.stem, "Type__c", operator, value)
    case _ => false
  }

  /** The rows of a child object can be found. */
  predicate RowsFound(fields: Fields, includeCancelled: bool) {
    Filterable(fields, "STEM__c") && (includeCancelled || Filterable(fields, "Cancelled__c"))
  }

  predicate BuyerAnswers(schema: Schema) {
    if "Account__c" in schema.stem && "Name" in schema.account then Follows(schema.stem, "Account__c")
    else Filterable(schema.stem, "Buyer_Name__c") || Filterable(schema.stem, "Buyer__c")
  }

  predicate BuyerGroupAnswers(schema: Schema) {
    Follows(schema.stem, "Account__c") && ("Group_Name__c" in schema.account || "ParentId" in schema.account)
  }

  predicate SupplierAnswers(schema: Schema, includeCancelled: bool) {
    && RowsFound(schema.lineItem, includeCancelled) && Filterable(schema.lineItem, "Supplier_Name__c")
    && RowsFound(schema.extraCost, includeCancelled) && Filterable(schema.extraCost, "Supplier_Name__c")
  }

  predicate ProductAnswers(schema: Schema, includeCancelled: bool) {
    && Follows(schema.lineItem, "Product__c") && Filterable(schema.product, "Name")
    && RowsFound(schema.lineItem, includeCancelled)
  }

  predicate ExtraCostAnswers(schema: Schema, includeCancelled: bool) {
    && (if Filterable(schema.extraCost, "Product2Id__c") then Follows(schema.extraCost, "Product2Id__c")
        else Follows(schema.extraCost, "Product__c"))
    && Filterable(schema.product, "Name")
    && RowsFound(schema.extraCost, includeCancelled)
  }

  /** The schema offers what a text field stands for. */
  predicate Answers(field: Field, schema: Schema, includeCancelled: bool) {
    match field
    case Stem => Filterable(schema.stem, "Name") || Filterable(schema.stem, "KeyStem__c")
    case Buyer => BuyerAnswers(schema)
    case BuyerGroup => BuyerGroupAnswers(schema)
    case Supplier => SupplierAnswers(schema, includeCancelled)
    case Product => ProductAnswers(schema, includeCancelled)
    case ExtraCost => ExtraCostAnswers(schema, includeCancelled)
    case Vessel =>
      || Filterable(schema.stem, "Vessel__c")
      || Filterable(schema.stem, "Vessel_Name__c")
      || Filterable(schema.stem, "Vessel_Name_Text__c")
    case Port => Follows(schema.stem, "Port__c") && "Name" in schema.port
    case PortCountry => Follows(schema.stem, "Port__c") && "Country__c" in schema.port
    case DisputeStatus =>
      || Filterable(schema.stem, "Dispute_Status__c")
      || Filterable(schema.stem, "Dispute_Type__c")
      || Filterable(schema.stem, "Dispute_Particular__c")
    case StemStatus => Filterable(schema.stem, "Status__c")
    case StemType => Filterable(schema.stem, "Type__c")
    case _ => false
  }

  /** The first of the numbers that may be filtered by. */
  predicate IsFirst(fields: Fields, names: seq<string>, k: nat)
    requires k < |names|
  {
    Filterable(fields, names[k]) && forall j :: 0 <= j < k ==> !Filterable(fields, names[j])
  }

  predicate FirstHolds(names: seq<string>, s: Search, schema: Schema, r: Record, nulls: Nulls)
    requires !IsTextField(s.field) && ValidSearch(s)
  {
    exists k :: 0 <= k < |names| && IsFirst(schema.stem, names, k) && NumberHolds(NumberOf(r, names[k]), s, nulls)
  }

  predicate AnyFilterable(fields: Fields, names: seq<string>) {
    exists k :: 0 <= k < |names| && Filterable(fields, names[k])
  }

  /** What a search condition asks of a STEM. */
  predicate Holds(s: Search, schema: Schema, includeCancelled: bool, r: Record, database: Database, nulls: Nulls)
    requires ValidSearch(s)
  {
    match s.field
    case Turnover => FirstHolds(["Total_Invoice_Amount__c"], s, schema, r, nulls)
    case SupplierInvoiceAmount => FirstHolds(["Total_Invoiced_Amount_From_Suppliers__c"], s, schema, r, nulls)
    case Costs => FirstHolds(["Costs_Total__c", "QLIK_Costs_Total_Cost__c"], s, schema, r, nulls)
    case GrossProfit =>
      FirstHolds(["Profit__c", "Net_Profit__c", "Gross_Profit__c", "Total_Profit__c", "ProfitAmount__c",
                  "QLIK_Total_Profit__c"], s, schema, r, nulls)
    case GrossMarginPercent =>
      FirstHolds(["Gross_Margin_Percentage__c", "Gross_Margin__c", "Margin_Percentage__c", "Margin__c"], s, schema, r,
                 nulls)
    case Volume =>
      FirstHolds(["Total_Volume__c", "Volume__c", "Total_Quantity_in_MT__c", "Quantity_in_MT__c",
                  "Total_Quantity__c"], s, schema, r, nulls)
    case _ =>
      && Answers(s.field, schema, includeCancelled)
      && if Negative(s.operator)
         then !TextShown(s.field, schema, includeCancelled, r, database, Positive(s.operator), s.text)
         else TextShown(s.field, schema, includeCancelled, r, database, s.operator, s.text)
  }

  /** The delivery date, else the expected one. */
  function EffectiveDate(r: Record): Option<Date> {
    if "Delivery_Date__c" in r.dates then Some(r.dates["Delivery_Date__c"])
    else if "Expected_Delivery_Date__c" in r.dates then Some(r.dates["Expected_Delivery_Date__c"])
    else None
  }

  predicate InScope(r: Record, scope: DateScope, years: seq<int>, months: seq<int>)
    requires ValidScope(scope)
  {
    var date := EffectiveDate(r);
    match scope
    case AllTime => true
    case SelectedPeriod => date.Some? && 2000 <= date.value.year <= 2100 && date.value.year in years
        && date.value.month in months
    case Range(start, end) => date.Some? && NotAfter(start.value, date.value) && NotAfter(date.value, end.value)
  }

  ghost predicate RealDates(r: Record) {
    forall f :: f in r.dates ==> ValidDate(r.dates[f])
  }

  // ----- the compiled text conditions -----

  lemma {:induction false} LiteralsReadBack(value: string)
    ensures LiteralText(Escape(value)) == Literal(CharsOf(value), "") && Plain(CharsOf(value)) == value
    ensures LiteralText("%" + Escape(value) + "%").Literal?
    ensures PatternOf(LiteralText("%" + Escape(value) + "%").chars) == [Any] + PatternOf(CharsOf(value)) + [Any]
  {
    EscapedReadsBack(value, "");
    EscapedReadsAround(value);
    assert "'" + "" == "'";
  }

  /** What the four comparisons with a text make of a record. */
  lemma {:induction false} TextComparisons(r: Record, database: Database, nulls: Nulls, field: string, value: string)
    ensures Eval(TextLike(field, "%" + Escape(value) + "%"), r, database, nulls)
         == if field in r.texts then Of(Fits(r.texts[field], Contains, value)) else nulls.matching
    ensures Eval(TextEquals(field, Escape(value)), r, database, nulls)
         == if field in r.texts then Of(Fits(r.texts[field], Equals, value)) else nulls.matching
    ensures Eval(TextDiffers(field, Escape(value)), r, database, nulls)
         == if field in r.texts then Of(!Fits(r.texts[field], Equals, value)) else nulls.differing
  {
    LiteralsReadBack(value);
  }

  /** A text predicate on one field, and its negative counterpart, which is true exactly when the
      positive one is not, nulls included. */
  lemma TextPredicateMeaning(r: Record, database: Database, nulls: Nulls, field: string, operator: Operator,
                             value: string)
    requires IsTextOperator(operator) && nulls.Valid()
    ensures Selects(TextPredicate(field, operator, value), r, database, nulls) <==>
            if Negative(operator) then !(field in r.texts && Fits(r.texts[field], Positive(operator), value))
            else field in r.texts && Fits(r.texts[field], operator, value)
  {
    var like := TextLike(field, "%" + Escape(value) + "%");
    TextComparisons(r, database, nulls, field, value);
    SelectsTwo(Or, TextIsNull(field), Not(like), r, database, nulls);
    SelectsTwo(Or, TextIsNull(field), TextDiffers(field, Escape(value)), r, database, nulls);
    SelectsNot(like, r, database, nulls);
  }

  lemma SelectsAcross(predicates: seq<Condition>, operator: Operator, r: Record, database: Database, nulls: Nulls)
    ensures Selects(Across(predicates, operator), r, database, nulls) <==>
            if Negative(operator) then forall k :: 0 <= k < |predicates| ==> Selects(predicates[k], r, database, nulls)
            else exists k :: 0 <= k < |predicates| && Selects(predicates[k], r, database, nulls)
  {
    var word := if Negative(operator) then And else Or;
    SelectsJoin(word, predicates, r, database, nulls);
    SelectsParens(Joined(word, predicates), r, database, nulls);
  }

  lemma AcrossMeaning(r: Record, database: Database, nulls: Nulls, paths: seq<string>, operator: Operator,
                      value: string)
    requires IsTextOperator(operator) && nulls.Valid()
    ensures Selects(TextPredicateAcross(paths, operator, value), r, database, nulls) <==>
            if Negative(operator) then !Found(r, paths, Positive(operator), value) else Found(r, paths, operator, value)
  {
    var predicates := TextPredicates(paths, operator, value);
    SelectsAcross(predicates, operator, r, database, nulls);
    forall i | 0 <= i < |paths|
      ensures Selects(predicates[i], r, database, nulls) <==>
              if Negative(operator) then !(paths[i] in r.texts && Fits(r.texts[paths[i]], Positive(operator), value))
              else paths[i] in r.texts && Fits(r.texts[paths[i]], operator, value)
    {
      TextPredicateMeaning(r, database, nulls, paths[i], operator, value);
    }
  }

  lemma PositiveIsText(operator: Operator)
    requires IsTextOperator(operator)
    ensures IsTextOperator(Positive(operator)) && !Negative(Positive(operator))
            && Positive(Positive(operator)) == Positive(operator)
  {
  }

  lemma ChildWhereMeaning(row: Record, database: Database, nulls: Nulls, child: ChildFields, operator: Operator,
                          value: string, includeCancelled: bool)
    requires IsTextOperator(operator) && !Negative(operator) && nulls.Valid()
    ensures Selects(ChildWhere(child, operator, value, includeCancelled), row, database, nulls) <==>
            (includeCancelled || CANCELLED !in row.flags) && Found(row, child.paths, operator, value)
  {
    var flag, found := FlagIsFalse(CANCELLED), TextPredicateAcross(child.paths, operator, value);
    var parts := (if includeCancelled then [] else [flag]) + [found];
    AcrossMeaning(row, database, nulls, child.paths, operator, value);
    SelectsInParens(And, parts, row, database, nulls);
    assert if includeCancelled then parts[0] == found else parts[0] == flag && parts[1] == found;
  }

  lemma ChildSearchMeaning(r: Record, database: Database, nulls: Nulls, child: ChildFields, operator: Operator,
                           value: string, includeCancelled: bool)
    requires IsTextOperator(operator) && nulls.Valid()
    ensures Selects(ChildTextSearch(child, operator, value, includeCancelled), r, database, nulls) <==>
            (Negative(operator) <==> !FoundInChildren(r, database, child, Positive(operator), value, includeCancelled))
  {
    var rows, positive := Rows(database, child.sobject), Positive(operator);
    PositiveIsText(operator);
    forall k | 0 <= k < |rows|
      ensures Selects(ChildWhere(child, positive, value, includeCancelled), rows[k], database, nulls) <==>
              (includeCancelled || CANCELLED !in rows[k].flags) && Found(rows[k], child.paths, positive, value)
    {
      ChildWhereMeaning(rows[k], database, nulls, child, positive, value, includeCancelled);
    }
  }

  /** A compiled text condition selects exactly the records for which it holds. */
  lemma TextMeaning(r: Record, database: Database, nulls: Nulls, target: Target, operator: Operator, value: string,
                    includeCancelled: bool)
    requires IsTextOperator(operator) && nulls.Valid()
    ensures Selects(CompileTarget(target, operator, value, includeCancelled), r, database, nulls) <==>
            TextHolds(r, database, target, operator, value, includeCancelled)
  {
    match target
    case OnRecord(paths) =>
      AcrossMeaning(r, database, nulls, paths, operator, value);
    case OnChildren(children) =>
      var searches := ChildSearches(children, operator, value, includeCancelled);
      SelectsAcross(searches, operator, r, database, nulls);
      forall i | 0 <= i < |children|
        ensures Selects(searches[i], r, database, nulls) <==>
                (Negative(operator) <==> !FoundInChildren(r, database, children[i], Positive(operator), value,
                    includeCancelled))
      {
        ChildSearchMeaning(r, database, nulls, children[i], operator, value, includeCancelled);
      }
  }

  /** Every negative text condition, the child `NOT IN` and the supplier's AND included, selects exactly
      the records that its positive condition does not, whatever nulls do. */
  lemma NegativeIsComplement(r: Record, database: Database, nulls: Nulls, target: Target, operator: Operator,
                             value: string, includeCancelled: bool)
    requires IsTextOperator(operator) && Negative(operator) && nulls.Valid()
    ensures IsTextOperator(Positive(operator))
    ensures Selects(CompileTarget(target, operator, value, includeCancelled), r, database, nulls) <==>
            !Selects(CompileTarget(target, Positive(operator), value, includeCancelled), r, database, nulls)
  {
    PositiveIsText(operator);
    TextMeaning(r, database, nulls, target, operator, value, includeCancelled);
    TextMeaning(r, database, nulls, target, Positive(operator), value, includeCancelled);
  }

  // ----- numbers and dates -----

  lemma NumericMeaning(r: Record, database: Database, nulls: Nulls, field: string, s: Search)
    requires !IsTextField(s.field) && ValidSearch(s) && nulls.Valid()
    ensures Selects(NumericPredicate(field, s), r, database, nulls) <==> NumberHolds(NumberOf(r, field), s, nulls)
  {
    if s.operator == Between {
      var first, second := s.number.value, s.numberTo.value;
      SelectsTwo(And, NumberCompares(field, AtLeast, if first < second then first else second),
                    NumberCompares(field, AtMost, if first < second then second else first), r, database, nulls);
    }
  }

  lemma BoundsMeaning(r: Record, database: Database, nulls: Nulls, low: Date, comparison: Comparison, high: Date)
    requires nulls.Valid() && comparison != Unequal
    ensures Selects(Bounds(low, comparison, high), r, database, nulls) <==>
            var date := EffectiveDate(r);
            date.Some? && NotAfter(low, date.value) && OfComparison(comparison, Before(date.value, high),
                date.value == high) == Yes
  {
    var delivered := [DateCompares(DELIVERY, AtLeast, low), DateCompares(DELIVERY, comparison, high)];
    var expected := [DateIsNull(DELIVERY), DateCompares(EXPECTED, AtLeast, low),
        DateCompares(EXPECTED, comparison, high)];
    SelectsTwo(And, delivered[0], delivered[1], r, database, nulls);
    SelectsThree(expected[0], expected[1], expected[2], r, database, nulls);
    var either := [Parens(Joined(And, delivered)), Parens(Joined(And, expected))];
    SelectsJoin(Or, either, r, database, nulls);
    assert Bounds(low, comparison, high) == Join(Or, either);
    assert either[0] == Parens(Joined(And, delivered)) && either[1] == Parens(Joined(And, expected));
  }

  lemma MonthMeaning(r: Record, database: Database, nulls: Nulls, year: int, month: int)
    requires nulls.Valid() && RealDates(r) && 1 <= month <= 12
    ensures Selects(MonthRange(year, month), r, database, nulls) <==>
            EffectiveDate(r).Some? && EffectiveDate(r).value.year == year && EffectiveDate(r).value.month == month
  {
    BoundsMeaning(r, database, nulls, MonthStart(year, month), Less, NextMonthStart(year, month));
  }

  lemma RangeMeaning(r: Record, database: Database, nulls: Nulls, start: Date, end: Date)
    requires nulls.Valid()
    ensures Selects(RangeWhere(start, end), r, database, nulls) <==>
            EffectiveDate(r).Some? && NotAfter(start, EffectiveDate(r).value) && NotAfter(EffectiveDate(r).value, end)
  {
    BoundsMeaning(r, database, nulls, start, AtMost, end);
    SelectsParens(Bounds(start, AtMost, end), r, database, nulls);
  }

  ghost predicate InMonths(r: Record, years: seq<int>, months: seq<int>) {
    EffectiveDate(r).Some? && EffectiveDate(r).value.year in years && EffectiveDate(r).value.month in months
  }

  lemma YearMeaning(r: Record, database: Database, nulls: Nulls, year: int, months: seq<int>)
    requires nulls.Valid() && RealDates(r) && forall m :: m in months ==> 1 <= m <= 12
    ensures (exists k ::
               0 <= k < |RangesOfYear(year, months)| && Selects(RangesOfYear(year, months)[k], r, database, nulls)) <==>
            InMonths(r, [year], months)
  {
    forall k | 0 <= k < |months|
      ensures Selects(RangesOfYear(year, months)[k], r, database, nulls) <==>
              EffectiveDate(r).Some? && EffectiveDate(r).value.year == year && EffectiveDate(r).value.month == months[k]
    {
      assert months[k] in months;
      MonthMeaning(r, database, nulls, year, months[k]);
    }
  }

  ghost predicate SomeSelects(cs: seq<Condition>, r: Record, database: Database, nulls: Nulls) {
    exists k :: 0 <= k < |cs| && Selects(cs[k], r, database, nulls)
  }

  lemma SomeSelectsAppend(a: seq<Condition>, b: seq<Condition>, r: Record, database: Database, nulls: Nulls)
    ensures SomeSelects(a + b, r, database, nulls) <==>
            SomeSelects(a, r, database, nulls) || SomeSelects(b, r, database, nulls)
  {
    if k :| 0 <= k < |a| && Selects(a[k], r, database, nulls) {
      assert (a + b)[k] == a[k];
    }
    if k :| 0 <= k < |b| && Selects(b[k], r, database, nulls) {
      assert (a + b)[|a| + k] == b[k];
    }
  }

  lemma {:induction false} MonthsMeaning(r: Record, database: Database, nulls: Nulls, years: seq<int>, months: seq<int>)
    requires nulls.Valid() && RealDates(r) && forall m :: m in months ==> 1 <= m <= 12
    ensures SomeSelects(MonthRanges(years, months), r, database, nulls) <==> InMonths(r, years, months)
  {
    if years != [] {
      var n := |years| - 1;
      MonthsMeaning(r, database, nulls, years[..n], months);
      YearMeaning(r, database, nulls, years[n], months);
      SomeSelectsAppend(MonthRanges(years[..n], months), RangesOfYear(years[n], months), r, database, nulls);
      assert years == years[..n] + [years[n]];
    }
  }

  lemma NormalizedMembers(values: seq<int>, min: int, max: int)
    ensures forall x :: x in Normalized(values, min, max) <==> x in values && min <= x <= max
  {
    var p := (value: int) => min <= value <= max;
    FilterMembers(p, values);
    DistinctDatesOrder(Filter(p, values));
  }

  /** The date condition selects exactly the records whose effective date is in scope. */
  lemma DateMeaning(r: Record, database: Database, nulls: Nulls, scope: DateScope, years: seq<int>, months: seq<int>)
    requires nulls.Valid() && RealDates(r) && ValidScope(scope) && DateWhere(scope, years, months).Ok?
    ensures (forall k :: 0 <= k < |DateWhere(scope, years, months).value| ==>
               Selects(DateWhere(scope, years, months).value[k], r, database, nulls)) <==>
                   InScope(r, scope, years, months)
  {
    match scope
    case AllTime =>
    case Range(start, end) =>
      RangeMeaning(r, database, nulls, start.value, end.value);
      assert DateWhere(scope, years, months).value[0] == RangeWhere(start.value, end.value);
    case SelectedPeriod =>
      var y, m := Normalized(years, 2000, 2100), Normalized(months, 1, 12);
      NormalizedMembers(years, 2000, 2100);
      NormalizedMembers(months, 1, 12);
      MonthsMeaning(r, database, nulls, y, m);
      SelectsInParens(Or, MonthRanges(y, m), r, database, nulls);
      SelectsParens(Join(Or, InParens(MonthRanges(y, m))), r, database, nulls);
      assert DateWhere(scope, years, months).value[0] == Parens(Join(Or, InParens(MonthRanges(y, m))));
      assert EffectiveDate(r).Some? ==> ValidDate(EffectiveDate(r).value);
      assert InMonths(r, y, m) <==> InScope(r, scope, years, months);
  }

  // ----- where the fields look -----

  lemma FoundAppend(r: Record, a: seq<string>, b: seq<string>, operator: Operator, value: string)
    ensures Found(r, a + b, operator, value) <==> Found(r, a, operator, value) || Found(r, b, operator, value)
  {
    if i :| 0 <= i < |a| && a[i] in r.texts && Fits(r.texts[a[i]], operator, value) {
      assert (a + b)[i] == a[i];
    }
    if i :| 0 <= i < |b| && b[i] in r.texts && Fits(r.texts[b[i]], operator, value) {
      assert (a + b)[|a| + i] == b[i];
    }
  }

  lemma FoundOne(r: Record, name: string, operator: Operator, value: string)
    ensures Found(r, [name], operator, value) <==> Shows(r, name, operator, value)
  {
    assert [name][0] == name;
  }

  lemma AvailableStep(fields: Fields, name: string, rest: seq<string>)
    ensures AvailableFields(fields, [name] + rest)
         == (if Filterable(fields, name) then [name] else []) + AvailableFields(fields, rest)
    ensures AvailableFields(fields, []) == []
  {
    assert ([name] + rest)[0] == name && ([name] + rest)[1..] == rest;
  }

  lemma OneAvailable(r: Record, fields: Fields, name: string, rest: seq<string>, operator: Operator, value: string)
    ensures Found(r, AvailableFields(fields, [name] + rest), operator, value) <==>
            ShowsOwn(r, fields, name, operator, value) || Found(r, AvailableFields(fields, rest), operator, value)
    ensures AvailableFields(fields, [name] + rest) == [] <==>
            !Filterable(fields, name) && AvailableFields(fields, rest) == []
  {
    var first := if Filterable(fields, name) then [name] else [];
    AvailableStep(fields, name, rest);
    FoundOne(r, name, operator, value);
    FoundAppend(r, first, AvailableFields(fields, rest), operator, value);
  }

  /** The texts of up to three own fields. */
  lemma OwnFields(r: Record, fields: Fields, a: string, b: string, c: string, operator: Operator, value: string)
    ensures Found(r, AvailableFields(fields, [a]), operator, value) <==> ShowsOwn(r, fields, a, operator, value)
    ensures AvailableFields(fields, [a]) == [] <==> !Filterable(fields, a)
    ensures Found(r, AvailableFields(fields, [a, b]), operator, value) <==>
            ShowsOwn(r, fields, a, operator, value) || ShowsOwn(r, fields, b, operator, value)
    ensures AvailableFields(fields, [a, b]) == [] <==> !Filterable(fields, a) && !Filterable(fields, b)
    ensures Found(r, AvailableFields(fields, [a, b, c]), operator, value) <==>
            || ShowsOwn(r, fields, a, operator, value)
            || ShowsOwn(r, fields, b, operator, value)
            || ShowsOwn(r, fields, c, operator, value)
    ensures AvailableFields(fields, [a, b, c]) == [] <==>
            !Filterable(fields, a) && !Filterable(fields, b) && !Filterable(fields, c)
  {
    assert [a] + [] == [a] && [b] + [] == [b] && [c] + [] == [c];
    assert [a] + [b] == [a, b] && [b] + [c] == [b, c] && [a] + [b, c] == [a, b, c];
    OneAvailable(r, fields, a, [], operator, value);
    OneAvailable(r, fields, b, [], operator, value);
    OneAvailable(r, fields, c, [], operator, value);
    OneAvailable(r, fields, a, [b], operator, value);
    OneAvailable(r, fields, b, [c], operator, value);
    OneAvailable(r, fields, a, [b, c], operator, value);
  }

  lemma {:induction false} FirstStep(fields: Fields, name: string, rest: seq<string>)
    ensures FilterableField(fields, [name] + rest)
         == if Filterable(fields, name) then Ok(name) else FilterableField(fields, rest)
    ensures FilterableField(fields, []).Err?
  {
    assert ([name] + rest)[0] == name && ([name] + rest)[1..] == rest;
  }

  lemma OneLookup(fields: Fields, lookup: string)
    ensures Relationship(fields, [lookup]).Ok? <==> Follows(fields, lookup)
    ensures Follows(fields, lookup) ==> Relationship(fields, [lookup]) == Ok(fields[lookup].relationship.value)
  {
    FirstStep(fields, lookup, []);
    assert [lookup] + [] == [lookup];
  }

  lemma TwoLookups(fields: Fields, a: string, b: string)
    ensures var lookup := if Filterable(fields, a) then a else b;
            && (Relationship(fields, [a, b]).Ok? <==> Follows(fields, lookup))
            && (Follows(fields, lookup) ==> Relationship(fields, [a, b]) == Ok(fields[lookup].relationship.value))
  {
    FirstStep(fields, a, [b]);
    FirstStep(fields, b, []);
    assert [a] + [b] == [a, b] && [b] + [] == [b];
  }

  lemma ChildIs(sobject: string, fields: Fields, direct: seq<string>, related: seq<string>, includeCancelled: bool)
    ensures ChildTarget(sobject, fields, direct, related, includeCancelled).Ok? <==>
            RowsFound(fields, includeCancelled) && AvailableFields(fields, direct) + related != []
    ensures ChildTarget(sobject, fields, direct, related, includeCancelled).Ok? ==>
            ChildTarget(sobject, fields, direct, related, includeCancelled).value
            == ChildFields(sobject, "STEM__c", AvailableFields(fields, direct) + related)
  {
    FirstStep(fields, "STEM__c", []);
    assert ["STEM__c"] + [] == ["STEM__c"];
  }

  /** What is found in the rows of a child object. */
  lemma RowsShow(r: Record, database: Database, sobject: string, paths: seq<string>, operator: Operator, value: string,
                 includeCancelled: bool)
    ensures FoundInChildren(r, database, ChildFields(sobject, "STEM__c", paths), operator, value, includeCancelled) <==>
            var rows := Rows(database, sobject);
            exists k :: 0 <= k < |rows| && CountsFor(rows[k], r, includeCancelled)
                && Found(rows[k], paths, operator, value)
  {
    var rows := Rows(database, sobject);
    forall k | 0 <= k < |rows|
      ensures CountsFor(rows[k], r, includeCancelled) <==>
              ChildOf(rows[k], "STEM__c", r) && (includeCancelled || CANCELLED !in rows[k].flags)
    {
    }
  }

  /** A target exists exactly if it is offered, and matches exactly if its texts are shown. */
  ghost predicate LooksRight(target: Result<Target>, offered: bool, shown: bool, includeCancelled: bool, r: Record,
                             database: Database, operator: Operator, value: string)
  {
    && (target.Ok? <==> offered)
    && (target.Ok? ==> (MatchesTarget(r, database, target.value, operator, value, includeCancelled) <==> shown))
  }

  lemma OneChildLooksRight(r: Record, database: Database, sobject: string, fields: Fields, direct: seq<string>,
                           related: seq<string>, includeCancelled: bool, operator: Operator, value: string,
                           shows: Record -> bool)
    requires AvailableFields(fields, direct) + related != []
    requires var rows, paths := Rows(database, sobject), AvailableFields(fields, direct) + related;
             forall k :: 0 <= k < |rows| ==> (Found(rows[k], paths, operator, value) <==> shows(rows[k]))
    ensures var rows := Rows(database, sobject);
            LooksRight(OneChild(ChildTarget(sobject, fields, direct, related, includeCancelled)),
                       RowsFound(fields, includeCancelled),
                       exists k :: 0 <= k < |rows| && CountsFor(rows[k], r, includeCancelled) && shows(rows[k]),
                       includeCancelled, r, database, operator, value)
  {
    var child := ChildTarget(sobject, fields, direct, related, includeCancelled);
    ChildIs(sobject, fields, direct, related, includeCancelled);
    RowsShow(r, database, sobject, AvailableFields(fields, direct) + related, operator, value, includeCancelled);
    if child.Ok? {
      assert [child.value][0] == child.value;
    }
  }

  lemma PortLooksRight(schema: Schema, nested: string, includeCancelled: bool, r: Record, database: Database,
                       operator: Operator, value: string)
    ensures LooksRight(PortTarget(schema, nested), Follows(schema.stem, "Port__c") && nested in schema.port,
                       ShowsBehind(r, schema.stem, "Port__c", nested, operator, value), includeCancelled, r, database,
                       operator, value)
  {
    OneLookup(schema.stem, "Port__c");
    if Follows(schema.stem, "Port__c") {
      FoundOne(r, Path(schema.stem["Port__c"].relationship.value, nested), operator, value);
    }
  }

  lemma BuyerLooksRight(schema: Schema, includeCancelled: bool, r: Record, database: Database, operator: Operator,
                        value: string)
    ensures LooksRight(BuyerTarget(schema), BuyerAnswers(schema), BuyerShown(r, schema, operator, value),
                       includeCancelled, r, database, operator, value)
  {
    var direct := AvailableFields(schema.stem, ["Buyer_Name__c", "Buyer__c"]);
    OwnFields(r, schema.stem, "Buyer_Name__c", "Buyer__c", "", operator, value);
    OneLookup(schema.stem, "Account__c");
    if Follows(schema.stem, "Account__c") {
      var path := Path(schema.stem["Account__c"].relationship.value, "Name");
      FoundOne(r, path, operator, value);
      FoundAppend(r, direct, [path], operator, value);
    }
  }

  lemma BuyerGroupLooksRight(schema: Schema, includeCancelled: bool, r: Record, database: Database, operator: Operator,
                             value: string)
    ensures LooksRight(BuyerGroupTarget(schema), BuyerGroupAnswers(schema),
                       BuyerGroupShown(r, schema, operator, value), includeCancelled, r, database, operator, value)
  {
    OneLookup(schema.stem, "Account__c");
    if Follows(schema.stem, "Account__c") {
      var account := schema.stem["Account__c"].relationship.value;
      var a := if "Group_Name__c" in schema.account then [Path(account, "Group_Name__c")] else [];
      var b := if "ParentId" in schema.account then [Path(account, "Parent.Name")] else [];
      FoundOne(r, Path(account, "Group_Name__c"), operator, value);
      FoundOne(r, Path(account, "Parent.Name"), operator, value);
      FoundAppend(r, a, b, operator, value);
    }
  }

  /** The suppliers of the rows of one child object. */
  lemma SupplierRows(r: Record, database: Database, sobject: string, fields: Fields, includeCancelled: bool,
                     operator: Operator, value: string)
    ensures var child := ChildTarget(sobject, fields, ["Supplier_Name__c"], [], includeCancelled);
            && (child.Ok? <==> RowsFound(fields, includeCancelled) && Filterable(fields, "Supplier_Name__c"))
            && (child.Ok? ==>
                  (FoundInChildren(r, database, child.value, operator, value, includeCancelled) <==>
                   SupplierShownIn(Rows(database, sobject), fields, includeCancelled, r, operator, value)))
  {
    var rows, paths := Rows(database, sobject), AvailableFields(fields, ["Supplier_Name__c"]);
    ChildIs(sobject, fields, ["Supplier_Name__c"], [], includeCancelled);
    assert paths + [] == paths;
    OwnFields(r, fields, "Supplier_Name__c", "", "", operator, value);
    forall k | 0 <= k < |rows|
      ensures Found(rows[k], paths, operator, value) <==> ShowsOwn(rows[k], fields, "Supplier_Name__c", operator, value)
    {
      OwnFields(rows[k], fields, "Supplier_Name__c", "", "", operator, value);
    }
    RowsShow(r, database, sobject, paths, operator, value, includeCancelled);
  }

  lemma TwoChildren(r: Record, database: Database, a: ChildFields, b: ChildFields, operator: Operator, value: string,
                    includeCancelled: bool)
    ensures MatchesTarget(r, database, OnChildren([a, b]), operator, value, includeCancelled) <==>
            || FoundInChildren(r, database, a, operator, value, includeCancelled)
            || FoundInChildren(r, database, b, operator, value, includeCancelled)
  {
    assert [a, b][0] == a && [a, b][1] == b;
  }

  lemma SupplierLooksRight(schema: Schema, includeCancelled: bool, r: Record, database: Database, operator: Operator,
                           value: string)
    ensures LooksRight(SupplierTarget(schema, includeCancelled), SupplierAnswers(schema, includeCancelled),
                       || SupplierShownIn(Rows(database, "STEM_Line_Item__c"), schema.lineItem, includeCancelled, r,
                                          operator, value)
                       || SupplierShownIn(Rows(database, "STEM_Extra_Cost__c"), schema.extraCost, includeCancelled, r,
                                          operator, value),
                       includeCancelled, r, database, operator, value)
  {
    SupplierRows(r, database, LINE_ITEM, schema.lineItem, includeCancelled, operator, value);
    SupplierRows(r, database, EXTRA_COST, schema.extraCost, includeCancelled, operator, value);
    var target := SupplierTarget(schema, includeCancelled);
    if target.Ok? {
      TwoChildren(r, database, target.value.children[0], target.value.children[1], operator, value, includeCancelled);
    }
  }

  lemma ProductPaths(row: Record, schema: Schema, operator: Operator, value: string)
    requires Follows(schema.lineItem, "Product__c")
    ensures var product := schema.lineItem["Product__c"].relationship.value;
            var related := [Path(product, "Name")]
                               + (if "Family" in schema.product then [Path(product, "Family")] else []);
            Found(row, AvailableFields(schema.lineItem, ["Product_Name__c"]) + related, operator, value) <==>
            ShowsProduct(row, schema, operator, value)
  {
    var product := schema.lineItem["Product__c"].relationship.value;
    var family := if "Family" in schema.product then [Path(product, "Family")] else [];
    OwnFields(row, schema.lineItem, "Product_Name__c", "", "", operator, value);
    FoundOne(row, Path(product, "Name"), operator, value);
    FoundOne(row, Path(product, "Family"), operator, value);
    FoundAppend(row, [Path(product, "Name")], family, operator, value);
    FoundAppend(row, AvailableFields(schema.lineItem, ["Product_Name__c"]), [Path(product, "Name")] + family, operator,
                value);
  }

  lemma ProductLooksRight(schema: Schema, includeCancelled: bool, r: Record, database: Database, operator: Operator,
                          value: string)
    ensures LooksRight(ProductTarget(schema, includeCancelled), ProductAnswers(schema, includeCancelled),
                       ProductShownIn(Rows(database, "STEM_Line_Item__c"), schema, includeCancelled, r, operator,
                           value),
                       includeCancelled, r, database, operator, value)
  {
    OneLookup(schema.lineItem, "Product__c");
    if Follows(schema.lineItem, "Product__c") {
      var product := schema.lineItem["Product__c"].relationship.value;
      var related := [Path(product, "Name")]
                         + (if "Family" in schema.product then [Path(product, "Family")] else []);
      forall row: Record
        ensures Found(row, AvailableFields(schema.lineItem, ["Product_Name__c"]) + related, operator, value) <==>
                ShowsProduct(row, schema, operator, value)
      {
        ProductPaths(row, schema, operator, value);
      }
      OneChildLooksRight(r, database, LINE_ITEM, schema.lineItem, ["Product_Name__c"], related, includeCancelled,
                         operator, value, (row: Record) => ShowsProduct(row, schema, operator, value));
    }
  }

  lemma ExtraCostPaths(row: Record, schema: Schema, lookup: string, operator: Operator, value: string)
    requires lookup == if Filterable(schema.extraCost, "Product2Id__c") then "Product2Id__c" else "Product__c"
    requires Follows(schema.extraCost, lookup)
    ensures var related := [Path(schema.extraCost[lookup].relationship.value, "Name")];
            Found(row, AvailableFields(schema.extraCost, ["Name", "Description__c"]) + related, operator, value) <==>
            ShowsExtraCost(row, schema, operator, value)
  {
    var path := Path(schema.extraCost[lookup].relationship.value, "Name");
    OwnFields(row, schema.extraCost, "Name", "Description__c", "", operator, value);
    FoundOne(row, path, operator, value);
    FoundAppend(row, AvailableFields(schema.extraCost, ["Name", "Description__c"]), [path], operator, value);
  }

  lemma ExtraCostLooksRight(schema: Schema, includeCancelled: bool, r: Record, database: Database, operator: Operator,
                            value: string)
    ensures LooksRight(ExtraCostTarget(schema, includeCancelled), ExtraCostAnswers(schema, includeCancelled),
                       ExtraCostShownIn(Rows(database, "STEM_Extra_Cost__c"), schema, includeCancelled, r, operator,
                                        value),
                       includeCancelled, r, database, operator, value)
  {
    var lookup := if Filterable(schema.extraCost, "Product2Id__c") then "Product2Id__c" else "Product__c";
    TwoLookups(schema.extraCost, "Product2Id__c", "Product__c");
    if Follows(schema.extraCost, lookup) {
      var related := [Path(schema.extraCost[lookup].relationship.value, "Name")];
      forall row: Record
        ensures Found(row, AvailableFields(schema.extraCost, ["Name", "Description__c"]) + related, operator,
                value) <==>
                ShowsExtraCost(row, schema, operator, value)
      {
        ExtraCostPaths(row, schema, lookup, operator, value);
      }
      OneChildLooksRight(r, database, EXTRA_COST, schema.extraCost, ["Name", "Description__c"], related,
                         includeCancelled, operator, value,
                         (row: Record) => ShowsExtraCost(row, schema, operator, value));
    }
  }

  lemma OwnFieldsLookRight(field: Field, schema: Schema, includeCancelled: bool, r: Record, database: Database,
                           operator: Operator, value: string)
    requires field in {Stem, Vessel, DisputeStatus, StemStatus, StemType}
    ensures LooksRight(TargetOf(field, schema, includeCancelled), Answers(field, schema, includeCancelled),
                       TextShown(field, schema, includeCancelled, r, database, operator, value), includeCancelled, r,
                       database, operator, value)
  {
    match field
    case Stem => OwnFields(r, schema.stem, "Name", "KeyStem__c", "", operator, value);
    case Vessel => OwnFields(r, schema.stem, "Vessel__c", "Vessel_Name__c", "Vessel_Name_Text__c", operator, value);
    case DisputeStatus =>
      OwnFields(r, schema.stem, "Dispute_Status__c", "Dispute_Type__c", "Dispute_Particular__c", operator, value);
    case StemStatus => OwnFields(r, schema.stem, "Status__c", "", "", operator, value);
    case StemType => OwnFields(r, schema.stem, "Type__c", "", "", operator, value);
  }

  /** Every text field looks at the texts it stands for, and is refused exactly if the schema lacks them. */
  lemma FieldsLookRight(field: Field, schema: Schema, includeCancelled: bool, r: Record, database: Database,
                        operator: Operator, value: string)
    ensures LooksRight(TargetOf(field, schema, includeCancelled), Answers(field, schema, includeCancelled),
                       TextShown(field, schema, includeCancelled, r, database, operator, value), includeCancelled, r,
                       database, operator, value)
  {
    match field
    case Buyer => BuyerLooksRight(schema, includeCancelled, r, database, operator, value);
    case BuyerGroup => BuyerGroupLooksRight(schema, includeCancelled, r, database, operator, value);
    case Supplier => SupplierLooksRight(schema, includeCancelled, r, database, operator, value);
    case Product => ProductLooksRight(schema, includeCancelled, r, database, operator, value);
    case ExtraCost => ExtraCostLooksRight(schema, includeCancelled, r, database, operator, value);
    case Port => PortLooksRight(schema, "Name", includeCancelled, r, database, operator, value);
    case PortCountry => PortLooksRight(schema, "Country__c", includeCancelled, r, database, operator, value);
    case _ =>
      if IsTextField(field) {
        OwnFieldsLookRight(field, schema, includeCancelled, r, database, operator, value);
      }
  }

  lemma {:induction false} FirstIsFilterable(fields: Fields, names: seq<string>)
    ensures FilterableField(fields, names).Ok? <==> AnyFilterable(fields, names)
    ensures FilterableField(fields, names).Ok? ==>
            exists k :: 0 <= k < |names| && IsFirst(fields, names, k)
                && FilterableField(fields, names).value == names[k]
    ensures forall k :: 0 <= k < |names| && IsFirst(fields, names, k) ==>
              FilterableField(fields, names) == Ok(names[k])
  {
    if names != [] {
      var rest := names[1..];
      assert forall k :: 0 < k < |names| ==> names[k] == rest[k - 1];
      FirstIsFilterable(fields, rest);
      if Filterable(fields, names[0]) {
        assert IsFirst(fields, names, 0);
      } else {
        if FilterableField(fields, rest).Ok? {
          var k :| 0 <= k < |rest| && IsFirst(fields, rest, k) && FilterableField(fields, rest).value == rest[k];
          assert IsFirst(fields, names, k + 1);
        }
        forall k | 0 <= k < |names| && IsFirst(fields, names, k) ensures FilterableField(fields, names)
            == Ok(names[k]) {
          assert forall j :: 0 <= j < k - 1 ==> rest[j] == names[j + 1];
          assert IsFirst(fields, rest, k - 1);
        }
      }
    }
  }

  lemma {:induction false} FirstHoldsIff(names: seq<string>, s: Search, schema: Schema, r: Record, nulls: Nulls)
    requires !IsTextField(s.field) && ValidSearch(s)
    ensures var field := FilterableField(schema.stem, names);
            FirstHolds(names, s, schema, r, nulls) <==> field.Ok? && NumberHolds(NumberOf(r, field.value), s, nulls)
  {
    FirstIsFilterable(schema.stem, names);
  }

  /** A numeric field is the first of its numbers that may be filtered by. */
  lemma NumbersLookRight(s: Search, schema: Schema, includeCancelled: bool, r: Record, database: Database, nulls: Nulls)
    requires !IsTextField(s.field) && ValidSearch(s)
    ensures var field := NumberField(s.field, schema);
            && (Holds(s, schema, includeCancelled, r, database, nulls) <==>
                field.Ok? && NumberHolds(NumberOf(r, field.value), s, nulls))
            && (Resolves(s, schema, includeCancelled) <==> field.Ok?)
  {
    var names := NumberCandidates(s.field);
    FirstHoldsIff(names, s, schema, r, nulls);
    FirstIsFilterable(schema.stem, names);
  }

  // ----- the compiled query -----

  lemma SearchMeaning(s: Search, schema: Schema, includeCancelled: bool, r: Record, database: Database, nulls: Nulls)
    requires ValidSearch(s) && nulls.Valid() && CompileSearch(s, schema, includeCancelled).Ok?
    ensures Selects(CompileSearch(s, schema, includeCancelled).value, r, database, nulls) <==>
            Holds(s, schema, includeCancelled, r, database, nulls)
  {
    if IsTextField(s.field) {
      TextMeaning(r, database, nulls, TargetOf(s.field, schema, includeCancelled).value, s.operator, s.text,
          includeCancelled);
      FieldsLookRight(s.field, schema, includeCancelled, r, database,
          if Negative(s.operator) then Positive(s.operator) else s.operator, s.text);
    } else {
      NumbersLookRight(s, schema, includeCancelled, r, database, nulls);
      NumericMeaning(r, database, nulls, NumberField(s.field, schema).value, s);
    }
  }

  ghost predicate AllHold(searches: seq<Search>, schema: Schema, includeCancelled: bool, r: Record, database: Database,
                          nulls: Nulls)
    requires forall c :: 0 <= c < |searches| ==> ValidSearch(searches[c])
  {
    forall c :: 0 <= c < |searches| ==> Holds(searches[c], schema, includeCancelled, r, database, nulls)
  }

  ghost predicate AllSelect(cs: seq<Condition>, r: Record, database: Database, nulls: Nulls) {
    forall k :: 0 <= k < |cs| ==> Selects(cs[k], r, database, nulls)
  }

  lemma AllSelectFirst(c: Condition, cs: seq<Condition>, r: Record, database: Database, nulls: Nulls)
    ensures AllSelect([c] + cs, r, database, nulls) <==>
            Selects(c, r, database, nulls) && AllSelect(cs, r, database, nulls)
    ensures SomeSelects([c] + cs, r, database, nulls) <==>
            Selects(c, r, database, nulls) || SomeSelects(cs, r, database, nulls)
  {
    assert ([c] + cs)[0] == c && forall k :: 0 <= k < |cs| ==> ([c] + cs)[k + 1] == cs[k];
    SomeSelectsAppend([c], cs, r, database, nulls);
    assert SomeSelects([c], r, database, nulls) <==> Selects([c][0], r, database, nulls);
  }

  lemma AllHoldFirst(searches: seq<Search>, schema: Schema, includeCancelled: bool, r: Record, database: Database,
                     nulls: Nulls)
    requires searches != [] && forall c :: 0 <= c < |searches| ==> ValidSearch(searches[c])
    ensures AllHold(searches, schema, includeCancelled, r, database, nulls) <==>
            && Holds(searches[0], schema, includeCancelled, r, database, nulls)
            && AllHold(searches[1..], schema, includeCancelled, r, database, nulls)
  {
    assert forall c :: 0 < c < |searches| ==> searches[c] == searches[1..][c - 1];
  }

  lemma {:induction false} SearchesMeaning(searches: seq<Search>, schema: Schema, includeCancelled: bool, r: Record,
                                           database: Database, nulls: Nulls)
    requires forall c :: 0 <= c < |searches| ==> ValidSearch(searches[c])
    requires nulls.Valid() && CompileSearches(searches, schema, includeCancelled).Ok?
    ensures AllSelect(CompileSearches(searches, schema, includeCancelled).value, r, database, nulls) <==>
            AllHold(searches, schema, includeCancelled, r, database, nulls)
  {
    if searches != [] {
      var rest := searches[1..];
      SearchMeaning(searches[0], schema, includeCancelled, r, database, nulls);
      SearchesMeaning(rest, schema, includeCancelled, r, database, nulls);
      AllSelectFirst(CompileSearch(searches[0], schema, includeCancelled).value,
          CompileSearches(rest, schema, includeCancelled).value,
                     r, database, nulls);
      AllHoldFirst(searches, schema, includeCancelled, r, database, nulls);
    }
  }

  ghost predicate ValidGroups(groups: seq<seq<Search>>) {
    forall g :: 0 <= g < |groups| ==> forall c :: 0 <= c < |groups[g]| ==> ValidSearch(groups[g][c])
  }

  ghost predicate SomeGroupHolds(groups: seq<seq<Search>>, schema: Schema, includeCancelled: bool, r: Record,
                                 database: Database, nulls: Nulls)
    requires ValidGroups(groups)
  {
    exists g :: 0 <= g < |groups| && AllHold(groups[g], schema, includeCancelled, r, database, nulls)
  }

  lemma {:induction false} GroupsMeaning(groups: seq<seq<Search>>, schema: Schema, includeCancelled: bool, r: Record,
                                         database: Database, nulls: Nulls)
    requires ValidGroups(groups) && nulls.Valid() && CompileGroups(groups, schema, includeCancelled).Ok?
    ensures var cs := CompileGroups(groups, schema, includeCancelled).value;
            && |cs| == |groups|
            && (SomeSelects(cs, r, database, nulls) <==>
                SomeGroupHolds(groups, schema, includeCancelled, r, database, nulls))
  {
    if groups != [] {
      var rest := groups[1..];
      var first := CompileSearches(groups[0], schema, includeCancelled).value;
      SearchesMeaning(groups[0], schema, includeCancelled, r, database, nulls);
      SelectsInParens(And, first, r, database, nulls);
      SelectsParens(Join(And, InParens(first)), r, database, nulls);
      GroupsMeaning(rest, schema, includeCancelled, r, database, nulls);
      AllSelectFirst(GroupCondition(first), CompileGroups(rest, schema, includeCancelled).value, r, database, nulls);
      if g :| 0 <= g < |groups| && AllHold(groups[g], schema, includeCancelled, r, database, nulls) {
        assert g > 0 ==> rest[g - 1] == groups[g];
      }
      if g :| 0 <= g < |rest| && AllHold(rest[g], schema, includeCancelled, r, database, nulls) {
        assert groups[g + 1] == rest[g];
      }
    }
  }

  /** Compilation preserves meaning: over any database with null fields and cancelled children, the
      compiled condition selects a STEM exactly when its effective date is in scope and either there are
      no groups or all conditions of some group hold. */
  lemma CompilePreservesMeaning(i: Interpretation, schema: Schema, years: seq<int>, months: seq<int>, r: Record,
                                database: Database, nulls: Nulls)
    requires CompileWhere(i, schema, years, months).Ok?
    requires nulls.Valid() && RealDates(r)
    ensures Selects(CompileWhere(i, schema, years, months).value, r, database, nulls) <==>
            && InScope(r, i.dateScope, years, months)
            && (i.groups == [] || SomeGroupHolds(i.groups, schema, i.includeCancelled, r, database, nulls))
  {
    var date := DateWhere(i.dateScope, years, months).value;
    var groups := CompileGroups(i.groups, schema, i.includeCancelled).value;
    DateMeaning(r, database, nulls, i.dateScope, years, months);
    GroupsMeaning(i.groups, schema, i.includeCancelled, r, database, nulls);
    SelectsJoin(Or, groups, r, database, nulls);
    SelectsParens(Join(Or, groups), r, database, nulls);
    var all := date + if groups == [] then [] else [Parens(Join(Or, groups))];
    SelectsInParens(And, all, r, database, nulls);
    assert forall k :: 0 <= k < |date| ==> all[k] == date[k];
    assert groups != [] ==> all[|date|] == Parens(Join(Or, groups));
  }

  // ----- when compilation fails -----

  /** The schema offers what the condition asks for. */
  predicate Resolves(s: Search, schema: Schema, includeCancelled: bool) {
    match s.field
    case Turnover => Filterable(schema.stem, "Total_Invoice_Amount__c")
    case SupplierInvoiceAmount => Filterable(schema.stem, "Total_Invoiced_Amount_From_Suppliers__c")
    case Costs => AnyFilterable(schema.stem, ["Costs_Total__c", "QLIK_Costs_Total_Cost__c"])
    case GrossProfit =>
      AnyFilterable(schema.stem, ["Profit__c", "Net_Profit__c", "Gross_Profit__c", "Total_Profit__c",
                                  "ProfitAmount__c", "QLIK_Total_Profit__c"])
    case GrossMarginPercent =>
      AnyFilterable(schema.stem, ["Gross_Margin_Percentage__c", "Gross_Margin__c", "Margin_Percentage__c",
                                  "Margin__c"])
    case Volume =>
      AnyFilterable(schema.stem, ["Total_Volume__c", "Volume__c", "Total_Quantity_in_MT__c", "Quantity_in_MT__c",
                                  "Total_Quantity__c"])
    case _ => Answers(s.field, schema, includeCancelled)
  }

  ghost predicate AllResolve(searches: seq<Search>, schema: Schema, includeCancelled: bool) {
    forall c :: 0 <= c < |searches| ==> Resolves(searches[c], schema, includeCancelled)
  }

  lemma ResolvesIff(s: Search, schema: Schema, includeCancelled: bool)
    requires ValidSearch(s)
    ensures CompileSearch(s, schema, includeCancelled).Ok? <==> Resolves(s, schema, includeCancelled)
  {
    var r := Record(0, map[], map[], map[], {}, map[]);
    if IsTextField(s.field) {
      FieldsLookRight(s.field, schema, includeCancelled, r, map[], Exists, "");
    } else {
      NumbersLookRight(s, schema, includeCancelled, r, map[], Nulls(No, No));
    }
  }

  lemma {:induction false} SearchesResolve(searches: seq<Search>, schema: Schema, includeCancelled: bool)
    requires forall c :: 0 <= c < |searches| ==> ValidSearch(searches[c])
    ensures CompileSearches(searches, schema, includeCancelled).Ok? <==> AllResolve(searches, schema, includeCancelled)
  {
    if searches != [] {
      ResolvesIff(searches[0], schema, includeCancelled);
      SearchesResolve(searches[1..], schema, includeCancelled);
      assert forall c :: 0 < c < |searches| ==> searches[c] == searches[1..][c - 1];
    }
  }

  lemma {:induction false} GroupsResolve(groups: seq<seq<Search>>, schema: Schema, includeCancelled: bool)
    requires ValidGroups(groups)
    ensures CompileGroups(groups, schema, includeCancelled).Ok? <==>
            forall g :: 0 <= g < |groups| ==> AllResolve(groups[g], schema, includeCancelled)
  {
    if groups != [] {
      SearchesResolve(groups[0], schema, includeCancelled);
      GroupsResolve(groups[1..], schema, includeCancelled);
      assert forall g :: 0 < g < |groups| ==> groups[g] == groups[1..][g - 1];
    }
  }

  /** Compilation succeeds exactly for valid interpretations whose conditions the schema can answer and,
      for a selected period, with a valid year and month. */
  lemma CompileSucceedsIff(i: Interpretation, schema: Schema, years: seq<int>, months: seq<int>)
    ensures CompileWhere(i, schema, years, months).Ok? <==>
            && ValidInterpretation(i)
            && (forall g :: 0 <= g < |i.groups| ==> AllResolve(i.groups[g], schema, i.includeCancelled))
            && (i.dateScope == SelectedPeriod ==>
                  (exists y :: y in years && 2000 <= y <= 2100) && (exists m :: m in months && 1 <= m <= 12))
  {
    if ValidInterpretation(i) {
      GroupsResolve(i.groups, schema, i.includeCancelled);
      NormalizedEmpty(years, 2000, 2100);
      NormalizedEmpty(months, 1, 12);
    }
  }

  lemma NormalizedEmpty(values: seq<int>, min: int, max: int)
    ensures Normalized(values, min, max) != [] <==> exists x :: x in values && min <= x <= max
  {
    NormalizedMembers(values, min, max);
    var n := Normalized(values, min, max);
    if n != [] {
      assert n[0] in n;
    }
  }
}
