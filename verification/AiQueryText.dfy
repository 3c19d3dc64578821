/** The compiled record search as written text: its parentheses leave a reader only one way to group it. */
module AiQueryText {
  import opened AiQuery
  import opened Calendar
  import opened Soql
  import opened SoqlText
  import opened SoqlWriting

  predicate GroupedTerm(c: Condition) {
    IsTerm(c) && Grouped(c)
  }

  ghost predicate GroupedTerms(cs: seq<Condition>) {
    forall i :: 0 <= i < |cs| ==> GroupedTerm(cs[i])
  }

  ghost predicate AllGrouped(cs: seq<Condition>) {
    forall i :: 0 <= i < |cs| ==> Grouped(cs[i])
  }

  lemma JoinGrouped(word: Connective, parts: seq<Condition>)
    requires parts != [] && GroupedTerms(parts)
    ensures Grouped(Join(word, parts))
  {
    if |parts| == 1 {
      assert GroupedTerm(parts[0]);
    }
  }

  lemma InParensGrouped(word: Connective, parts: seq<Condition>)
    requires parts != [] && AllGrouped(parts)
    ensures Grouped(Join(word, InParens(parts)))
  {
    var wrapped := InParens(parts);
    assert forall i :: 0 <= i < |wrapped| ==> wrapped[i] == Parens(parts[i]);
    JoinGrouped(word, wrapped);
  }

  lemma AcrossGrouped(predicates: seq<Condition>, operator: Operator)
    requires predicates != [] && GroupedTerms(predicates)
    ensures GroupedTerm(Across(predicates, operator))
  {
    if |predicates| == 1 {
      assert GroupedTerm(predicates[0]);
    } else {
      assert Grouped(Joined(if Negative(operator) then And else Or, predicates));
    }
  }

  lemma TextPredicateGrouped(field: string, operator: Operator, value: string)
    requires IsTextOperator(operator)
    ensures GroupedTerm(TextPredicate(field, operator, value))
  {
    if operator == NotContains {
      var like := TextLike(field, "%" + Escape(value) + "%");
      assert GroupedTerm(like) && GroupedTerm(Not(like));
      JoinGrouped(Or, [TextIsNull(field), Not(like)]);
    } else if operator == NotEquals {
      JoinGrouped(Or, [TextIsNull(field), TextDiffers(field, Escape(value))]);
    }
  }

  lemma AcrossFieldsGrouped(fields: seq<string>, operator: Operator, value: string)
    requires IsTextOperator(operator) && fields != []
    ensures GroupedTerm(TextPredicateAcross(fields, operator, value))
  {
    var predicates := TextPredicates(fields, operator, value);
    forall i | 0 <= i < |predicates| ensures GroupedTerm(predicates[i]) {
      TextPredicateGrouped(fields[i], operator, value);
    }
    AcrossGrouped(predicates, operator);
  }

  lemma ChildGrouped(child: ChildFields, operator: Operator, value: string, includeCancelled: bool)
    requires IsTextOperator(operator) && child.paths != []
    ensures GroupedTerm(ChildTextSearch(child, operator, value, includeCancelled))
  {
    AcrossFieldsGrouped(child.paths, Positive(operator), value);
    var found := TextPredicateAcross(child.paths, Positive(operator), value);
    var parts := (if includeCancelled then [] else [FlagIsFalse(CANCELLED)]) + [found];
    assert AllGrouped(parts);
    InParensGrouped(And, parts);
  }

  /** There is a field to look at. */
  predicate HasPaths(target: Target) {
    match target
    case OnRecord(paths) => paths != []
    case OnChildren(children) => children != [] && forall i :: 0 <= i < |children| ==> children[i].paths != []
  }

  lemma TargetHasPaths(field: Field, schema: Schema, includeCancelled: bool)
    requires TargetOf(field, schema, includeCancelled).Ok?
    ensures HasPaths(TargetOf(field, schema, includeCancelled).value)
  {
  }

  lemma TargetGrouped(target: Target, operator: Operator, value: string, includeCancelled: bool)
    requires IsTextOperator(operator) && HasPaths(target)
    ensures GroupedTerm(CompileTarget(target, operator, value, includeCancelled))
  {
    if target.OnRecord? {
      AcrossFieldsGrouped(target.paths, operator, value);
    } else {
      var searches := ChildSearches(target.children, operator, value, includeCancelled);
      forall i | 0 <= i < |searches| ensures GroupedTerm(searches[i]) {
        ChildGrouped(target.children[i], operator, value, includeCancelled);
      }
      AcrossGrouped(searches, operator);
    }
  }

  lemma SearchGrouped(s: Search, schema: Schema, includeCancelled: bool)
    requires ValidSearch(s) && CompileSearch(s, schema, includeCancelled).Ok?
    ensures Grouped(CompileSearch(s, schema, includeCancelled).value)
  {
    if IsTextField(s.field) {
      TargetHasPaths(s.field, schema, includeCancelled);
      TargetGrouped(TargetOf(s.field, schema, includeCancelled).value, s.operator, s.text, includeCancelled);
    } else if s.operator == Operator.Between {
      assert Grouped(NumericPredicate(NumberField(s.field, schema).value, s));
    }
  }

  lemma {:induction false} SearchesGrouped(searches: seq<Search>, schema: Schema, includeCancelled: bool)
    requires forall c :: 0 <= c < |searches| ==> ValidSearch(searches[c])
    requires CompileSearches(searches, schema, includeCancelled).Ok?
    ensures AllGrouped(CompileSearches(searches, schema, includeCancelled).value)
    ensures |CompileSearches(searches, schema, includeCancelled).value| == |searches|
  {
    if searches != [] {
      SearchGrouped(searches[0], schema, includeCancelled);
      SearchesGrouped(searches[1..], schema, includeCancelled);
    }
  }

  lemma {:induction false} GroupsGrouped(groups: seq<seq<Search>>, schema: Schema, includeCancelled: bool)
    requires ValidGroups(groups) && CompileGroups(groups, schema, includeCancelled).Ok?
    requires forall g :: 0 <= g < |groups| ==> groups[g] != []
    ensures GroupedTerms(CompileGroups(groups, schema, includeCancelled).value)
  {
    if groups != [] {
      var first := CompileSearches(groups[0], schema, includeCancelled).value;
      SearchesGrouped(groups[0], schema, includeCancelled);
      InParensGrouped(And, first);
      GroupsGrouped(groups[1..], schema, includeCancelled);
    }
  }

  lemma BoundsGrouped(low: Date, comparison: Soql.Comparison, high: Date)
    ensures Grouped(Bounds(low, comparison, high))
  {
    var delivered := [DateCompares(DELIVERY, AtLeast, low), DateCompares(DELIVERY, comparison, high)];
    var expected := [DateIsNull(DELIVERY), DateCompares(EXPECTED, AtLeast, low),
        DateCompares(EXPECTED, comparison, high)];
    JoinGrouped(And, delivered);
    JoinGrouped(And, expected);
    JoinGrouped(Or, [Parens(Joined(And, delivered)), Parens(Joined(And, expected))]);
  }

  lemma {:induction false} MonthsGrouped(years: seq<int>, months: seq<int>)
    ensures AllGrouped(MonthRanges(years, months))
    ensures years != [] && months != [] ==> MonthRanges(years, months) != []
  {
    if years != [] {
      var n := |years| - 1;
      MonthsGrouped(years[..n], months);
      var ranges := RangesOfYear(years[n], months);
      forall i | 0 <= i < |ranges| ensures Grouped(ranges[i]) {
        BoundsGrouped(AiQuery.MonthStart(years[n], months[i]), Less, NextMonthStart(years[n], months[i]));
      }
    }
  }

  lemma DateGrouped(scope: DateScope, years: seq<int>, months: seq<int>)
    requires ValidScope(scope) && DateWhere(scope, years, months).Ok?
    ensures AllGrouped(DateWhere(scope, years, months).value)
  {
    if scope == SelectedPeriod {
      var y, m := Normalized(years, 2000, 2100), Normalized(months, 1, 12);
      MonthsGrouped(y, m);
      InParensGrouped(Or, MonthRanges(y, m));
    } else if scope.Range? {
      BoundsGrouped(scope.start.value, AtMost, scope.end.value);
    }
  }

  /** Every compiled condition is grouped by its parentheses, or is empty: no AND stands beside an OR,
      and no comparison is swallowed by its neighbour. */
  lemma CompiledIsGrouped(i: Interpretation, schema: Schema, years: seq<int>, months: seq<int>)
    requires CompileWhere(i, schema, years, months).Ok?
    ensures var where := CompileWhere(i, schema, years, months).value; Grouped(where) || where == Joined(And, [])
  {
    var groups := CompileGroups(i.groups, schema, i.includeCancelled).value;
    var date := DateWhere(i.dateScope, years, months).value;
    GroupsGrouped(i.groups, schema, i.includeCancelled);
    DateGrouped(i.dateScope, years, months);
    if groups != [] {
      JoinGrouped(Or, groups);
    }
    var parts := date + if groups == [] then [] else [Parens(Join(Or, groups))];
    assert AllGrouped(parts);
    if parts != [] {
      InParensGrouped(And, parts);
    } else {
      assert InParens(parts) == [];
    }
  }

  // ----- the query as characters -----

  /** Names that can be written, of fields of a type. */
  ghost predicate Fields(names: seq<string>, kind: string -> Kind, expected: Kind) {
    forall k :: 0 <= k < |names| ==> IsField(names[k]) && kind(names[k]) == expected
  }

  predicate ChildFits(child: ChildFields, kind: string -> Kind) {
    && IsWord(child.sobject) && IsWord(child.lookup)
    && forall k :: 0 <= k < |child.paths| ==> IsField(child.paths[k]) && kind(child.paths[k]).TextKind?
  }

  ghost predicate TargetFits(target: Target, kind: string -> Kind) {
    match target
    case OnRecord(paths) => Fields(paths, kind, TextKind)
    case OnChildren(children) => forall k :: 0 <= k < |children| ==> ChildFits(children[k], kind)
  }

  /** The schema's names are words, and the fields that a search may use have the types it takes them for. */
  ghost predicate SchemaFits(schema: Schema, kind: string -> Kind) {
    && (forall f, includeCancelled :: TargetOf(f, schema, includeCancelled).Ok? ==>
        TargetFits(TargetOf(f, schema, includeCancelled).value, kind))
    && (forall f :: NumberField(f, schema).Ok? ==>
          IsField(NumberField(f, schema).value) && kind(NumberField(f, schema).value).NumberKind?)
    && kind(DELIVERY).DateKind? && kind(EXPECTED).DateKind? && kind(CANCELLED).FlagKind?
  }

  /** The numbers of a search can be written. */
  predicate SearchFits(s: Search, numbers: Numbers) {
    && (s.number.Some? ==> WritableNumber(numbers, s.number.value))
    && (s.numberTo.Some? ==> WritableNumber(numbers, s.numberTo.value))
  }

  ghost predicate SearchesFit(searches: seq<Search>, numbers: Numbers) {
    forall c :: 0 <= c < |searches| ==> SearchFits(searches[c], numbers)
  }

  /** The dates of a scope have four digits for the year. */
  predicate ScopeFits(scope: DateScope) {
    scope.Range? && scope.start.Some? && scope.end.Some? ==>
        WritableDate(scope.start.value) && WritableDate(scope.end.value)
  }

  ghost predicate AllWritable(cs: seq<Condition>, kind: string -> Kind, numbers: Numbers) {
    forall k :: 0 <= k < |cs| ==> Writable(cs[k], kind, numbers)
  }

  lemma {:induction false} JoinWritable(word: Connective, parts: seq<Condition>, kind: string -> Kind, numbers: Numbers)
    requires AllWritable(parts, kind, numbers)
    ensures Writable(Join(word, parts), kind, numbers)
    ensures Writable(Joined(word, parts), kind, numbers)
    ensures Writable(Join(word, InParens(parts)), kind, numbers)
  {
    forall k | 0 <= k < |parts| ensures Writable(InParens(parts)[k], kind, numbers) {
      assert InParens(parts)[k] == Parens(parts[k]);
    }
  }

  lemma {:induction false} TextsWritable(field: string, value: string, kind: string -> Kind, numbers: Numbers)
    requires IsField(field) && kind(field).TextKind?
    ensures Writable(TextIsNull(field), kind, numbers) && Writable(TextIsPresent(field), kind, numbers)
    ensures Writable(TextEquals(field, Escape(value)), kind, numbers)
            && Writable(TextDiffers(field, Escape(value)), kind, numbers)
    ensures Writable(TextLike(field, "%" + Escape(value) + "%"), kind, numbers)
  {
    EscapeIsEscaped(value);
    PatternIsEscaped(value);
  }

  lemma {:induction false} TextPredicateWritable(field: string, operator: Operator, value: string, kind: string -> Kind,
                                                 numbers: Numbers)
    requires IsTextOperator(operator) && IsField(field) && kind(field).TextKind?
    ensures Writable(TextPredicate(field, operator, value), kind, numbers)
  {
    TextsWritable(field, value, kind, numbers);
    if operator == NotContains {
      JoinWritable(Or, [TextIsNull(field), Not(TextLike(field, "%" + Escape(value) + "%"))], kind, numbers);
    } else if operator == NotEquals {
      JoinWritable(Or, [TextIsNull(field), TextDiffers(field, Escape(value))], kind, numbers);
    }
  }

  lemma {:induction false} AcrossWritable(predicates: seq<Condition>, operator: Operator, kind: string -> Kind,
                                          numbers: Numbers)
    requires AllWritable(predicates, kind, numbers)
    ensures Writable(Across(predicates, operator), kind, numbers)
  {
    JoinWritable(if Negative(operator) then And else Or, predicates, kind, numbers);
  }

  lemma {:induction false} FieldsWritable(fields: seq<string>, operator: Operator, value: string, kind: string -> Kind,
                                          numbers: Numbers)
    requires IsTextOperator(operator) && Fields(fields, kind, TextKind)
    ensures Writable(TextPredicateAcross(fields, operator, value), kind, numbers)
  {
    var predicates := TextPredicates(fields, operator, value);
    forall k | 0 <= k < |predicates| ensures Writable(predicates[k], kind, numbers) {
      TextPredicateWritable(fields[k], operator, value, kind, numbers);
    }
    AcrossWritable(predicates, operator, kind, numbers);
  }

  lemma FixedNamesAreFields()
    ensures IsField(DELIVERY) && IsField(EXPECTED) && IsField(CANCELLED)
  {
  }

  lemma {:induction false} ChildWritable(child: ChildFields, operator: Operator, value: string, includeCancelled: bool,
                                         kind: string -> Kind, numbers: Numbers)
    requires IsTextOperator(operator) && ChildFits(child, kind) && kind(CANCELLED).FlagKind?
    ensures Writable(ChildTextSearch(child, operator, value, includeCancelled), kind, numbers)
  {
    FieldsWritable(child.paths, Positive(operator), value, kind, numbers);
    FixedNamesAreFields();
    var flag := FlagIsFalse(CANCELLED);
    assert Writable(flag, kind, numbers);
    var parts := (if includeCancelled then [] else [flag])
        + [TextPredicateAcross(child.paths, Positive(operator), value)];
    assert AllWritable(parts, kind, numbers);
    JoinWritable(And, parts, kind, numbers);
  }

  lemma {:induction false} TargetWritable(target: Target, operator: Operator, value: string, includeCancelled: bool,
                                          kind: string -> Kind,
                                          numbers: Numbers)
    requires IsTextOperator(operator) && TargetFits(target, kind) && kind(CANCELLED).FlagKind?
    ensures Writable(CompileTarget(target, operator, value, includeCancelled), kind, numbers)
  {
    if target.OnRecord? {
      FieldsWritable(target.paths, operator, value, kind, numbers);
    } else {
      var searches := ChildSearches(target.children, operator, value, includeCancelled);
      forall k | 0 <= k < |searches| ensures Writable(searches[k], kind, numbers) {
        ChildWritable(target.children[k], operator, value, includeCancelled, kind, numbers);
      }
      AcrossWritable(searches, operator, kind, numbers);
    }
  }

  lemma {:induction false} NumberWritable(field: string, s: Search, kind: string -> Kind, numbers: Numbers)
    requires !IsTextField(s.field) && ValidSearch(s) && SearchFits(s, numbers) && IsField(field)
             && kind(field).NumberKind?
    ensures Writable(NumericPredicate(field, s), kind, numbers)
  {
    if s.operator == Operator.Between {
      var first, second := s.number.value, s.numberTo.value;
      JoinWritable(And, [NumberCompares(field, AtLeast, if first < second then first else second),
                         NumberCompares(field, AtMost, if first < second then second else first)], kind, numbers);
    }
  }

  lemma {:induction false} SearchWritable(s: Search, schema: Schema, includeCancelled: bool, kind: string -> Kind,
                                          numbers: Numbers)
    requires ValidSearch(s) && SearchFits(s, numbers) && SchemaFits(schema, kind)
             && CompileSearch(s, schema, includeCancelled).Ok?
    ensures Writable(CompileSearch(s, schema, includeCancelled).value, kind, numbers)
  {
    if IsTextField(s.field) {
      TargetWritable(TargetOf(s.field, schema, includeCancelled).value, s.operator, s.text, includeCancelled, kind,
          numbers);
    } else {
      NumberWritable(NumberField(s.field, schema).value, s, kind, numbers);
    }
  }

  lemma {:induction false} SearchesWritable(searches: seq<Search>, schema: Schema, includeCancelled: bool,
                                            kind: string -> Kind, numbers: Numbers)
    requires forall c :: 0 <= c < |searches| ==> ValidSearch(searches[c])
    requires SearchesFit(searches, numbers) && SchemaFits(schema, kind)
             && CompileSearches(searches, schema, includeCancelled).Ok?
    ensures AllWritable(CompileSearches(searches, schema, includeCancelled).value, kind, numbers)
  {
    if searches != [] {
      assert SearchFits(searches[0], numbers);
      SearchWritable(searches[0], schema, includeCancelled, kind, numbers);
      SearchesWritable(searches[1..], schema, includeCancelled, kind, numbers);
    }
  }

  ghost predicate GroupsFit(groups: seq<seq<Search>>, numbers: Numbers) {
    forall g :: 0 <= g < |groups| ==> SearchesFit(groups[g], numbers)
  }

  lemma {:induction false} GroupsWritable(groups: seq<seq<Search>>, schema: Schema, includeCancelled: bool,
                                          kind: string -> Kind, numbers: Numbers)
    requires ValidGroups(groups) && GroupsFit(groups, numbers) && SchemaFits(schema, kind)
    requires CompileGroups(groups, schema, includeCancelled).Ok?
    ensures AllWritable(CompileGroups(groups, schema, includeCancelled).value, kind, numbers)
  {
    if groups != [] {
      assert SearchesFit(groups[0], numbers);
      SearchesWritable(groups[0], schema, includeCancelled, kind, numbers);
      JoinWritable(And, CompileSearches(groups[0], schema, includeCancelled).value, kind, numbers);
      GroupsWritable(groups[1..], schema, includeCancelled, kind, numbers);
    }
  }

  lemma {:induction false} DateBoundsWritable(field: string, low: Date, comparison: Soql.Comparison, high: Date,
                                              kind: string -> Kind,
                                              numbers: Numbers)
    requires WritableDate(low) && WritableDate(high) && IsField(field) && kind(field).DateKind?
    ensures Writable(DateIsNull(field), kind, numbers)
    ensures Writable(DateCompares(field, AtLeast, low), kind, numbers)
            && Writable(DateCompares(field, comparison, high), kind, numbers)
  {
  }

  lemma {:induction false} BoundsWritable(low: Date, comparison: Soql.Comparison, high: Date, kind: string -> Kind,
                                          numbers: Numbers)
    requires WritableDate(low) && WritableDate(high) && kind(DELIVERY).DateKind? && kind(EXPECTED).DateKind?
    ensures Writable(Bounds(low, comparison, high), kind, numbers)
  {
    FixedNamesAreFields();
    DateBoundsWritable(DELIVERY, low, comparison, high, kind, numbers);
    DateBoundsWritable(EXPECTED, low, comparison, high, kind, numbers);
    var delivered := [DateCompares(DELIVERY, AtLeast, low), DateCompares(DELIVERY, comparison, high)];
    var expected := [DateIsNull(DELIVERY), DateCompares(EXPECTED, AtLeast, low),
        DateCompares(EXPECTED, comparison, high)];
    JoinWritable(And, delivered, kind, numbers);
    JoinWritable(And, expected, kind, numbers);
    JoinWritable(Or, [Parens(Joined(And, delivered)), Parens(Joined(And, expected))], kind, numbers);
  }

  lemma {:induction false} MonthWritable(year: int, month: int, kind: string -> Kind, numbers: Numbers)
    requires 2000 <= year <= 2100 && 1 <= month <= 12 && kind(DELIVERY).DateKind? && kind(EXPECTED).DateKind?
    ensures Writable(MonthRange(year, month), kind, numbers)
  {
    BoundsWritable(AiQuery.MonthStart(year, month), Less, NextMonthStart(year, month), kind, numbers);
  }

  lemma {:induction false} MonthsWritable(years: seq<int>, months: seq<int>, kind: string -> Kind, numbers: Numbers)
    requires (forall y :: y in years ==> 2000 <= y <= 2100) && (forall m :: m in months ==> 1 <= m <= 12)
    requires kind(DELIVERY).DateKind? && kind(EXPECTED).DateKind?
    ensures AllWritable(MonthRanges(years, months), kind, numbers)
  {
    if years != [] {
      var n := |years| - 1;
      assert years[n] in years && forall y :: y in years[..n] ==> y in years;
      MonthsWritable(years[..n], months, kind, numbers);
      var ranges := RangesOfYear(years[n], months);
      forall k | 0 <= k < |ranges| ensures Writable(ranges[k], kind, numbers) {
        assert months[k] in months;
        MonthWritable(years[n], months[k], kind, numbers);
      }
    }
  }

  lemma DateWritable(scope: DateScope, years: seq<int>, months: seq<int>, kind: string -> Kind, numbers: Numbers)
    requires ValidScope(scope) && ScopeFits(scope) && DateWhere(scope, years, months).Ok?
    requires kind(DELIVERY).DateKind? && kind(EXPECTED).DateKind?
    ensures AllWritable(DateWhere(scope, years, months).value, kind, numbers)
  {
    if scope == SelectedPeriod {
      var y, m := Normalized(years, 2000, 2100), Normalized(months, 1, 12);
      NormalizedMembers(years, 2000, 2100);
      NormalizedMembers(months, 1, 12);
      MonthsWritable(y, m, kind, numbers);
      JoinWritable(Or, MonthRanges(y, m), kind, numbers);
    } else if scope.Range? {
      BoundsWritable(scope.start.value, AtMost, scope.end.value, kind, numbers);
    }
  }

  /** What the text of a query needs: names that are words and fit their types, numbers that read back as
      themselves, and years of four digits. */
  ghost predicate QueryFits(i: Interpretation, schema: Schema, kind: string -> Kind, numbers: Numbers) {
    SchemaFits(schema, kind) && GroupsFit(i.groups, numbers) && ScopeFits(i.dateScope)
  }

  /** Every compiled condition can be written. */
  lemma {:induction false} CompiledIsWritable(i: Interpretation, schema: Schema, years: seq<int>, months: seq<int>,
                                              kind: string -> Kind,
                                              numbers: Numbers)
    requires CompileWhere(i, schema, years, months).Ok? && QueryFits(i, schema, kind, numbers)
    ensures Writable(CompileWhere(i, schema, years, months).value, kind, numbers)
  {
    var groups := CompileGroups(i.groups, schema, i.includeCancelled).value;
    var date := DateWhere(i.dateScope, years, months).value;
    GroupsWritable(i.groups, schema, i.includeCancelled, kind, numbers);
    DateWritable(i.dateScope, years, months, kind, numbers);
    JoinWritable(Or, groups, kind, numbers);
    var parts := date + if groups == [] then [] else [Parens(Join(Or, groups))];
    assert AllWritable(parts, kind, numbers);
    JoinWritable(And, parts, kind, numbers);
  }

  /** The written query means what was asked: who reads its characters by SOQL's rules for words, literals
      and grouping reads a condition that selects a STEM exactly when its effective date is in scope and
      either there are no groups or all conditions of some group hold. */
  lemma {:induction false} TextPreservesMeaning(i: Interpretation, schema: Schema, years: seq<int>, months: seq<int>,
                                                kind: string -> Kind,
                                                numbers: Numbers,
                                                r: Record, database: Database, nulls: Nulls)
    requires CompileWhere(i, schema, years, months).Ok? && QueryFits(i, schema, kind, numbers)
    requires nulls.Valid() && RealDates(r)
    ensures var where := CompileWhere(i, schema, years, months).value;
            && Writable(where, kind, numbers)
            && var read := ReadText(Write(where, kind, numbers), kind, numbers);
               && read.Some?
               && (Selects(read.value, r, database, nulls) <==>
                   && InScope(r, i.dateScope, years, months)
                   && (i.groups == [] || SomeGroupHolds(i.groups, schema, i.includeCancelled, r, database, nulls)))
  {
    CompiledIsGrouped(i, schema, years, months);
    CompiledIsWritable(i, schema, years, months, kind, numbers);
    WrittenReadsBack(CompileWhere(i, schema, years, months).value, kind, numbers);
    CompilePreservesMeaning(i, schema, years, months, r, database, nulls);
  }
}
