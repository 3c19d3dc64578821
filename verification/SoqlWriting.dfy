/** Conditions as characters. Every token has one spelling, a condition is written as the spellings of its
    tokens, and a scanner that knows words, spaces, quotes and parentheses finds the tokens again. */
module SoqlWriting {
  import opened Calendar
  import opened Options
  import opened Soql
  import opened SoqlText

  // ----- words -----

  const SPACE: char := ' '
  const APOSTROPHE: char := '\''

  /** What ends a word. */
  predicate IsDelimiter(c: char) {
    c == SPACE || c == '(' || c == ')' || c == APOSTROPHE
  }

  predicate IsWord(w: string) {
    w != "" && forall i :: 0 <= i < |w| ==> !IsDelimiter(w[i])
  }

  /** A text that no word runs into. */
  predicate Breaks(text: string) {
    text == "" || IsDelimiter(text[0])
  }

  datatype Split = Split(word: string, rest: string)

  /** The longest word at the start of a text. */
  function ReadWord(text: string): (s: Split)
    ensures |s.rest| == |text| - |s.word|
  {
    if Breaks(text) then Split("", text)
    else
      var more := ReadWord(text[1..]);
      Split([text[0]] + more.word, more.rest)
  }

  lemma {:induction false} WordReads(w: string, rest: string)
    requires w == "" || IsWord(w)
    requires Breaks(rest)
    ensures ReadWord(w + rest) == Split(w, rest)
  {
    if w == "" {
      assert w + rest == rest;
    } else {
      assert (w + rest)[1..] == w[1..] + rest && (w + rest)[0] == w[0];
      WordReads(w[1..], rest);
    }
  }

  /** A word and the space behind it. */
  function ReadSpaced(text: string): (s: Option<Split>)
    ensures s.Some? ==> |s.value.rest| < |text|
  {
    var s := ReadWord(text);
    if s.word != "" && s.rest != "" && s.rest[0] == SPACE then Some(Split(s.word, s.rest[1..])) else None
  }

  lemma SpacedReads(w: string, rest: string)
    requires IsWord(w)
    ensures ReadSpaced(w + [SPACE] + rest) == Some(Split(w, rest))
  {
    assert w + [SPACE] + rest == w + ([SPACE] + rest);
    assert ([SPACE] + rest)[1..] == rest;
    WordReads(w, [SPACE] + rest);
  }

  // ----- dates -----

  function Digit(d: int): char
    requires 0 <= d < 10
  {
    '0' + d as char
  }

  function ReadDigit(c: char): Option<int> {
    if '0' <= c <= '9' then Some(c as int - '0' as int) else None
  }

  predicate WritableDate(d: Date) {
    0 <= d.year < 10000 && 1 <= d.month <= 12 && 1 <= d.day <= 31
  }

  function TwoDigits(n: int): (text: string)
    requires 0 <= n < 100
    ensures |text| == 2
  {
    [Digit(n / 10), Digit(n % 10)]
  }

  /** `YYYY-MM-DD`. */
  function IsoText(d: Date): (text: string)
    requires WritableDate(d)
    ensures |text| == 10
  {
    TwoDigits(d.year / 100) + TwoDigits(d.year % 100) + "-" + TwoDigits(d.month) + "-" + TwoDigits(d.day)
  }

  function ReadTwo(a: char, b: char): Option<int> {
    if ReadDigit(a).Some? && ReadDigit(b).Some? then Some(10 * ReadDigit(a).value + ReadDigit(b).value) else None
  }

  function ReadIso(text: string): Option<Date> {
    if |text| != 10 || text[4] != '-' || text[7] != '-' then None
    else
      var century, year, month, day := ReadTwo(text[0], text[1]), ReadTwo(text[2], text[3]), ReadTwo(text[5], text[6]),
          ReadTwo(text[8], text[9]);
      if century.None? || year.None? || month.None? || day.None? then None
      else Some(Date(100 * century.value + year.value, month.value, day.value))
  }

  lemma DigitReads(d: int)
    requires 0 <= d < 10
    ensures ReadDigit(Digit(d)) == Some(d) && !IsDelimiter(Digit(d)) && Digit(d) != 'n' && Digit(d) != 'f'
  {
  }

  lemma TwoRead(n: int)
    requires 0 <= n < 100
    ensures ReadTwo(TwoDigits(n)[0], TwoDigits(n)[1]) == Some(n)
    ensures forall i :: 0 <= i < 2 ==> !IsDelimiter(TwoDigits(n)[i]) && TwoDigits(n)[i] != 'n'
  {
    DigitReads(n / 10);
    DigitReads(n % 10);
  }

  lemma IsoReads(d: Date)
    requires WritableDate(d)
    ensures ReadIso(IsoText(d)) == Some(d)
  {
    var a, b, m, n := TwoDigits(d.year / 100), TwoDigits(d.year % 100), TwoDigits(d.month), TwoDigits(d.day);
    TwoRead(d.year / 100);
    TwoRead(d.year % 100);
    TwoRead(d.month);
    TwoRead(d.day);
    assert IsoText(d) == [a[0], a[1], b[0], b[1], '-', m[0], m[1], '-', n[0], n[1]];
  }

  lemma IsoIsWord(d: Date)
    requires WritableDate(d)
    ensures IsWord(IsoText(d)) && IsoText(d)[0] != 'n'
  {
    var a, b, m, n := TwoDigits(d.year / 100), TwoDigits(d.year % 100), TwoDigits(d.month), TwoDigits(d.day);
    TwoRead(d.year / 100);
    TwoRead(d.year % 100);
    TwoRead(d.month);
    TwoRead(d.day);
    assert IsoText(d) == [a[0], a[1], b[0], b[1], '-', m[0], m[1], '-', n[0], n[1]];
  }

  // ----- literals -----

  /** The escaped text up to the closing quote, and what follows the quote. */
  function ReadRaw(text: string): (s: Option<Split>)
    ensures s.Some? ==> |s.value.rest| < |text|
  {
    if text == "" then None
    else if text[0] == APOSTROPHE then Some(Split("", text[1..]))
    else if text[0] == '\\' then
      if |text| == 1 then None
      else
        var more := ReadRaw(text[2..]);
        if more.None? then None else Some(Split(text[..2] + more.value.word, more.value.rest))
    else
      var more := ReadRaw(text[1..]);
      if more.None? then None else Some(Split(text[..1] + more.value.word, more.value.rest))
  }

  /** An escaped text holds no closing quote of its own. */
  predicate IsEscaped(raw: string) {
    if raw == "" then true
    else if raw[0] == APOSTROPHE then false
    else if raw[0] == '\\' then |raw| > 1 && IsEscaped(raw[2..])
    else IsEscaped(raw[1..])
  }

  lemma {:induction false} RawReads(raw: string, rest: string)
    requires IsEscaped(raw)
    ensures ReadRaw(raw + ([APOSTROPHE] + rest)) == Some(Split(raw, rest))
  {
    var text := raw + ([APOSTROPHE] + rest);
    if raw == "" {
      assert text == [APOSTROPHE] + rest && text[1..] == rest;
    } else if raw[0] == '\\' {
      assert text[2..] == raw[2..] + ([APOSTROPHE] + rest) && text[..2] + raw[2..] == raw;
      RawReads(raw[2..], rest);
    } else {
      assert text[1..] == raw[1..] + ([APOSTROPHE] + rest) && text[..1] + raw[1..] == raw;
      RawReads(raw[1..], rest);
    }
  }

  lemma {:induction false} EscapeIsEscaped(value: string)
    ensures IsEscaped(Escape(value))
  {
    if value != "" {
      EscapeIsEscaped(value[1..]);
      var text := Escape(value);
      assert text[if value[0] == '\\' || value[0] == '\'' then 2 else 1..] == Escape(value[1..]);
    }
  }

  lemma {:induction false} EscapedAppend(a: string, b: string)
    requires IsEscaped(a) && IsEscaped(b)
    ensures IsEscaped(a + b)
  {
    if a == "" {
      assert a + b == b;
    } else if a[0] == '\\' {
      assert (a + b)[2..] == a[2..] + b;
      EscapedAppend(a[2..], b);
    } else {
      assert (a + b)[1..] == a[1..] + b;
      EscapedAppend(a[1..], b);
    }
  }

  /** The literal of a `contains` search. */
  lemma {:induction false} PatternIsEscaped(value: string)
    ensures IsEscaped("%" + Escape(value) + "%")
  {
    EscapeIsEscaped(value);
    assert "%"[1..] == "" && IsEscaped("%");
    EscapedAppend(Escape(value), "%");
    EscapedAppend("%", Escape(value) + "%");
    assert "%" + (Escape(value) + "%") == "%" + Escape(value) + "%";
  }

  // ----- spelling -----

  /** The type of a field decides how what stands behind it is read. */
  datatype Kind = TextKind | NumberKind | DateKind | FlagKind

  /** How numbers are written and read; both are the same for every condition. */
  datatype Numbers = Numbers(write: real -> string, read: string -> Option<real>)

  predicate WritableNumber(numbers: Numbers, x: real) {
    numbers.read(numbers.write(x)) == Some(x) && IsWord(numbers.write(x)) && numbers.write(x)[0] != 'n'
  }

  function Symbol(comparison: Comparison): string {
    match comparison
    case Less => "<"
    case AtMost => "<="
    case Equal => "="
    case Unequal => "!="
    case AtLeast => ">="
    case Greater => ">"
  }

  function ReadSymbol(symbol: string): Option<Comparison> {
    if symbol == "<" then Some(Less)
    else if symbol == "<=" then Some(AtMost)
    else if symbol == "=" then Some(Equal)
    else if symbol == "!=" then Some(Unequal)
    else if symbol == ">=" then Some(AtLeast)
    else if symbol == ">" then Some(Greater)
    else None
  }

  lemma SymbolReads(comparison: Comparison)
    ensures ReadSymbol(Symbol(comparison)) == Some(comparison) && IsWord(Symbol(comparison))
            && Symbol(comparison) != "NOT" && Symbol(comparison) != "IN"
  {
  }

  /** A field that can be told from a keyword. */
  predicate IsField(field: string) {
    IsWord(field) && field != "NOT"
  }

  /** The operator behind the field. */
  function OperatorOf(c: Condition): string
    requires IsComparison(c)
  {
    match c
    case TextIsNull(_) => "="
    case NumberIsNull(_) => "="
    case DateIsNull(_) => "="
    case TextIsPresent(_) => "!="
    case NumberIsPresent(_) => "!="
    case TextEquals(_, _) => "="
    case TextDiffers(_, _) => "!="
    case TextLike(_, _) => "LIKE"
    case NumberCompares(_, comparison, _) => Symbol(comparison)
    case DateCompares(_, comparison, _) => Symbol(comparison)
    case FlagIsFalse(_) => "="
  }

  predicate HasLiteral(c: Condition) {
    c.TextEquals? || c.TextDiffers? || c.TextLike?
  }

  /** The field, the operator and the value of a comparison can be written and told apart. */
  predicate WritableComparison(c: Condition, kind: string -> Kind, numbers: Numbers)
    requires IsComparison(c)
  {
    && IsField(c.field)
    && match c
       case TextIsNull(field) => kind(field).TextKind?
       case TextIsPresent(field) => kind(field).TextKind?
       case TextEquals(_, literal) => IsEscaped(literal)
       case TextDiffers(_, literal) => IsEscaped(literal)
       case TextLike(_, literal) => IsEscaped(literal)
       case NumberIsNull(field) => kind(field).NumberKind?
       case NumberIsPresent(field) => kind(field).NumberKind?
       case NumberCompares(field, _, number) => kind(field).NumberKind? && WritableNumber(numbers, number)
       case DateIsNull(field) => kind(field).DateKind?
       case DateCompares(field, _, date) => kind(field).DateKind? && WritableDate(date)
       case FlagIsFalse(field) => kind(field).FlagKind?
  }

  /** The word behind the operator of a comparison without a literal. */
  function ValueOf(c: Condition, numbers: Numbers): string
    requires IsComparison(c) && !HasLiteral(c) && (c.DateCompares? ==> WritableDate(c.date))
  {
    match c
    case NumberCompares(_, _, number) => numbers.write(number)
    case DateCompares(_, _, date) => IsoText(date)
    case FlagIsFalse(_) => "false"
    case _ => "null"
  }

  function SpellValue(c: Condition, numbers: Numbers): string
    requires IsComparison(c) && (c.DateCompares? ==> WritableDate(c.date))
  {
    if HasLiteral(c) then [APOSTROPHE] + c.literal + [APOSTROPHE] else ValueOf(c, numbers)
  }

  function SpellComparison(c: Condition, numbers: Numbers): string
    requires IsComparison(c) && (c.DateCompares? ==> WritableDate(c.date))
  {
    c.field + [SPACE] + (OperatorOf(c) + [SPACE] + SpellValue(c, numbers))
  }

  function ReadNull(field: string, kind: string -> Kind, present: bool): Option<Condition> {
    match kind(field)
    case TextKind => Some(if present then TextIsPresent(field) else TextIsNull(field))
    case NumberKind => Some(if present then NumberIsPresent(field) else NumberIsNull(field))
    case DateKind => if present then None else Some(DateIsNull(field))
    case FlagKind => None
  }

  /** A comparison with a word, by the type of its field. */
  function ReadValue(field: string, operator: string, value: string, kind: string -> Kind,
                     numbers: Numbers): Option<Condition> {
    var comparison := ReadSymbol(operator);
    if comparison.None? then None
    else if value == "null" then
      if comparison.value == Equal then ReadNull(field, kind, false)
      else if comparison.value == Unequal then ReadNull(field, kind, true)
      else None
    else
      match kind(field)
      case TextKind => None
      case FlagKind => if value == "false" && comparison.value == Equal then Some(FlagIsFalse(field)) else None
      case NumberKind =>
        var number := numbers.read(value);
        if number.None? then None else Some(NumberCompares(field, comparison.value, number.value))
      case DateKind =>
        var date := ReadIso(value);
        if date.None? then None else Some(DateCompares(field, comparison.value, date.value))
  }

  function LiteralComparison(field: string, operator: string, literal: string): Option<Condition> {
    if operator == "=" then Some(TextEquals(field, literal))
    else if operator == "!=" then Some(TextDiffers(field, literal))
    else if operator == "LIKE" then Some(TextLike(field, literal))
    else None
  }

  datatype Scanned = Scanned(token: Token, rest: string)

  function ReadComparison(field: string, operator: string, text: string, kind: string -> Kind,
                          numbers: Numbers): (s: Option<Scanned>)
    ensures s.Some? ==> |s.value.rest| <= |text|
  {
    if text != "" && text[0] == APOSTROPHE then
      var raw := ReadRaw(text[1..]);
      if raw.None? then None
      else
        var c := LiteralComparison(field, operator, raw.value.word);
        if c.None? then None else Some(Scanned(Comparison(c.value), raw.value.rest))
    else
      var s := ReadWord(text);
      var c := ReadValue(field, operator, s.word, kind, numbers);
      if c.None? then None else Some(Scanned(Comparison(c.value), s.rest))
  }

  lemma ValueReads(c: Condition, kind: string -> Kind, numbers: Numbers)
    requires IsComparison(c) && WritableComparison(c, kind, numbers) && !HasLiteral(c)
    ensures IsWord(ValueOf(c, numbers)) && ValueOf(c, numbers)[0] != APOSTROPHE
    ensures ReadValue(c.field, OperatorOf(c), ValueOf(c, numbers), kind, numbers) == Some(c)
  {
    if c.NumberCompares? {
      SymbolReads(c.comparison);
    } else if c.DateCompares? {
      SymbolReads(c.comparison);
      IsoReads(c.date);
      IsoIsWord(c.date);
    } else {
      SymbolReads(Equal);
      SymbolReads(Unequal);
      assert IsWord("null") && IsWord("false");
    }
  }

  lemma ComparisonReads(c: Condition, kind: string -> Kind, numbers: Numbers, rest: string)
    requires IsComparison(c) && WritableComparison(c, kind, numbers) && Breaks(rest)
    ensures ReadComparison(c.field, OperatorOf(c), SpellValue(c, numbers) + rest, kind, numbers)
            == Some(Scanned(Comparison(c), rest))
  {
    var text := SpellValue(c, numbers) + rest;
    if HasLiteral(c) {
      assert text[0] == APOSTROPHE && text[1..] == c.literal + ([APOSTROPHE] + rest);
      RawReads(c.literal, rest);
    } else {
      ValueReads(c, kind, numbers);
      WordReads(ValueOf(c, numbers), rest);
      assert text[0] == ValueOf(c, numbers)[0];
    }
  }

  // ----- tokens -----

  function SpellSelect(sobject: string, lookup: string): string {
    "(SELECT" + [SPACE] + (lookup + [SPACE] + ("FROM" + [SPACE] + (sobject + [SPACE] + ("WHERE" + [SPACE]))))
  }

  function Spell(t: Token, numbers: Numbers): string
    requires t.Comparison? ==>
               IsComparison(t.comparison) && (t.comparison.DateCompares? ==> WritableDate(t.comparison.date))
  {
    match t
    case Open => "("
    case Close => ")"
    case NotWord => "NOT" + [SPACE]
    case Word(word) => [SPACE] + ((if word == And then "AND" else "OR") + [SPACE])
    case Comparison(c) => SpellComparison(c, numbers)
    case InSelect(negated, sobject, lookup) =>
      "Id" + [SPACE] + (if negated then "NOT" + [SPACE] + ("IN" + [SPACE] + SpellSelect(sobject, lookup))
                        else "IN" + [SPACE] + SpellSelect(sobject, lookup))
  }

  function ReadKeyword(text: string, keyword: string): (rest: Option<string>)
    ensures rest.Some? ==> |rest.value| < |text|
  {
    var s := ReadSpaced(text);
    if s.Some? && s.value.word == keyword then Some(s.value.rest) else None
  }

  /** `(SELECT lookup FROM object WHERE `. */
  function ReadSelect(negated: bool, text: string): (s: Option<Scanned>)
    ensures s.Some? ==> |s.value.rest| < |text|
  {
    if text == "" || text[0] != '(' then None
    else
      var select := ReadKeyword(text[1..], "SELECT");
      if select.None? then None
      else
        var lookup := ReadSpaced(select.value);
        if lookup.None? then None
        else
          var from := ReadKeyword(lookup.value.rest, "FROM");
          if from.None? then None
          else
            var sobject := ReadSpaced(from.value);
            if sobject.None? then None
            else
              var where := ReadKeyword(sobject.value.rest, "WHERE");
              if where.None? then None
              else Some(Scanned(InSelect(negated, sobject.value.word, lookup.value.word), where.value))
  }

  /** What starts with a word: NOT, a semi-join or a comparison. */
  function ReadPhrase(text: string, kind: string -> Kind, numbers: Numbers): (s: Option<Scanned>)
    ensures s.Some? ==> |s.value.rest| < |text|
  {
    var first := ReadSpaced(text);
    if first.None? then None
    else if first.value.word == "NOT" then Some(Scanned(NotWord, first.value.rest))
    else
      var second := ReadSpaced(first.value.rest);
      if second.None? then None
      else if first.value.word == "Id" && second.value.word == "IN" then ReadSelect(false, second.value.rest)
      else if first.value.word == "Id" && second.value.word == "NOT" then
        var third := ReadKeyword(second.value.rest, "IN");
        if third.None? then None else ReadSelect(true, third.value)
      else ReadComparison(first.value.word, second.value.word, second.value.rest, kind, numbers)
  }

  function ReadToken(text: string, kind: string -> Kind, numbers: Numbers): (s: Option<Scanned>)
    requires text != ""
    ensures s.Some? ==> |s.value.rest| < |text|
  {
    if text[0] == '(' then Some(Scanned(Open, text[1..]))
    else if text[0] == ')' then Some(Scanned(Close, text[1..]))
    else if text[0] == SPACE then
      var word := ReadSpaced(text[1..]);
      if word.None? then None
      else if word.value.word == "AND" then Some(Scanned(Word(And), word.value.rest))
      else if word.value.word == "OR" then Some(Scanned(Word(Or), word.value.rest))
      else None
    else ReadPhrase(text, kind, numbers)
  }

  /** The tokens of a text. */
  function Scan(text: string, kind: string -> Kind, numbers: Numbers): Option<seq<Token>>
    decreases |text|
  {
    if text == "" then Some([])
    else
      var s := ReadToken(text, kind, numbers);
      if s.None? then None
      else
        var more := Scan(s.value.rest, kind, numbers);
        if more.None? then None else Some([s.value.token] + more.value)
  }

  predicate WritableToken(t: Token, kind: string -> Kind, numbers: Numbers) {
    match t
    case Comparison(c) => IsComparison(c) && WritableComparison(c, kind, numbers)
    case InSelect(_, sobject, lookup) => IsWord(sobject) && IsWord(lookup)
    case _ => true
  }

  lemma KeywordReads(keyword: string, rest: string)
    requires IsWord(keyword)
    ensures ReadKeyword(keyword + [SPACE] + rest, keyword) == Some(rest)
  {
    SpacedReads(keyword, rest);
  }

  lemma SelectReads(negated: bool, sobject: string, lookup: string, rest: string)
    requires IsWord(sobject) && IsWord(lookup)
    ensures ReadSelect(negated, SpellSelect(sobject, lookup) + rest)
            == Some(Scanned(InSelect(negated, sobject, lookup), rest))
  {
    var where := "WHERE" + [SPACE] + rest;
    var from := "FROM" + [SPACE] + (sobject + [SPACE] + where);
    var select := "SELECT" + [SPACE] + (lookup + [SPACE] + from);
    assert "(SELECT" == "(" + "SELECT";
    assert SpellSelect(sobject, lookup) + rest == "(" + select;
    assert ("(" + select)[1..] == select;
    KeywordReads("SELECT", lookup + [SPACE] + from);
    SpacedReads(lookup, from);
    KeywordReads("FROM", sobject + [SPACE] + where);
    SpacedReads(sobject, where);
    KeywordReads("WHERE", rest);
  }

  lemma NotReads(kind: string -> Kind, numbers: Numbers, rest: string)
    ensures ReadToken(Spell(NotWord, numbers) + rest, kind, numbers) == Some(Scanned(NotWord, rest))
  {
    assert "NOT" + [SPACE] + rest == Spell(NotWord, numbers) + rest;
    SpacedReads("NOT", rest);
  }

  lemma WordTokenReads(word: Connective, kind: string -> Kind, numbers: Numbers, rest: string)
    ensures ReadToken(Spell(Word(word), numbers) + rest, kind, numbers) == Some(Scanned(Word(word), rest))
  {
    var name := if word == And then "AND" else "OR";
    var text := Spell(Word(word), numbers) + rest;
    assert text[0] == SPACE && text[1..] == name + [SPACE] + rest;
    SpacedReads(name, rest);
  }

  lemma PlainSelectReads(sobject: string, lookup: string, kind: string -> Kind, numbers: Numbers, rest: string)
    requires IsWord(sobject) && IsWord(lookup)
    ensures ReadPhrase("Id" + [SPACE] + ("IN" + [SPACE] + (SpellSelect(sobject, lookup) + rest)), kind, numbers)
         == Some(Scanned(InSelect(false, sobject, lookup), rest))
  {
    var select := SpellSelect(sobject, lookup) + rest;
    SelectReads(false, sobject, lookup, rest);
    SpacedReads("Id", "IN" + [SPACE] + select);
    SpacedReads("IN", select);
  }

  lemma NegatedSelectReads(sobject: string, lookup: string, kind: string -> Kind, numbers: Numbers, rest: string)
    requires IsWord(sobject) && IsWord(lookup)
    ensures ReadPhrase("Id" + [SPACE] + ("NOT" + [SPACE] + ("IN" + [SPACE] + (SpellSelect(sobject, lookup) + rest))),
            kind, numbers)
         == Some(Scanned(InSelect(true, sobject, lookup), rest))
  {
    var select := SpellSelect(sobject, lookup) + rest;
    SelectReads(true, sobject, lookup, rest);
    SpacedReads("Id", "NOT" + [SPACE] + ("IN" + [SPACE] + select));
    SpacedReads("NOT", "IN" + [SPACE] + select);
    KeywordReads("IN", select);
  }

  lemma InSelectReads(negated: bool, sobject: string, lookup: string, kind: string -> Kind, numbers: Numbers,
                      rest: string)
    requires IsWord(sobject) && IsWord(lookup)
    ensures ReadToken(Spell(InSelect(negated, sobject, lookup), numbers) + rest, kind, numbers)
         == Some(Scanned(InSelect(negated, sobject, lookup), rest))
  {
    var select := SpellSelect(sobject, lookup) + rest;
    var text := Spell(InSelect(negated, sobject, lookup), numbers) + rest;
    if negated {
      assert text == "Id" + [SPACE] + ("NOT" + [SPACE] + ("IN" + [SPACE] + select));
      NegatedSelectReads(sobject, lookup, kind, numbers, rest);
    } else {
      assert text == "Id" + [SPACE] + ("IN" + [SPACE] + select);
      PlainSelectReads(sobject, lookup, kind, numbers, rest);
    }
  }

  lemma OperatorIsWord(c: Condition)
    requires IsComparison(c)
    ensures IsWord(OperatorOf(c)) && OperatorOf(c) != "NOT" && OperatorOf(c) != "IN"
  {
    if c.NumberCompares? || c.DateCompares? {
      SymbolReads(c.comparison);
    } else {
      SymbolReads(Equal);
      SymbolReads(Unequal);
      assert IsWord("LIKE");
    }
  }

  lemma ComparisonTokenReads(c: Condition, kind: string -> Kind, numbers: Numbers, rest: string)
    requires IsComparison(c) && WritableComparison(c, kind, numbers) && Breaks(rest)
    ensures ReadToken(SpellComparison(c, numbers) + rest, kind, numbers) == Some(Scanned(Comparison(c), rest))
  {
    var value := SpellValue(c, numbers) + rest;
    var text := SpellComparison(c, numbers) + rest;
    assert text == c.field + [SPACE] + (OperatorOf(c) + [SPACE] + value);
    OperatorIsWord(c);
    SpacedReads(c.field, OperatorOf(c) + [SPACE] + value);
    SpacedReads(OperatorOf(c), value);
    ComparisonReads(c, kind, numbers, rest);
    assert text[0] == c.field[0];
  }

  /** A token is read off the front of a text; behind a comparison the text must break the word. */
  lemma TokenReads(t: Token, kind: string -> Kind, numbers: Numbers, rest: string)
    requires WritableToken(t, kind, numbers) && (t.Comparison? ==> Breaks(rest))
    ensures Spell(t, numbers) != ""
    ensures ReadToken(Spell(t, numbers) + rest, kind, numbers) == Some(Scanned(t, rest))
  {
    match t
    case Open => assert ("(" + rest)[1..] == rest;
    case Close => assert (")" + rest)[1..] == rest;
    case NotWord => NotReads(kind, numbers, rest);
    case Word(word) => WordTokenReads(word, kind, numbers, rest);
    case Comparison(c) => ComparisonTokenReads(c, kind, numbers, rest);
    case InSelect(negated, sobject, lookup) => InSelectReads(negated, sobject, lookup, kind, numbers, rest);
  }

  // ----- token lists -----

  /** Nothing follows, or a token that breaks words. */
  predicate BreaksAfter(ts: seq<Token>) {
    ts == [] || ts[0].Close? || ts[0].Word?
  }

  /** Every token can be written, and none runs into the next. */
  predicate Scannable(ts: seq<Token>, kind: string -> Kind, numbers: Numbers) {
    ts == [] || (WritableToken(ts[0], kind, numbers) && (ts[0].Comparison? ==> BreaksAfter(ts[1..]))
        && Scannable(ts[1..], kind, numbers))
  }

  function TextOf(ts: seq<Token>, kind: string -> Kind, numbers: Numbers): string
    requires Scannable(ts, kind, numbers)
  {
    if ts == [] then "" else Spell(ts[0], numbers) + TextOf(ts[1..], kind, numbers)
  }

  lemma {:induction false} TextBreaks(ts: seq<Token>, kind: string -> Kind, numbers: Numbers)
    requires Scannable(ts, kind, numbers) && BreaksAfter(ts)
    ensures Breaks(TextOf(ts, kind, numbers))
  {
  }

  /** The scanner finds the tokens of a written list. */
  lemma {:induction false} ScanReads(ts: seq<Token>, kind: string -> Kind, numbers: Numbers)
    requires Scannable(ts, kind, numbers)
    ensures Scan(TextOf(ts, kind, numbers), kind, numbers) == Some(ts)
  {
    if ts != [] {
      var rest := TextOf(ts[1..], kind, numbers);
      ScanReads(ts[1..], kind, numbers);
      if ts[0].Comparison? {
        TextBreaks(ts[1..], kind, numbers);
      }
      TokenReads(ts[0], kind, numbers, rest);
      assert [ts[0]] + ts[1..] == ts;
    }
  }

  lemma {:induction false} ScannableAppend(a: seq<Token>, b: seq<Token>, kind: string -> Kind, numbers: Numbers)
    requires Scannable(a, kind, numbers) && Scannable(b, kind, numbers) && BreaksAfter(b)
    ensures Scannable(a + b, kind, numbers)
  {
    if a == [] {
      assert a + b == b;
    } else {
      assert (a + b)[1..] == a[1..] + b;
      ScannableAppend(a[1..], b, kind, numbers);
    }
  }

  // ----- conditions -----

  /** Every comparison of a condition can be written. */
  predicate Writable(c: Condition, kind: string -> Kind, numbers: Numbers) {
    match c
    case Not(condition) => Writable(condition, kind, numbers)
    case Parens(condition) => Writable(condition, kind, numbers)
    case Joined(word, parts) => forall i :: 0 <= i < |parts| ==> Writable(parts[i], kind, numbers)
    case HasChild(negated, sobject, lookup, where) => IsWord(sobject) && IsWord(lookup)
        && Writable(where, kind, numbers)
    case _ => WritableComparison(c, kind, numbers)
  }

  ghost predicate AllScannable(texts: seq<seq<Token>>, kind: string -> Kind, numbers: Numbers) {
    forall i :: 0 <= i < |texts| ==> Scannable(texts[i], kind, numbers)
  }

  lemma {:induction false} BetweenScannable(word: Connective, texts: seq<seq<Token>>, kind: string -> Kind,
                                            numbers: Numbers)
    requires AllScannable(texts, kind, numbers)
    ensures Scannable(Between(word, texts), kind, numbers)
  {
    if |texts| > 1 {
      var more := Between(word, texts[1..]);
      BetweenScannable(word, texts[1..], kind, numbers);
      assert ([Word(word)] + more)[1..] == more;
      ScannableAppend(texts[0], [Word(word)] + more, kind, numbers);
      assert texts[0] + [Word(word)] + more == texts[0] + ([Word(word)] + more);
    }
  }

  /** A closed condition behind an opening token. */
  lemma {:induction false} ClosedScannable(head: Token, inner: seq<Token>, kind: string -> Kind, numbers: Numbers)
    requires WritableToken(head, kind, numbers) && !head.Comparison? && Scannable(inner, kind, numbers)
    ensures Scannable([head] + inner + [Close], kind, numbers)
  {
    assert [Close][1..] == [];
    ScannableAppend(inner, [Close], kind, numbers);
    assert [head] + inner + [Close] == [head] + (inner + [Close]);
    assert ([head] + (inner + [Close]))[1..] == inner + [Close];
  }

  lemma {:induction false} PrintScannable(c: Condition, kind: string -> Kind, numbers: Numbers)
    requires Writable(c, kind, numbers)
    ensures Scannable(Print(c), kind, numbers)
  {
    if IsComparison(c) {
      assert [Comparison(c)][1..] == [];
    } else if c.Not? {
      PrintScannable(c.condition, kind, numbers);
      ClosedScannable(Open, Print(c.condition), kind, numbers);
      assert [NotWord, Open] + Print(c.condition) + [Close] == [NotWord] + ([Open] + Print(c.condition) + [Close]);
      assert Print(c)[1..] == [Open] + Print(c.condition) + [Close];
    } else if c.Parens? {
      PrintScannable(c.condition, kind, numbers);
      ClosedScannable(Open, Print(c.condition), kind, numbers);
    } else if c.HasChild? {
      PrintScannable(c.where, kind, numbers);
      ClosedScannable(InSelect(c.negated, c.sobject, c.lookup), Print(c.where), kind, numbers);
    } else {
      var texts := PrintAll(c.parts);
      forall i | 0 <= i < |texts| ensures Scannable(texts[i], kind, numbers) {
        PrintScannable(c.parts[i], kind, numbers);
      }
      BetweenScannable(c.word, texts, kind, numbers);
      assert Print(c) == Between(c.word, texts);
    }
  }

  /** A condition as the source writes it. */
  function Write(c: Condition, kind: string -> Kind, numbers: Numbers): string
    requires Writable(c, kind, numbers)
  {
    PrintScannable(c, kind, numbers);
    TextOf(Print(c), kind, numbers)
  }

  function ReadText(text: string, kind: string -> Kind, numbers: Numbers): Option<Condition> {
    var ts := Scan(text, kind, numbers);
    if ts.None? then None else Read(ts.value)
  }

  /** A grouped condition, written in characters and read, is itself. */
  lemma {:induction false} WrittenReadsBack(c: Condition, kind: string -> Kind, numbers: Numbers)
    requires (Grouped(c) || c == Joined(And, [])) && Writable(c, kind, numbers)
    ensures ReadText(Write(c, kind, numbers), kind, numbers) == Some(c)
  {
    PrintScannable(c, kind, numbers);
    ScanReads(Print(c), kind, numbers);
    PrintedReadsBack(c);
  }
}
