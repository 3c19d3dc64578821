/** The part of SOQL that the record search writes: conditions over one record and its children, text
    literals with their escapes, LIKE patterns, and what a null field does to a comparison. Text is
    compared as it stands; that SOQL ignores case is not part of the model. */
module Soql {
  import opened Calendar

  // ----- literals -----

  /** Backslashes first, then quotes. */
  function Escape(value: string): string {
    if value == [] then []
    else (if value[0] == '\\' then "\\\\" else if value[0] == '\'' then "\\'" else [value[0]]) + Escape(value[1..])
  }

  /** One character of a literal: `raw` is false if a backslash protects it. */
  datatype LiteralChar = LiteralChar(c: char, raw: bool)

  datatype Literal = Unterminated | Literal(chars: seq<LiteralChar>, rest: string)

  function Prepend(c: LiteralChar, l: Literal): Literal {
    if l.Unterminated? then l else Literal([c] + l.chars, l.rest)
  }

  /** Reads a literal after its opening quote, up to the first quote that no backslash protects. */
  function ReadLiteral(text: string): Literal {
    if text == [] then Unterminated
    else if text[0] == '\'' then Literal([], text[1..])
    else if text[0] == '\\' then
      if |text| == 1 then Unterminated else Prepend(LiteralChar(text[1], false), ReadLiteral(text[2..]))
    else Prepend(LiteralChar(text[0], true), ReadLiteral(text[1..]))
  }

  function CharOf(c: char): LiteralChar {
    LiteralChar(c, c != '\\' && c != '\'')
  }

  function CharsOf(value: string): seq<LiteralChar> {
    seq(|value|, i requires 0 <= i < |value| => CharOf(value[i]))
  }

  function Plain(chars: seq<LiteralChar>): string {
    seq(|chars|, i requires 0 <= i < |chars| => chars[i].c)
  }

  function PrependAll(chars: seq<LiteralChar>, l: Literal): Literal {
    if l.Unterminated? then l else Literal(chars + l.chars, l.rest)
  }

  lemma {:induction false} ReadsFirst(value: string, tail: string)
    requires value != []
    ensures ReadLiteral(Escape(value) + tail) == Prepend(CharOf(value[0]), ReadLiteral(Escape(value[1..]) + tail))
  {
    var head := if CharOf(value[0]).raw then [value[0]] else ['\\', value[0]];
    var more := Escape(value[1..]) + tail;
    assert Escape(value) + tail == head + more;
    assert (head + more)[|head|..] == more;
  }

  lemma PrependFirst(c: LiteralChar, chars: seq<LiteralChar>, l: Literal)
    ensures Prepend(c, PrependAll(chars, l)) == PrependAll([c] + chars, l)
  {
    assert l.Literal? ==> [c] + (chars + l.chars) == [c] + chars + l.chars;
  }

  lemma {:induction false} EscapedReads(value: string, tail: string)
    ensures ReadLiteral(Escape(value) + tail) == PrependAll(CharsOf(value), ReadLiteral(tail))
  {
    var l := ReadLiteral(tail);
    if value == [] {
      assert Escape(value) + tail == tail;
      assert l.Literal? ==> CharsOf(value) + l.chars == l.chars;
    } else {
      EscapedReads(value[1..], tail);
      ReadsFirst(value, tail);
      PrependFirst(CharOf(value[0]), CharsOf(value[1..]), l);
      assert CharsOf(value) == [CharOf(value[0])] + CharsOf(value[1..]);
    }
  }

  /** An escaped value, quoted and followed by anything, reads back as the value, and the rest is left
      alone: no value ends its literal early or swallows what follows. */
  lemma {:induction false} EscapedReadsBack(value: string, rest: string)
    ensures ReadLiteral(Escape(value) + ("'" + rest)) == Literal(CharsOf(value), rest)
    ensures Plain(CharsOf(value)) == value
  {
    EscapedReads(value, "'" + rest);
    assert CharsOf(value) + [] == CharsOf(value);
  }

  /** The same between two wildcards. */
  lemma {:induction false} EscapedReadsAround(value: string)
    ensures ReadLiteral("%" + Escape(value) + "%" + "'")
            == Literal([LiteralChar('%', true)] + CharsOf(value) + [LiteralChar('%', true)], "")
  {
    var wild := LiteralChar('%', true);
    assert "%'"[1..] == "'" && "'"[1..] == "";
    assert ReadLiteral("'") == Literal([], "");
    assert ReadLiteral("%'") == Literal([wild], "");
    EscapedReads(value, "%'");
    assert "%" + Escape(value) + "%" + "'" == "%" + (Escape(value) + "%'");
    assert ("%" + (Escape(value) + "%'"))[1..] == Escape(value) + "%'";
    assert [wild] + (CharsOf(value) + [wild]) == [wild] + CharsOf(value) + [wild];
  }

  // ----- LIKE -----

  datatype PatternChar = Any | One | Exactly(c: char)

  /** A raw `%` stands for any text and a raw `_` for any one character. */
  function PatternOf(chars: seq<LiteralChar>): seq<PatternChar> {
    seq(|chars|, i requires 0 <= i < |chars| =>
      if chars[i].raw && chars[i].c == '%' then Any else if chars[i].raw && chars[i].c == '_' then One
          else Exactly(chars[i].c))
  }

  predicate MatchesPattern(text: string, pattern: seq<PatternChar>)
    decreases |text| + |pattern|
  {
    if pattern == [] then text == []
    else
      match pattern[0]
      case Any => MatchesPattern(text, pattern[1..]) || (text != [] && MatchesPattern(text[1..], pattern))
      case One => text != [] && MatchesPattern(text[1..], pattern[1..])
      case Exactly(c) => text != [] && text[0] == c && MatchesPattern(text[1..], pattern[1..])
  }

  /** `LIKE '%value%'`. */
  predicate LikeAround(text: string, value: string) {
    MatchesPattern(text, [Any] + PatternOf(CharsOf(value)) + [Any])
  }

  predicate Wild(c: char) {
    c == '%' || c == '_'
  }

  predicate HasWild(value: string) {
    exists i :: 0 <= i < |value| && Wild(value[i])
  }

  /** `value` occurs in `text`. */
  predicate Occurs(text: string, value: string) {
    exists i :: 0 <= i <= |text| && OccursAt(text, value, i)
  }

  predicate OccursAt(text: string, value: string, i: int) {
    0 <= i <= |text| - |value| && text[i..i + |value|] == value
  }

  lemma {:induction false} AnyMatchesAll(text: string)
    ensures MatchesPattern(text, [Any])
  {
    if text != [] {
      AnyMatchesAll(text[1..]);
    }
  }

  /** The characters of `text` each fit a pattern without `Any`, and more text follows. */
  lemma {:induction false} FittingPrefix(text: string, pattern: seq<PatternChar>)
    requires |pattern| <= |text|
    requires forall i :: 0 <= i < |pattern| ==> pattern[i] == One || pattern[i] == Exactly(text[i]) || pattern[i] == Any
    ensures MatchesPattern(text, pattern + [Any])
  {
    if pattern == [] {
      AnyMatchesAll(text);
      assert pattern + [Any] == [Any];
    } else {
      FittingPrefix(text[1..], pattern[1..]);
      assert (pattern + [Any])[1..] == pattern[1..] + [Any];
      if pattern[0] == Any {
        AnySkips(text, pattern + [Any]);
      }
    }
  }

  /** `Any` may stand for one character. */
  lemma {:induction false} AnySkips(text: string, pattern: seq<PatternChar>)
    requires text != [] && pattern != [] && pattern[0] == Any && MatchesPattern(text[1..], pattern[1..])
    ensures MatchesPattern(text, pattern)
  {
    assert MatchesPattern(text[1..], pattern);
  }

  lemma {:induction false} AnySkipsMany(text: string, pattern: seq<PatternChar>, i: nat)
    requires i <= |text| && MatchesPattern(text[i..], pattern)
    ensures MatchesPattern(text, [Any] + pattern)
  {
    assert ([Any] + pattern)[1..] == pattern;
    if i > 0 {
      assert text[1..][i - 1..] == text[i..];
      AnySkipsMany(text[1..], pattern, i - 1);
    } else {
      assert text[0..] == text;
    }
  }

  lemma {:induction false} ExactPrefix(text: string, value: string)
    requires !HasWild(value) && MatchesPattern(text, PatternOf(CharsOf(value)) + [Any])
    ensures |value| <= |text| && text[..|value|] == value
  {
    if value != [] {
      assert !Wild(value[0]);
      assert !HasWild(value[1..]) by {
        assert forall i :: 0 <= i < |value| - 1 ==> value[1..][i] == value[i + 1];
      }
      var pattern := PatternOf(CharsOf(value));
      assert pattern[0] == Exactly(value[0]);
      assert (pattern + [Any])[1..] == PatternOf(CharsOf(value[1..])) + [Any];
      ExactPrefix(text[1..], value[1..]);
      assert text[..|value|] == [text[0]] + text[1..][..|value| - 1];
    }
  }

  lemma {:induction false} LikeFindsOccurrence(text: string, value: string)
    requires !HasWild(value) && LikeAround(text, value)
    ensures Occurs(text, value)
  {
    var pattern := PatternOf(CharsOf(value)) + [Any];
    assert [Any] + PatternOf(CharsOf(value)) + [Any] == [Any] + pattern;
    assert ([Any] + pattern)[1..] == pattern;
    if MatchesPattern(text, pattern) {
      ExactPrefix(text, value);
      assert OccursAt(text, value, 0);
    } else {
      LikeFindsOccurrence(text[1..], value);
      var i :| 0 <= i <= |text| - 1 && OccursAt(text[1..], value, i);
      assert text[i + 1..i + 1 + |value|] == text[1..][i..i + |value|];
      assert OccursAt(text, value, i + 1);
    }
  }

  lemma OccurrenceIsLike(text: string, value: string)
    requires Occurs(text, value)
    ensures LikeAround(text, value)
  {
    var i :| 0 <= i <= |text| && OccursAt(text, value, i);
    var pattern := PatternOf(CharsOf(value));
    assert forall j :: 0 <= j < |value| ==> text[i..][j] == value[j];
    FittingPrefix(text[i..], pattern);
    AnySkipsMany(text, pattern + [Any], i);
    assert [Any] + pattern + [Any] == [Any] + (pattern + [Any]);
  }

  function WithoutWild(value: string): string {
    seq(|value|, i requires 0 <= i < |value| => if Wild(value[i]) then 'x' else value[i])
  }

  /** `LIKE '%value%'` finds exactly the texts that contain the value if and only if the value has no
      `%` and no `_`: these are not escaped and stay wildcards. */
  lemma ContainsIffNoWild(value: string)
    ensures (forall text :: LikeAround(text, value) <==> Occurs(text, value)) <==> !HasWild(value)
  {
    if HasWild(value) {
      var text, pattern := WithoutWild(value), PatternOf(CharsOf(value));
      FittingPrefix(text, pattern);
      assert text[0..] == text;
      AnySkipsMany(text, pattern + [Any], 0);
      assert [Any] + pattern + [Any] == [Any] + (pattern + [Any]);
      assert LikeAround(text, value);
      assert !Occurs(text, value) by {
        var i :| 0 <= i < |value| && Wild(value[i]);
        assert text[i] == 'x' && !Wild('x');
        assert text[0..0 + |value|] == text != value;
      }
    } else {
      forall text ensures LikeAround(text, value) <==> Occurs(text, value) {
        if LikeAround(text, value) {
          LikeFindsOccurrence(text, value);
        }
        if Occurs(text, value) {
          OccurrenceIsLike(text, value);
        }
      }
    }
  }

  // ----- conditions -----

  datatype Comparison = Less | AtMost | Equal | Unequal | AtLeast | Greater

  datatype Connective = And | Or

  /** A condition as it is written: parentheses are part of it, `Not` negates the parenthesized condition
      behind it, and `Joined` stands without parentheses. Literals are kept with their escapes. `HasChild`
      is `Id [NOT] IN` the values of a lookup of the child rows that satisfy a condition. */
  datatype Condition =
    | TextIsNull(field: string)
    | TextIsPresent(field: string)
    | TextEquals(field: string, literal: string)
    | TextDiffers(field: string, literal: string)
    | TextLike(field: string, literal: string)
    | NumberIsNull(field: string)
    | NumberIsPresent(field: string)
    | NumberCompares(field: string, comparison: Comparison, number: real)
    | DateIsNull(field: string)
    | DateCompares(field: string, comparison: Comparison, date: Date)
    | FlagIsFalse(field: string)
    | Not(condition: Condition)
    | Parens(condition: Condition)
    | Joined(word: Connective, parts: seq<Condition>)
    | HasChild(negated: bool, sobject: string, lookup: string, where: Condition)

  /** A field that is missing from its map is null. */
  datatype Record = Record(id: int, texts: map<string, string>, numbers: map<string, real>, dates: map<string, Date>,
      flags: set<string>,
                           lookups: map<string, int>)

  type Database = map<string, seq<Record>>

  function Rows(database: Database, sobject: string): seq<Record> {
    if sobject in database then database[sobject] else []
  }

  datatype Truth = Yes | No | Unknown

  /** What a comparison with a null field yields: anything but yes for a match, anything for `!=`. */
  datatype Nulls = Nulls(matching: Truth, differing: Truth) {
    predicate Valid() {
      matching != Yes
    }
  }

  function Of(b: bool): Truth {
    if b then Yes else No
  }

  function Negate(t: Truth): Truth {
    match t
    case Yes => No
    case No => Yes
    case Unknown => Unknown
  }

  function OfComparison(comparison: Comparison, less: bool, equal: bool): Truth {
    match comparison
    case Less => Of(less)
    case AtMost => Of(less || equal)
    case Equal => Of(equal)
    case Unequal => Of(!equal)
    case AtLeast => Of(!less)
    case Greater => Of(!less && !equal)
  }

  function OfNull(comparison: Comparison, nulls: Nulls): Truth {
    if comparison == Unequal then nulls.differing else nulls.matching
  }

  function LiteralText(literal: string): Literal {
    ReadLiteral(literal + "'")
  }

  function Eval(c: Condition, r: Record, database: Database, nulls: Nulls): Truth {
    match c
    case TextIsNull(field) => Of(field !in r.texts)
    case TextIsPresent(field) => Of(field in r.texts)
    case TextEquals(field, literal) =>
      if field !in r.texts then nulls.matching
      else
        var l := LiteralText(literal);
        if l.Unterminated? then Unknown else Of(r.texts[field] == Plain(l.chars))
    case TextDiffers(field, literal) =>
      if field !in r.texts then nulls.differing
      else
        var l := LiteralText(literal);
        if l.Unterminated? then Unknown else Of(r.texts[field] != Plain(l.chars))
    case TextLike(field, literal) =>
      if field !in r.texts then nulls.matching
      else
        var l := LiteralText(literal);
        if l.Unterminated? then Unknown else Of(MatchesPattern(r.texts[field], PatternOf(l.chars)))
    case NumberIsNull(field) => Of(field !in r.numbers)
    case NumberIsPresent(field) => Of(field in r.numbers)
    case NumberCompares(field, comparison, number) =>
      if field !in r.numbers then OfNull(comparison, nulls)
      else OfComparison(comparison, r.numbers[field] < number, r.numbers[field] == number)
    case DateIsNull(field) => Of(field !in r.dates)
    case DateCompares(field, comparison, date) =>
      if field !in r.dates then OfNull(comparison, nulls)
      else OfComparison(comparison, Before(r.dates[field], date), r.dates[field] == date)
    case FlagIsFalse(field) => Of(field !in r.flags)
    case Not(condition) => Negate(Eval(condition, r, database, nulls))
    case Parens(condition) => Eval(condition, r, database, nulls)
    case Joined(word, parts) =>
      var decisive, neutral := if word == And then No else Yes, if word == And then Yes else No;
      if exists k :: 0 <= k < |parts| && Eval(parts[k], r, database, nulls) == decisive then decisive
      else if forall k :: 0 <= k < |parts| ==> Eval(parts[k], r, database, nulls) == neutral then neutral
      else Unknown
    case HasChild(negated, sobject, lookup, where) =>
      var rows := Rows(database, sobject);
      Of(negated <==> !exists k :: 0 <= k < |rows| && lookup in rows[k].lookups && rows[k].lookups[lookup] == r.id &&
                                   Eval(where, rows[k], database, nulls) == Yes)
  }

  /** A query returns the records for which its condition is certain. */
  predicate Selects(c: Condition, r: Record, database: Database, nulls: Nulls) {
    Eval(c, r, database, nulls) == Yes
  }

  /** `parts.join(' AND ')` or `parts.join(' OR ')`. */
  function Join(word: Connective, parts: seq<Condition>): Condition {
    if |parts| == 1 then parts[0] else Joined(word, parts)
  }

  /** `(` and `)` around every part. */
  function InParens(parts: seq<Condition>): seq<Condition> {
    seq(|parts|, i requires 0 <= i < |parts| => Parens(parts[i]))
  }

  lemma SelectsJoin(word: Connective, parts: seq<Condition>, r: Record, database: Database, nulls: Nulls)
    ensures Selects(Join(word, parts), r, database, nulls) <==>
            if word == And then forall k :: 0 <= k < |parts| ==> Selects(parts[k], r, database, nulls)
            else exists k :: 0 <= k < |parts| && Selects(parts[k], r, database, nulls)
  {
    if |parts| == 1 {
      assert Join(word, parts) == parts[0];
    }
  }

  lemma SelectsInParens(word: Connective, parts: seq<Condition>, r: Record, database: Database, nulls: Nulls)
    ensures Selects(Join(word, InParens(parts)), r, database, nulls) <==>
            if word == And then forall k :: 0 <= k < |parts| ==> Selects(parts[k], r, database, nulls)
            else exists k :: 0 <= k < |parts| && Selects(parts[k], r, database, nulls)
  {
    var wrapped := InParens(parts);
    SelectsJoin(word, wrapped, r, database, nulls);
    forall k | 0 <= k < |parts| ensures Selects(wrapped[k], r, database, nulls) <==>
        Selects(parts[k], r, database, nulls) {
      SelectsParens(parts[k], r, database, nulls);
    }
  }

  lemma SelectsParens(c: Condition, r: Record, database: Database, nulls: Nulls)
    ensures Selects(Parens(c), r, database, nulls) <==> Selects(c, r, database, nulls)
  {
  }

  lemma {:induction false} SelectsNot(c: Condition, r: Record, database: Database, nulls: Nulls)
    ensures Selects(Not(c), r, database, nulls) <==> Eval(c, r, database, nulls) == No
  {
  }

  /** Two or three conditions joined in one pair of parentheses. */
  lemma SelectsTwo(word: Connective, a: Condition, b: Condition, r: Record, database: Database, nulls: Nulls)
    ensures Selects(Parens(Joined(word, [a, b])), r, database, nulls) <==>
            if word == And then Selects(a, r, database, nulls) && Selects(b, r, database, nulls)
            else Selects(a, r, database, nulls) || Selects(b, r, database, nulls)
  {
    var parts := [a, b];
    SelectsJoin(word, parts, r, database, nulls);
    SelectsParens(Joined(word, parts), r, database, nulls);
    assert parts[0] == a && parts[1] == b;
  }

  lemma SelectsThree(a: Condition, b: Condition, c: Condition, r: Record, database: Database, nulls: Nulls)
    ensures Selects(Parens(Joined(And, [a, b, c])), r, database, nulls) <==>
            Selects(a, r, database, nulls) && Selects(b, r, database, nulls) && Selects(c, r, database, nulls)
  {
    var parts := [a, b, c];
    SelectsJoin(And, parts, r, database, nulls);
    SelectsParens(Joined(And, parts), r, database, nulls);
    assert parts[0] == a && parts[1] == b && parts[2] == c;
  }
}
