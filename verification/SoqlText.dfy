/** The grouping of a written condition. A condition is printed word by word, with the parentheses it
    carries and no others; a reader that knows SOQL's rule (AND and OR never mix without parentheses)
    gives back the condition. A single comparison is one token. */
module SoqlText {
  import opened Options
  import opened Soql

  datatype Token =
    | Open | Close | NotWord
    | Word(word: Connective)
    | Comparison(comparison: Condition)
    | InSelect(negated: bool, sobject: string, lookup: string)

  predicate IsComparison(c: Condition) {
    !c.Not? && !c.Parens? && !c.Joined? && !c.HasChild?
  }

  // ----- printing -----

  /** The texts with a connective between them. */
  function Between(word: Connective, texts: seq<seq<Token>>): seq<Token> {
    if texts == [] then []
    else if |texts| == 1 then texts[0]
    else texts[0] + [Word(word)] + Between(word, texts[1..])
  }

  function Print(c: Condition): seq<Token> {
    match c
    case Not(condition) => [NotWord, Open] + Print(condition) + [Close]
    case Parens(condition) => [Open] + Print(condition) + [Close]
    case Joined(word, parts) => Between(word, seq(|parts|, i requires 0 <= i < |parts| => Print(parts[i])))
    case HasChild(negated, sobject, lookup, where) => [InSelect(negated, sobject, lookup)] + Print(where) + [Close]
    case _ => [Comparison(c)]
  }

  // ----- reading -----

  datatype Parsed<T> = Parsed(value: T, rest: seq<Token>)

  /** A condition up to a closing parenthesis or the end: one term, or terms with one connective. */
  function ReadCondition(ts: seq<Token>): (r: Option<Parsed<Condition>>)
    ensures r.Some? ==> |r.value.rest| < |ts|
    decreases |ts|, 1
  {
    var first := ReadTerm(ts);
    if first.None? then None
    else if first.value.rest == [] || !first.value.rest[0].Word? then first
    else
      var word := first.value.rest[0].word;
      var more := ReadMore(word, first.value.rest);
      if more.None? then None else Some(Parsed(Joined(word, [first.value.value] + more.value.value), more.value.rest))
  }

  /** A comparison, a parenthesized condition, a negated one or a semi-join. */
  function ReadTerm(ts: seq<Token>): (r: Option<Parsed<Condition>>)
    ensures r.Some? ==> |r.value.rest| < |ts|
    decreases |ts|, 0
  {
    if ts == [] then None
    else
      match ts[0]
      case Comparison(c) => if IsComparison(c) then Some(Parsed(c, ts[1..])) else None
      case Open =>
        var inner := ReadClosed(ts[1..]);
        if inner.None? then None else Some(Parsed(Parens(inner.value.value), inner.value.rest))
      case NotWord =>
        if |ts| < 2 || ts[1] != Open then None
        else
          var inner := ReadClosed(ts[2..]);
          if inner.None? then None else Some(Parsed(Not(inner.value.value), inner.value.rest))
      case InSelect(negated, sobject, lookup) =>
        var inner := ReadClosed(ts[1..]);
        if inner.None? then None else Some(Parsed(HasChild(negated, sobject, lookup, inner.value.value),
            inner.value.rest))
      case _ => None
  }

  /** A condition and the parenthesis that closes it. */
  function ReadClosed(ts: seq<Token>): (r: Option<Parsed<Condition>>)
    ensures r.Some? ==> |r.value.rest| < |ts|
    decreases |ts|, 2
  {
    var inner := ReadCondition(ts);
    if inner.None? || inner.value.rest == [] || inner.value.rest[0] != Close then None
    else Some(Parsed(inner.value.value, inner.value.rest[1..]))
  }

  /** The further terms behind a connective, as long as it repeats. */
  function ReadMore(word: Connective, ts: seq<Token>): (r: Option<Parsed<seq<Condition>>>)
    ensures r.Some? ==> |r.value.rest| <= |ts|
    decreases |ts|, 1
  {
    if ts == [] || ts[0] != Word(word) then Some(Parsed([], ts))
    else
      var first := ReadTerm(ts[1..]);
      if first.None? then None
      else
        var more := ReadMore(word, first.value.rest);
        if more.None? then None else Some(Parsed([first.value.value] + more.value.value, more.value.rest))
  }

  /** A whole condition; the empty text joins nothing. */
  function Read(ts: seq<Token>): Option<Condition> {
    if ts == [] then Some(Joined(And, []))
    else
      var r := ReadCondition(ts);
      if r.Some? && r.value.rest == [] then Some(r.value.value) else None
  }

  // ----- what is printed reads back -----

  /** A term may stand beside a connective. */
  predicate IsTerm(c: Condition) {
    !c.Joined?
  }

  /** Only terms are joined, at least two of them, everywhere in the condition. */
  predicate Grouped(c: Condition) {
    match c
    case Not(condition) => Grouped(condition)
    case Parens(condition) => Grouped(condition)
    case Joined(word, parts) => |parts| >= 2 && forall i :: 0 <= i < |parts| ==> IsTerm(parts[i]) && Grouped(parts[i])
    case HasChild(negated, sobject, lookup, where) => Grouped(where)
    case _ => true
  }

  /** No connective goes on. */
  predicate Ends(rest: seq<Token>) {
    rest == [] || !rest[0].Word?
  }

  lemma {:induction false} ClosedReadsBack(c: Condition, rest: seq<Token>)
    requires Grouped(c)
    ensures ReadClosed(Print(c) + ([Close] + rest)) == Some(Parsed(c, rest))
    decreases c, 2
  {
    ConditionReadsBack(c, [Close] + rest);
    assert ([Close] + rest)[1..] == rest;
  }

  lemma {:induction false} TermReadsBack(c: Condition, rest: seq<Token>)
    requires Grouped(c) && IsTerm(c)
    ensures ReadTerm(Print(c) + rest) == Some(Parsed(c, rest))
    decreases c, 0
  {
    var ts := Print(c) + rest;
    if IsComparison(c) {
      assert ts[1..] == rest;
    } else if c.Not? {
      ClosedReadsBack(c.condition, rest);
      assert ts[2..] == Print(c.condition) + ([Close] + rest);
    } else if c.Parens? {
      ClosedReadsBack(c.condition, rest);
      assert ts[1..] == Print(c.condition) + ([Close] + rest);
    } else {
      ClosedReadsBack(c.where, rest);
      assert ts[1..] == Print(c.where) + ([Close] + rest);
    }
  }

  function PrintAll(parts: seq<Condition>): seq<seq<Token>> {
    seq(|parts|, i requires 0 <= i < |parts| => Print(parts[i]))
  }

  /** The terms from the second on, each behind the connective. */
  function Following(word: Connective, texts: seq<seq<Token>>): seq<Token> {
    if texts == [] then [] else [Word(word)] + texts[0] + Following(word, texts[1..])
  }

  lemma {:induction false} BetweenIsFollowing(word: Connective, texts: seq<seq<Token>>)
    requires texts != []
    ensures Between(word, texts) == texts[0] + Following(word, texts[1..])
  {
    if |texts| == 1 {
      assert texts[0] + [] == texts[0];
    } else {
      BetweenIsFollowing(word, texts[1..]);
      assert texts[0] + [Word(word)] + (texts[1] + Following(word, texts[1..][1..]))
          == texts[0] + ([Word(word)] + texts[1] + Following(word, texts[1..][1..]));
    }
  }

  /** The parts may be joined, and lie inside `whole`. */
  ghost predicate PartsOf(parts: seq<Condition>, whole: Condition) {
    forall i :: 0 <= i < |parts| ==> IsTerm(parts[i]) && Grouped(parts[i]) && parts[i] < whole
  }

  /** The further terms start with the connective and the next term. */
  lemma {:induction false} FollowingFirst(word: Connective, parts: seq<Condition>, k: nat, rest: seq<Token>)
    requires k < |parts|
    ensures Following(word, PrintAll(parts)[k..]) + rest
         == [Word(word)] + (Print(parts[k]) + (Following(word, PrintAll(parts)[k + 1..]) + rest))
  {
    var texts := PrintAll(parts);
    assert texts[k..][0] == Print(parts[k]) && texts[k..][1..] == texts[k + 1..];
  }

  lemma {:induction false} OneMoreReads(word: Connective, c: Condition, ts: seq<Token>, tail: seq<Token>,
                                        cs: seq<Condition>,
                                        rest: seq<Token>)
    requires ReadTerm(ts) == Some(Parsed(c, tail)) && ReadMore(word, tail) == Some(Parsed(cs, rest))
    ensures ReadMore(word, [Word(word)] + ts) == Some(Parsed([c] + cs, rest))
  {
    assert ([Word(word)] + ts)[1..] == ts;
  }

  lemma {:induction false} MoreReadsBack(word: Connective, parts: seq<Condition>, k: nat, rest: seq<Token>,
                                         whole: Condition)
    requires k <= |parts| && Ends(rest) && PartsOf(parts, whole)
    ensures ReadMore(word, Following(word, PrintAll(parts)[k..]) + rest) == Some(Parsed(parts[k..], rest))
    decreases whole, 0, |parts| - k
  {
    if k == |parts| {
      assert PrintAll(parts)[k..] == [] && Following(word, []) + rest == rest;
    } else {
      var tail := Following(word, PrintAll(parts)[k + 1..]) + rest;
      FollowingFirst(word, parts, k, rest);
      TermReadsBack(parts[k], tail);
      MoreReadsBack(word, parts, k + 1, rest, whole);
      OneMoreReads(word, parts[k], Print(parts[k]) + tail, tail, parts[k + 1..], rest);
      assert [parts[k]] + parts[k + 1..] == parts[k..];
    }
  }

  lemma {:induction false} ConditionReadsBack(c: Condition, rest: seq<Token>)
    requires Grouped(c) && Ends(rest)
    ensures ReadCondition(Print(c) + rest) == Some(Parsed(c, rest))
    decreases c, 1
  {
    if c.Joined? {
      var word, parts := c.word, c.parts;
      var texts := PrintAll(parts);
      var tail := Following(word, texts[1..]) + rest;
      assert Print(c) == Between(word, texts);
      BetweenIsFollowing(word, texts);
      assert Print(c) + rest == Print(parts[0]) + tail;
      TermReadsBack(parts[0], tail);
      MoreReadsBack(word, parts, 1, rest, c);
      assert texts[1..] != [] && tail[0] == Word(word);
      assert [parts[0]] + parts[1..] == parts;
    } else {
      TermReadsBack(c, rest);
    }
  }

  /** A grouped condition, printed and read, is itself. */
  lemma {:induction false} PrintedReadsBack(c: Condition)
    requires Grouped(c) || c == Joined(And, [])
    ensures Read(Print(c)) == Some(c)
  {
    if Grouped(c) {
      assert Print(c) + [] == Print(c);
      ConditionReadsBack(c, []);
      assert ReadCondition([]) == None;
    }
  }
}
